/** EUCLID's master clock (control.c, `eu_clock_start`, `eu_clock_update`): the
    firmware's wrapping 32-bit clock counted in whole quanta and a remainder. */
module EuclidClock {
  import opened Words

  const QUANTUM := 1323000
  const TWO_31 := 0x8000_0000

  /** The 32-bit word of `x` read as a signed number. */
  function S32(x: int): (s: int)
    ensures -TWO_31 <= s < TWO_31
    ensures -TWO_31 <= x < TWO_31 ==> s == x
  {
    if x % TWO_32 < TWO_31 then x % TWO_32 else x % TWO_32 - TWO_32
  }

  /** The clock's position: whole quanta (a wrapping word) and a remainder. */
  datatype Position = Position(quantum: nat, remainder: nat)

  /** The position `elapsed` clock units after the start. */
  function PositionAt(elapsed: int): Position {
    Position(W32(elapsed / QUANTUM), elapsed % QUANTUM)
  }

  /** The position `delta` units on, forward or back. */
  function Advanced(p: Position, delta: int): Position {
    var rem := p.remainder + delta;
    Position(W32(p.quantum + rem / QUANTUM), rem % QUANTUM)
  }

  class EuClock {
    var now: nat
    var quantum: nat
    var remainder: nat
    var epoch: nat
    var initialized: bool

    ghost predicate Valid()
      reads this
    {
      now < TWO_32 && quantum < TWO_32 && remainder < QUANTUM && epoch < TWO_32
    }

    ghost function At(): Position
      reads this
    {
      Position(quantum, remainder)
    }

    method Start(now: nat)
      requires now < TWO_32
      modifies this
      ensures At() == Position(0, 0) && this.now == now && epoch == W32(old(epoch) + 1) && initialized
      ensures Valid()
    {
      initialized := false;
      this.now := now;
      quantum, remainder := 0, 0;
      epoch := W32(epoch + 1);
      initialized := true;
    }

    /** The clock reads `now`. The signed difference must leave room for the
        remainder in a 32-bit int. */
    method Update(now: nat)
      requires Valid() && now < TWO_32
      requires initialized ==> S32(now - this.now) + remainder < TWO_31
      modifies this
      ensures Valid() && this.now == now && initialized
      ensures old(!initialized) ==> At() == Position(0, 0) && epoch == W32(old(epoch) + 1)
      ensures old(initialized) ==> At() == Advanced(old(At()), S32(now - old(this.now))) && epoch == old(epoch)
    {
      if !initialized {
        Start(now);
        return;
      }
      var delta := S32(now - this.now);
      this.now := now;
      quantum, remainder := Carry(quantum, remainder + delta);
    }
  }

  /** Whole quanta carried out of, or borrowed into, the remainder. */
  method Carry(quantum: nat, start: int) returns (q: nat, rem: nat)
    requires quantum < TWO_32
    ensures q == W32(quantum + start / QUANTUM) && rem == start % QUANTUM
  {
    var r, word: int := start, quantum;
    ghost var turns := 0;
    while r < 0
      invariant start == turns * QUANTUM + r && turns <= 0 && word == W32(quantum + turns)
      decreases -r
    {
      WrapSum(quantum + turns, -1);
      word, r, turns := W32(word - 1), r + QUANTUM, turns - 1;
    }
    while r >= QUANTUM
      invariant start == turns * QUANTUM + r && 0 <= r && word == W32(quantum + turns)
      decreases r
    {
      WrapSum(quantum + turns, 1);
      word, r, turns := W32(word + 1), r - QUANTUM, turns + 1;
    }
    return word, r;
  }

  /** Splitting one update into two changes nothing. */
  lemma AdvancedTwice(p: Position, d: int, e: int)
    ensures Advanced(Advanced(p, d), e) == Advanced(p, d + e)
  {
    var a := p.remainder + d;
    var b := a % QUANTUM + e;
    assert a + e == (a / QUANTUM) * QUANTUM + b;
    assert (a + e) / QUANTUM == a / QUANTUM + b / QUANTUM && (a + e) % QUANTUM == b % QUANTUM;
    WrapSum(p.quantum + a / QUANTUM, b / QUANTUM);
  }

  lemma WrapSum(x: int, y: int)
    ensures W32(W32(x) + y) == W32(x + y)
  {
  }

  /** Positions add up from the start. */
  lemma AdvancedFromStart(t: int, d: int)
    ensures Advanced(PositionAt(t), d) == PositionAt(t + d)
  {
    assert PositionAt(t) == Advanced(Position(0, 0), t);
    assert PositionAt(t + d) == Advanced(Position(0, 0), t + d);
    AdvancedTwice(Position(0, 0), t, d);
  }

  /** The firmware's clock word at true time t. */
  function Word(t: int): nat {
    W32(t)
  }

  /** Between two readings the signed word difference is the true difference,
      across any wrap, when that is less than 2^31 either way. */
  lemma WordDifference(t: int, u: int)
    requires -TWO_31 <= u - t < TWO_31
    ensures S32(Word(u) - Word(t)) == u - t
  {
    var k := (u / TWO_32) - (t / TWO_32);
    assert Word(u) - Word(t) == u - t - k * TWO_32;
    assert (u - t - k * TWO_32) % TWO_32 == (u - t) % TWO_32;
  }

  /** The position after the readings at the true times `ts`, from time `t0`. */
  function AfterReadings(p: Position, t0: int, ts: seq<int>): Position
    decreases |ts|
  {
    if ts == [] then p
    else
      var init, before := ts[..|ts| - 1], if |ts| == 1 then t0 else ts[|ts| - 2];
      Advanced(AfterReadings(p, t0, init), S32(Word(ts[|ts| - 1]) - Word(before)))
  }

  /** Reading i is less than half a turn of the word from the one before. */
  ghost predicate Near(t0: int, ts: seq<int>, i: nat)
    requires i < |ts|
  {
    -TWO_31 <= ts[i] - (if i == 0 then t0 else ts[i - 1]) < TWO_31
  }

  ghost predicate Steady(t0: int, ts: seq<int>) {
    forall i | 0 <= i < |ts| :: Near(t0, ts, i)
  }

  /** Path independence: whatever readings were taken, forward or backward and
      across any number of wraps, the position depends only on the last. */
  lemma {:induction false} PathIndependent(t0: int, ts: seq<int>)
    requires ts != [] && Steady(t0, ts)
    ensures AfterReadings(Position(0, 0), t0, ts) == PositionAt(ts[|ts| - 1] - t0)
    decreases |ts|
  {
    var init, last := ts[..|ts| - 1], ts[|ts| - 1];
    assert Near(t0, ts, |ts| - 1);
    assert forall i | 0 <= i < |init| :: Near(t0, ts, i) ==> Near(t0, init, i);
    if |ts| == 1 {
      WordDifference(t0, last);
      assert AfterReadings(Position(0, 0), t0, init) == PositionAt(0);
      AdvancedFromStart(0, last - t0);
    } else {
      PathIndependent(t0, init);
      WordDifference(ts[|ts| - 2], last);
      AdvancedFromStart(ts[|ts| - 2] - t0, last - ts[|ts| - 2]);
    }
  }
}
