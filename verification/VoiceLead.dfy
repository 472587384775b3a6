/** CHORDS FACTORY's voice leading (chords.c, `ch_lead`): the voicings of a
    chord nearest the one before it, best first. */
module VoiceLead {
  import opened VoiceCost
  import opened ChordTypes

  // ---- what is asked ---------------------------------------------------------

  /** The voicing before, the chord and its pitch classes, the number of voices
      and the window of notes the answers may use. */
  datatype Query = Query(prev: Voicing, root: nat, need: set<nat>, bassRoot: bool, voices: nat, lo: nat, hi: nat)

  function ClassesOf(v: Voicing): set<nat> {
    set n | n in v :: n % 12
  }

  /** A voicing that answers the query: as many ascending notes of the window
      as voices, exactly the chord's pitch classes, the root lowest when asked. */
  ghost predicate IsChoice(q: Query, v: Voicing) {
    && |v| == q.voices && Ascending(v)
    && (forall n | n in v :: q.lo <= n <= q.hi)
    && Accepted(q, v)
  }

  predicate Accepted(q: Query, v: Voicing) {
    ClassesOf(v) == q.need && (q.bassRoot ==> v != [] && v[0] % 12 == q.root)
  }

  // ---- the ranking ---------------------------------------------------------------

  function Interval(root: nat, note: nat): nat
    requires root < 12
  {
    (note + 12 - root) % 12
  }

  /** Voice k doubles an interval below it, other than the root or the fifth. */
  predicate Doubles(root: nat, v: Voicing, k: nat)
    requires root < 12 && k < |v|
  {
    var iv := Interval(root, v[k]);
    iv != 0 && iv != 7 && exists j | 0 <= j < k :: Interval(root, v[j]) == iv
  }

  /** The intervals of the first `n` voices. */
  function Heard(root: nat, v: Voicing, n: nat): set<nat>
    requires root < 12 && n <= |v|
  {
    if n == 0 then {} else Heard(root, v, n - 1) + {Interval(root, v[n - 1])}
  }

  lemma {:induction false} HeardBelow(root: nat, v: Voicing, n: nat, iv: nat)
    requires root < 12 && n <= |v|
    ensures iv in Heard(root, v, n) <==> exists j | 0 <= j < n :: Interval(root, v[j]) == iv
  {
    if n > 0 {
      HeardBelow(root, v, n - 1, iv);
    }
  }

  /** The number of doubling voices among the first `n`. */
  function Doublings(root: nat, v: Voicing, n: nat): nat
    requires root < 12 && n <= |v|
  {
    if n == 0 then 0 else Doublings(root, v, n - 1) + if Doubles(root, v, n - 1) then 1 else 0
  }

  function Span(v: Voicing): int
    requires v != []
  {
    v[|v| - 1] as int - v[0] as int
  }

  /** Two for every doubling, one for every semitone of span past two octaves. */
  function Penalty(root: nat, v: Voicing): nat
    requires root < 12 && v != []
  {
    2 * Doublings(root, v, |v|) + if Span(v) > 24 then Span(v) - 24 else 0
  }

  function CommonWith(x: nat, b: Voicing, n: nat): nat
    requires n <= |b|
  {
    if n == 0 then 0 else CommonWith(x, b, n - 1) + if b[n - 1] == x then 1 else 0
  }

  /** The pairs of equal notes, counting the first `m` notes of `a`. */
  function Common(a: Voicing, b: Voicing, m: nat): nat
    requires m <= |a|
  {
    if m == 0 then 0 else Common(a, b, m - 1) + CommonWith(a[m - 1], b, |b|)
  }

  function Score(q: Query, v: Voicing): nat
    requires q.root < 12 && v != []
  {
    Cost(q.prev, v) + Penalty(q.root, v)
  }

  function Keeps(q: Query, v: Voicing): nat {
    Common(q.prev, v, |q.prev|)
  }

  function Shared(a: Voicing, b: Voicing): set<nat> {
    set x | x in a && x in b
  }

  lemma SharedPush(rest: Voicing, last: nat, b: Voicing)
    requires Ascending(rest + [last])
    ensures |Shared(rest + [last], b)| == |Shared(rest, b)| + if last in b then 1 else 0
  {
    assert (rest + [last])[|rest|] == last;
    forall i | 0 <= i < |rest| ensures rest[i] < last { assert (rest + [last])[i] == rest[i]; }
    assert Shared(rest + [last], b) == if last in b then Shared(rest, b) + {last} else Shared(rest, b);
  }

  /** For ascending chords: the number of notes that stay. */
  lemma {:induction false} CommonIsShared(a: Voicing, b: Voicing, m: nat)
    requires m <= |a| && Ascending(a) && Ascending(b)
    ensures Common(a, b, m) == |Shared(a[..m], b)|
  {
    if m > 0 {
      var rest, last := a[..m - 1], a[m - 1];
      CommonIsShared(a, b, m - 1);
      CommonOne(last, b, |b|);
      assert b[..|b|] == b && a[..m] == rest + [last];
      SharedPush(rest, last, b);
    }
  }

  lemma {:induction false} CommonOne(x: nat, b: Voicing, n: nat)
    requires n <= |b| && Ascending(b)
    ensures CommonWith(x, b, n) == if x in b[..n] then 1 else 0
  {
    if n > 0 {
      CommonOne(x, b, n - 1);
      assert b[..n] == b[..n - 1] + [b[n - 1]];
    }
  }

  ghost predicate LexLess(v: Voicing, w: Voicing) {
    exists k | 0 <= k < |v| && k < |w| :: v[..k] == w[..k] && v[k] < w[k]
  }

  /** The order of the answers: the least movement and penalty, then the most
      notes kept, then the order of the notes, lowest voice first. */
  ghost predicate Better(q: Query, v: Voicing, w: Voicing)
    requires q.root < 12 && v != [] && w != []
  {
    || Score(q, v) < Score(q, w)
    || (Score(q, v) == Score(q, w) && Keeps(q, v) > Keeps(q, w))
    || (Score(q, v) == Score(q, w) && Keeps(q, v) == Keeps(q, w) && LexLess(v, w))
  }

  /** `out` is the best `k` of `seen`, best first: all of them when fewer. */
  ghost predicate Best(q: Query, k: nat, seen: set<Voicing>, out: seq<Voicing>)
    requires q.root < 12
  {
    && (forall v | v in seen :: v != [])
    && |out| <= k
    && (forall i | 0 <= i < |out| :: out[i] in seen)
    && (forall i, j | 0 <= i < j < |out| :: Better(q, out[i], out[j]))
    && (forall w, i | w in seen && w !in out && 0 <= i < |out| :: Better(q, out[i], w))
    && (|out| < k ==> forall w | w in seen :: w in out)
  }

  lemma LexTransitive(u: Voicing, v: Voicing, w: Voicing)
    requires LexLess(u, v) && LexLess(v, w)
    ensures LexLess(u, w)
  {
    var k :| 0 <= k < |u| && k < |v| && u[..k] == v[..k] && u[k] < v[k];
    var l :| 0 <= l < |v| && l < |w| && v[..l] == w[..l] && v[l] < w[l];
    var m := if k < l then k else l;
    assert u[..m] == v[..m] == w[..m] by {
      assert u[..m] == u[..k][..m] && v[..m] == v[..k][..m] && v[..m] == v[..l][..m] && w[..m] == w[..l][..m];
    }
    if k < l {
      assert w[k] == w[..l][k] == v[..l][k] == v[k];
    } else if l < k {
      assert u[l] == u[..k][l] == v[..k][l] == v[l];
    }
    assert u[m] < w[m];
  }

  lemma BetterTransitive(q: Query, u: Voicing, v: Voicing, w: Voicing)
    requires q.root < 12 && u != [] && v != [] && w != []
    requires Better(q, u, v) && Better(q, v, w)
    ensures Better(q, u, w)
  {
    if LexLess(u, v) && LexLess(v, w) { LexTransitive(u, v, w); }
  }

  /** Where the insertion puts a voicing that comes after all those seen. */
  ghost predicate Slot(q: Query, out: seq<Voicing>, v: Voicing, at: nat)
    requires q.root < 12 && v != [] && forall i | 0 <= i < |out| :: out[i] != []
  {
    && at <= |out|
    && (forall i | 0 <= i < at :: Better(q, out[i], v))
    && (forall i | at <= i < |out| :: Better(q, v, out[i]))
  }

  ghost function Pushed<T>(list: seq<T>, x: T, at: nat): seq<T>
    requires at <= |list|
  {
    list[..at] + [x] + list[at..]
  }

  /** `x` at position `at`, the list then cut to `k`. */
  ghost function Inserted<T>(k: nat, list: seq<T>, x: T, at: nat): seq<T>
    requires at <= |list|
  {
    var all := Pushed(list, x, at);
    if |all| <= k then all else all[..k]
  }

  /** The bounded insertion keeps the best k: nothing that belongs is dropped. */
  lemma InsertKeepsBest(q: Query, k: nat, seen: set<Voicing>, out: seq<Voicing>, v: Voicing, at: nat)
    requires q.root < 12 && v != [] && v !in seen && Best(q, k, seen, out) && Slot(q, out, v, at)
    ensures Best(q, k, seen + {v}, Inserted(k, out, v, at))
  {
    var all, out' := Pushed(out, v, at), Inserted(k, out, v, at);
    SlotSorted(q, out, v, at);
    assert forall i | 0 <= i < |out'| :: out'[i] == all[i];
    forall i | 0 <= i < |out'| ensures out'[i] in seen + {v} {
      PushedAt(out, v, at, i);
    }
    forall w, i | w in seen + {v} && w !in out' && 0 <= i < |out'| ensures Better(q, out'[i], w) {
      OutsideWorse(q, k, seen, out, v, at, w, i);
    }
    if |out'| < k {
      forall w | w in seen + {v} ensures w in out' { PushedHas(out, v, at, w); }
    }
  }

  lemma PushedAt(out: seq<Voicing>, v: Voicing, at: nat, i: nat)
    requires at <= |out| && i <= |out|
    ensures Pushed(out, v, at)[i] == if i < at then out[i] else if i == at then v else out[i - 1]
  {
  }

  lemma PushedHas(out: seq<Voicing>, v: Voicing, at: nat, w: Voicing)
    requires at <= |out|
    ensures w in Pushed(out, v, at) <==> w in out || w == v
  {
    assert out == out[..at] + out[at..];
  }

  /** What the list leaves out, or drops off its end, is worse than all it holds. */
  lemma OutsideWorse(q: Query, k: nat, seen: set<Voicing>, out: seq<Voicing>, v: Voicing, at: nat, w: Voicing, i: nat)
    requires q.root < 12 && v != [] && v !in seen && Best(q, k, seen, out) && Slot(q, out, v, at)
    requires w in seen + {v} && w !in Inserted(k, out, v, at) && i < |Inserted(k, out, v, at)|
    ensures Inserted(k, out, v, at)[i] != [] && w != [] && Better(q, Inserted(k, out, v, at)[i], w)
  {
    var all, out' := Pushed(out, v, at), Inserted(k, out, v, at);
    SlotSorted(q, out, v, at);
    PushedAt(out, v, at, i);
    PushedHas(out, v, at, w);
    if w in all {
      var j := Beyond(all, |out'|, w);
    } else if i == at {
      BetterTransitive(q, v, out[at], w);
    }
  }

  lemma Beyond(all: seq<Voicing>, n: nat, w: Voicing) returns (j: nat)
    requires n <= |all| && w in all && w !in all[..n]
    ensures n <= j < |all| && all[j] == w
  {
    assert forall i | 0 <= i < n :: all[..n][i] == all[i];
    j :| 0 <= j < |all| && all[j] == w;
  }

  lemma SlotSorted(q: Query, out: seq<Voicing>, v: Voicing, at: nat)
    requires q.root < 12 && v != [] && forall i | 0 <= i < |out| :: out[i] != []
    requires Slot(q, out, v, at) && forall i, j | 0 <= i < j < |out| :: Better(q, out[i], out[j])
    ensures var all := Pushed(out, v, at);
      && (forall i | 0 <= i < |all| :: all[i] != [])
      && (forall i, j | 0 <= i < j < |all| :: Better(q, all[i], all[j]))
  {
    var all := Pushed(out, v, at);
    forall i | 0 <= i < |all| ensures all[i] == (if i < at then out[i] else if i == at then v else out[i - 1]) {
    }
  }

  // ---- the search ----------------------------------------------------------------

  /** `w` completes the chosen notes with ascending candidates from `from` on. */
  ghost predicate Completes(cand: seq<nat>, voices: nat, chosen: Voicing, from: nat, w: Voicing)
    requires from <= |cand|
  {
    && |w| == voices && |chosen| <= voices && w[..|chosen|] == chosen && Ascending(w)
    && forall i | |chosen| <= i < |w| :: w[i] in cand[from..]
  }

  lemma IndexOrder(cand: seq<nat>, i: nat, j: nat)
    requires Ascending(cand) && i < |cand| && j < |cand| && cand[i] < cand[j]
    ensures i < j
  {
  }

  /** Choosing candidate c next: the completions whose next note is that one. */
  lemma NextNote(cand: seq<nat>, voices: nat, chosen: Voicing, from: nat, c: nat, w: Voicing)
    requires Ascending(cand) && from <= c < |cand| && |chosen| < voices
    ensures Completes(cand, voices, chosen + [cand[c]], c + 1, w)
       <==> Completes(cand, voices, chosen, from, w) && w[|chosen|] == cand[c]
  {
    var n := |chosen|;
    if Completes(cand, voices, chosen + [cand[c]], c + 1, w) {
      assert w[..n] == w[..n + 1][..n] == chosen;
      assert w[n] == w[..n + 1][n];
      assert cand[c] == cand[from..][c - from];
      forall i | n <= i < |w| ensures w[i] in cand[from..] {
        if i > n {
          assert w[i] in cand[c + 1..];
          var j :| c + 1 <= j < |cand| && cand[j] == w[i];
          assert cand[from..][j - from] == w[i];
        }
      }
    }
    if Completes(cand, voices, chosen, from, w) && w[n] == cand[c] {
      assert w[..n + 1] == chosen + [cand[c]];
      forall i | n + 1 <= i < |w| ensures w[i] in cand[c + 1..] {
        assert w[i] in cand[from..];
        var j :| from <= j < |cand| && cand[j] == w[i];
        assert w[n] < w[i];
        IndexOrder(cand, c, j);
        assert cand[c + 1..][j - c - 1] == w[i];
      }
    }
  }

  lemma CompletedAt(cand: seq<nat>, voices: nat, chosen: Voicing, from: nat, w: Voicing, k: nat) returns (j: nat)
    requires from <= |cand| && Completes(cand, voices, chosen, from, w) && |chosen| < k < voices
    ensures k < |w| && w[k - 1] < w[k] && j < |cand| && cand[j] == w[k]
  {
    var rest := cand[from..];
    assert w[k] in rest;
    var m :| 0 <= m < |rest| && rest[m] == w[k];
    j := from + m;
  }

  /** Ascending candidates run out: the i-th note after the chosen ones is at
      least the i-th candidate after c. */
  lemma {:induction false} Crowded(cand: seq<nat>, voices: nat, chosen: Voicing, from: nat, c: nat, w: Voicing, i: nat)
    returns (j: nat)
    requires Ascending(cand) && from <= c <= |cand| && Completes(cand, voices, chosen, from, w)
    requires |chosen| + i < voices && w[|chosen|] in cand[c..]
    ensures c + i <= j < |cand| && cand[j] == w[|chosen| + i]
  {
    if i == 0 {
      var rest := cand[c..];
      var m :| 0 <= m < |rest| && rest[m] == w[|chosen|];
      j := c + m;
    } else {
      var last := Crowded(cand, voices, chosen, from, c, w, i - 1);
      j := CompletedAt(cand, voices, chosen, from, w, |chosen| + i);
      IndexOrder(cand, last, j);
    }
  }

  lemma ClassesPush(v: Voicing, x: nat)
    ensures ClassesOf(v + [x]) == ClassesOf(v) + {x % 12}
  {
    forall p | p in ClassesOf(v) + {x % 12} ensures p in ClassesOf(v + [x]) {
      var n :| (n in v || n == x) && n % 12 == p;
      assert (v + [x])[|v|] == x;
      assert n in v + [x];
    }
  }

  /** The voicing being chosen, its notes pushed and popped. */
  class Chosen {
    var note: Voicing

    constructor ()
      ensures note == []
    {
      note := [];
    }
  }

  /** The elements from `at` to `last` moved down one, and `x` put at `at`. */
  method MoveDown<T>(a: array<T>, at: nat, last: nat, x: T)
    requires at <= last < a.Length
    modifies a
    ensures a[..last + 1] == Pushed(old(a[..last]), x, at)
  {
    var k := last;
    while k > at
      invariant at <= k <= last
      invariant forall i | k < i <= last :: a[i] == old(a[i - 1])
      invariant forall i | 0 <= i < k :: a[i] == old(a[i])
    {
      a[k] := a[k - 1];
      k := k - 1;
    }
    a[at] := x;
  }

  class Search {
    const q: Query
    const cand: seq<nat>
    const max: nat
    const out: array<Voicing>
    const cost: array<nat>
    const keep: array<nat>
    var count: nat
    ghost var seen: set<Voicing>

    constructor (q: Query, cand: seq<nat>, max: nat, out: array<Voicing>)
      requires q.root < 12 && q.voices > 0 && Ascending(cand) && 0 < max <= LEAD_MAX && out.Length >= max
      ensures Valid() && this.q == q && this.cand == cand && this.max == max && this.out == out
      ensures fresh(cost) && fresh(keep) && seen == {} && count == 0
    {
      this.q, this.cand, this.max, this.out := q, cand, max, out;
      cost, keep := new nat[LEAD_MAX], new nat[LEAD_MAX];
      count := 0;
      seen := {};
    }

    ghost predicate Valid()
      reads this, out, cost, keep
    {
      && q.root < 12 && q.voices > 0 && Ascending(cand)
      && 0 < max <= LEAD_MAX && out.Length >= max && cost.Length == keep.Length == LEAD_MAX && cost != keep
      && count <= max
      && Best(q, max, seen, out[..count])
      && (forall i | 0 <= i < count :: out[i] != [] && cost[i] == Score(q, out[i]) && keep[i] == Keeps(q, out[i]))
    }

    /** A complete choice: ranked among the best so far, or turned away. */
    method Consider(v: Voicing)
      requires Valid() && v != [] && ClassesOf(v) == q.need && v !in seen
      requires forall p | p in seen :: LexLess(p, v)
      modifies this, out, cost, keep
      ensures Valid() && seen == if Accepted(q, v) then old(seen) + {v} else old(seen)
    {
      if q.bassRoot && v[0] % 12 != q.root { return; }
      var moved := ComputeCost(q.prev, v);
      var penalty := ComputePenalty(q.root, v);
      var kept := CountCommon(q.prev, v);
      Enter(v, moved + penalty, kept);
    }

    method Enter(v: Voicing, c: nat, kept: nat)
      requires Valid() && v != [] && v !in seen
      requires forall p | p in seen :: LexLess(p, v)
      requires c == Score(q, v) && kept == Keeps(q, v)
      modifies this, out, cost, keep
      ensures Valid() && seen == old(seen) + {v}
    {
      var at := Place(v, c, kept);
      ghost var was, costs, keeps := out[..count], cost[..count], keep[..count];
      InsertKeepsBest(q, max, seen, was, v, at);
      RanksInserted(was, costs, keeps, v, at);
      seen := seen + {v};
      if at >= max {
        assert Inserted(max, was, v, at) == was;
        return;
      }
      ShiftIn(v, c, kept, at);
      RanksHold(out[..count], cost[..count], keep[..count]);
    }

    /** The lists the insertion makes still hold each answer's own ranks. */
    lemma RanksInserted(was: seq<Voicing>, costs: seq<nat>, keeps: seq<nat>, v: Voicing, at: nat)
      requires q.root < 12 && v != [] && |was| == |costs| == |keeps| && at <= |was|
      requires forall i | 0 <= i < |was| :: was[i] != [] && costs[i] == Score(q, was[i]) && keeps[i] == Keeps(q, was[i])
      ensures var w, c, k := Inserted(max, was, v, at), Inserted(max, costs, Score(q, v), at),
        Inserted(max, keeps, Keeps(q, v), at);
        |w| == |c| == |k| && forall i | 0 <= i < |w| :: w[i] != [] && c[i] == Score(q, w[i]) && k[i] == Keeps(q, w[i])
    {
      var w, c, k := Inserted(max, was, v, at), Inserted(max, costs, Score(q, v), at),
        Inserted(max, keeps, Keeps(q, v), at);
      forall i | 0 <= i < |w| ensures w[i] != [] && c[i] == Score(q, w[i]) && k[i] == Keeps(q, w[i]) {
        if i < at {
          assert w[i] == was[i] && c[i] == costs[i] && k[i] == keeps[i];
        } else if i > at {
          assert w[i] == was[i - 1] && c[i] == costs[i - 1] && k[i] == keeps[i - 1];
        }
      }
    }

    lemma RanksHold(w: seq<Voicing>, c: seq<nat>, k: seq<nat>)
      requires q.root < 12 && count <= out.Length && count <= cost.Length && count <= keep.Length
      requires w == out[..count] && c == cost[..count] && k == keep[..count]
      requires forall i | 0 <= i < |w| :: w[i] != [] && c[i] == Score(q, w[i]) && k[i] == Keeps(q, w[i])
      ensures forall i | 0 <= i < count :: out[i] != [] && cost[i] == Score(q, out[i]) && keep[i] == Keeps(q, out[i])
    {
      forall i | 0 <= i < count ensures out[i] != [] && cost[i] == Score(q, out[i]) && keep[i] == Keeps(q, out[i]) {
        assert w[i] == out[i] && c[i] == cost[i] && k[i] == keep[i];
      }
    }

    /** Where the choice goes: after every answer not worse than it. */
    method Place(v: Voicing, c: nat, kept: nat) returns (at: nat)
      requires Valid() && v != [] && v !in seen
      requires forall p | p in seen :: LexLess(p, v)
      requires c == Score(q, v) && kept == Keeps(q, v)
      ensures Slot(q, out[..count], v, at)
    {
      at := count;
      while at > 0 && (cost[at - 1] > c || (cost[at - 1] == c && keep[at - 1] < kept))
        invariant 0 <= at <= count
        invariant forall i | at <= i < count :: Better(q, v, out[i])
      {
        at := at - 1;
      }
      SlotFound(v, at, c, kept);
    }

    /** The answers from `at` on moved down one, the last dropped when full. */
    method ShiftIn(v: Voicing, c: nat, kept: nat, at: nat)
      requires at <= count <= max && at < max <= LEAD_MAX
      requires out.Length >= max && cost.Length == keep.Length == LEAD_MAX && cost != keep
      modifies this`count, out, cost, keep
      ensures count == old(if count < max then count + 1 else count)
      ensures out[..count] == Inserted(max, old(out[..count]), v, at)
      ensures cost[..count] == Inserted(max, old(cost[..count]), c, at)
      ensures keep[..count] == Inserted(max, old(keep[..count]), kept, at)
    {
      var last := if count < max then count else max - 1;
      ghost var was, costs, keeps := out[..count], cost[..count], keep[..count];
      assert out[..last] == was[..last] && cost[..last] == costs[..last] && keep[..last] == keeps[..last];
      CutAt(was, v, at, last);
      CutAt(costs, c, at, last);
      CutAt(keeps, kept, at, last);
      MoveDown(out, at, last, v);
      MoveDown(cost, at, last, c);
      MoveDown(keep, at, last, kept);
      if count < max { count := count + 1; }
    }

    lemma CutAt<T>(list: seq<T>, x: T, at: nat, last: nat)
      requires at <= last <= |list| <= max && at < max && last == if |list| < max then |list| else max - 1
      ensures Pushed(list[..last], x, at) == Inserted(max, list, x, at)
    {
      var all := Pushed(list, x, at);
      assert Pushed(list[..last], x, at) == all[..last + 1];
    }

    lemma SlotFound(v: Voicing, at: nat, c: nat, kept: nat)
      requires Valid() && v != [] && v !in seen && at <= count
      requires forall p | p in seen :: LexLess(p, v)
      requires c == Score(q, v) && kept == Keeps(q, v)
      requires at == 0 || !(cost[at - 1] > c || (cost[at - 1] == c && keep[at - 1] < kept))
      requires forall i | at <= i < count :: Better(q, v, out[i])
      ensures Slot(q, out[..count], v, at)
    {
      forall i | 0 <= i < at ensures Better(q, out[i], v) {
        assert out[..count][i] in seen && out[..count][at - 1] in seen;
        assert Better(q, out[at - 1], v);
        if i < at - 1 {
          assert Better(q, out[..count][i], out[..count][at - 1]);
          BetterTransitive(q, out[i], out[at - 1], v);
        }
      }
    }

    lemma PushNote(chosen: Voicing, from: nat, c: nat)
      requires Ascending(cand) && Ascending(chosen) && from <= c < |cand| && forall n | n in chosen :: n in cand[..from]
      ensures Ascending(chosen + [cand[c]]) && ClassesOf(chosen + [cand[c]]) == ClassesOf(chosen) + {cand[c] % 12}
      ensures forall n | n in chosen + [cand[c]] :: n in cand[..c + 1]
    {
      ClassesPush(chosen, cand[c]);
      forall k | 0 <= k < |chosen| ensures chosen[k] < cand[c] && chosen[k] in cand[..c + 1] {
        assert chosen[k] in cand[..from];
        var i :| 0 <= i < from && cand[i] == chosen[k];
        assert cand[..c + 1][i] == chosen[k];
      }
      assert cand[..c + 1][c] == cand[c];
    }

    /** Every completion of the voicing from candidate `from` on, considered. */
    method Choose(v: Chosen, from: nat, have: set<nat>)
      requires Valid() && from <= |cand| && |v.note| <= q.voices && Ascending(v.note)
      requires have == ClassesOf(v.note) && forall n | n in v.note :: n in cand[..from]
      requires forall p, w | p in seen && Completes(cand, q.voices, v.note, from, w) :: LexLess(p, w)
      modifies this, out, cost, keep, v
      ensures Valid() && v.note == old(v.note)
      ensures Searched(old(seen), seen, v.note, from, |cand|)
      decreases q.voices - |v.note|
    {
      ghost var chosen, before := v.note, seen;
      if |v.note| == q.voices {
        Complete(chosen, from);
        if have == q.need { Consider(v.note); }
        return;
      }
      var c := from;
      NothingYet(before, chosen, from);
      while c + (q.voices - |v.note|) <= |cand|
        invariant from <= c <= |cand| && Valid() && v.note == chosen
        invariant Searched(before, seen, chosen, from, c)
        decreases |cand| - c
      {
        ghost var middle := seen;
        AllBefore(before, seen, chosen, from, c);
        PushNote(chosen, from, c);
        v.note := v.note + [cand[c]];
        Choose(v, c + 1, have + {cand[c] % 12});
        v.note := v.note[..|v.note| - 1];
        OneMore(before, middle, seen, chosen, from, c);
        c := c + 1;
      }
      NoneLeft(before, seen, chosen, from, c);
    }

    /** The search has seen, besides `before`, exactly the accepted completions
        whose next note is a candidate below index `to`. */
    ghost predicate Searched(before: set<Voicing>, after: set<Voicing>, chosen: Voicing, from: nat, to: nat)
      requires from <= to <= |cand|
    {
      forall w: Voicing :: w in after <==>
        w in before || (Completes(cand, q.voices, chosen, from, w) && NextBelow(chosen, from, to, w) && Accepted(q, w))
    }

    ghost predicate NextBelow(chosen: Voicing, from: nat, to: nat, w: Voicing)
      requires from <= to <= |cand|
    {
      |chosen| < |w| ==> w[|chosen|] in cand[from..to]
    }

    /** A complete voicing completes only itself. */
    lemma Complete(chosen: Voicing, from: nat)
      requires |chosen| == q.voices && Ascending(chosen) && from <= |cand|
      ensures forall w: Voicing :: Completes(cand, q.voices, chosen, from, w) <==> w == chosen
      ensures !LexLess(chosen, chosen)
    {
      forall w: Voicing | Completes(cand, q.voices, chosen, from, w) ensures w == chosen {
        assert w == w[..|chosen|];
      }
      assert chosen[..|chosen|] == chosen;
    }

    lemma NothingYet(before: set<Voicing>, chosen: Voicing, from: nat)
      requires |chosen| < q.voices && from <= |cand|
      ensures Searched(before, before, chosen, from, from)
    {
    }

    /** What is seen so far comes before every completion with the next candidate. */
    lemma AllBefore(before: set<Voicing>, seen: set<Voicing>, chosen: Voicing, from: nat, c: nat)
      requires Ascending(cand) && |chosen| < q.voices && from <= c < |cand|
      requires Searched(before, seen, chosen, from, c)
      requires forall p, w | p in before && Completes(cand, q.voices, chosen, from, w) :: LexLess(p, w)
      ensures forall p, w | p in seen && Completes(cand, q.voices, chosen + [cand[c]], c + 1, w) :: LexLess(p, w)
    {
      forall p, w | p in seen && Completes(cand, q.voices, chosen + [cand[c]], c + 1, w) ensures LexLess(p, w) {
        NextNote(cand, q.voices, chosen, from, c, w);
        if p !in before {
          var n := |chosen|;
          assert p[..n] == w[..n];
          var i :| from <= i < c && cand[i] == p[n];
          assert p[n] < w[n];
        }
      }
    }

    lemma OneMore(before: set<Voicing>, middle: set<Voicing>, after: set<Voicing>, chosen: Voicing, from: nat, c: nat)
      requires Ascending(cand) && |chosen| < q.voices && from <= c < |cand|
      requires Searched(before, middle, chosen, from, c)
      requires Searched(middle, after, chosen + [cand[c]], c + 1, |cand|)
      ensures Searched(before, after, chosen, from, c + 1)
    {
      assert cand[from..c + 1] == cand[from..c] + [cand[c]];
      forall w: Voicing
        ensures w in after <==>
          w in before || (Completes(cand, q.voices, chosen, from, w) && NextBelow(chosen, from, c + 1, w)
            && Accepted(q, w))
      {
        NextNote(cand, q.voices, chosen, from, c, w);
        if Completes(cand, q.voices, chosen + [cand[c]], c + 1, w) {
          assert NextBelow(chosen + [cand[c]], c + 1, |cand|, w);
        }
      }
    }

    /** The pruned loop leaves no completion out: too few candidates remain. */
    lemma NoneLeft(before: set<Voicing>, after: set<Voicing>, chosen: Voicing, from: nat, c: nat)
      requires Ascending(cand) && |chosen| < q.voices && from <= c <= |cand| && c + (q.voices - |chosen|) > |cand|
      requires Searched(before, after, chosen, from, c)
      ensures Searched(before, after, chosen, from, |cand|)
    {
      var n := |chosen|;
      assert cand[from..] == cand[from..c] + cand[c..];
      forall w: Voicing | Completes(cand, q.voices, chosen, from, w) ensures w[n] in cand[from..c] {
        assert w[n] in cand[from..];
        if w[n] in cand[c..] { var j := Crowded(cand, q.voices, chosen, from, c, w, q.voices - n - 1); }
      }
    }
  }

  method ComputePenalty(root: nat, v: Voicing) returns (p: nat)
    requires root < 12 && v != []
    ensures p == Penalty(root, v)
  {
    p := 0;
    var heard: set<nat> := {};
    for k := 0 to |v|
      invariant p == 2 * Doublings(root, v, k)
      invariant heard == Heard(root, v, k)
    {
      var iv := Interval(root, v[k]);
      HeardBelow(root, v, k, iv);
      if iv in heard && iv != 0 && iv != 7 { p := p + 2; }
      heard := heard + {iv};
    }
    if Span(v) > 24 { p := p + (Span(v) - 24); }
  }

  method CountCommon(a: Voicing, b: Voicing) returns (c: nat)
    ensures c == Common(a, b, |a|)
  {
    c := 0;
    for i := 0 to |a|
      invariant c == Common(a, b, i)
    {
      for j := 0 to |b|
        invariant c == Common(a, b, i) + CommonWith(a[i], b, j)
      {
        if a[i] == b[j] { c := c + 1; }
      }
    }
  }

  // ---- the window's candidates -------------------------------------------------

  const CANDIDATES := 64

  /** Within one octave there are at most as many notes as pitch classes. */
  lemma {:induction false} OctaveNotes(s: seq<nat>, octave: nat, need: set<nat>)
    requires Ascending(s)
    requires forall i | 0 <= i < |s| :: 12 * octave <= s[i] < 12 * octave + 12 && s[i] % 12 in need
    ensures |s| <= |need|
  {
    if s != [] {
      var init, last := s[..|s| - 1], s[|s| - 1];
      forall i | 0 <= i < |init| ensures init[i] % 12 in need - {last % 12} {
        assert init[i] == s[i] < last;
      }
      OctaveNotes(init, octave, need - {last % 12});
    }
  }

  /** How many of the ascending notes are below a bound. */
  lemma {:induction false} SplitBelow(s: seq<nat>, bound: nat) returns (n: nat)
    requires Ascending(s)
    ensures n <= |s| && (forall i | 0 <= i < n :: s[i] < bound) && (forall i | n <= i < |s| :: s[i] >= bound)
  {
    if s == [] || s[|s| - 1] < bound {
      n := |s|;
    } else {
      n := SplitBelow(s[..|s| - 1], bound);
    }
  }

  lemma {:induction false} NotesBelow(s: seq<nat>, octaves: nat, need: set<nat>)
    requires octaves > 0
    requires Ascending(s) && forall i | 0 <= i < |s| :: s[i] < 12 * octaves && s[i] % 12 in need
    ensures |s| <= octaves * |need|
    decreases octaves
  {
    if octaves == 1 {
      OctaveNotes(s, 0, need);
    } else {
      var n := SplitBelow(s, 12 * (octaves - 1));
      NotesBelow(s[..n], octaves - 1, need);
      OctaveNotes(s[n..], octaves - 1, need);
      assert octaves * |need| == (octaves - 1) * |need| + |need|;
    }
  }

  /** The window's notes in the chord: the 64 places are enough for all of them. */
  method Candidates(need: set<nat>, lo: nat, hi: nat) returns (cand: seq<nat>)
    requires |need| <= VOICES && hi <= NOTE_MAX
    ensures Ascending(cand) && forall x: nat :: x in cand <==> lo <= x <= hi && x % 12 in need
  {
    var places, n, x := new nat[CANDIDATES], 0, lo;
    while x <= hi && n < CANDIDATES
      invariant 0 <= n < CANDIDATES && Ascending(places[..n])
      invariant lo <= hi ==> x <= hi + 1
      invariant forall y: nat :: y in places[..n] <==> lo <= y < x && y <= hi && y % 12 in need
    {
      if x % 12 in need {
        ghost var was := places[..n];
        assert forall i | 0 <= i < n :: was[i] in was;
        places[n] := x;
        n := n + 1;
        assert places[..n] == was + [x];
        NotesBelow(places[..n], 11, need);
        assert n <= 11 * VOICES;
      }
      x := x + 1;
    }
    return places[..n];
  }

  // ---- the answers ---------------------------------------------------------------

  /** The question `ch_lead` asks: the chord's pitch classes, as many voices as
      the fuller of the two chords, in the window an octave around `prev`. */
  function QueryOf(prev: Voicing, root: nat, kind: nat, bassRoot: bool): Query
    requires prev != [] && kind < |TYPES|
  {
    var tn := |TYPES[kind]|;
    var voices := if |prev| > tn then |prev| else tn;
    var lo, hi := prev[0] as int - 12, prev[|prev| - 1] + 12;
    Query(prev, root % 12, Classes(root % 12, TYPES[kind]), bassRoot, if voices > VOICES then VOICES else voices,
          if lo < 0 then 0 else lo, if hi > NOTE_MAX then NOTE_MAX else hi)
  }

  /** The k best choices of all, best first; all of them when there are fewer. */
  ghost predicate TopChoices(q: Query, k: nat, answers: seq<Voicing>)
    requires q.root < 12 && q.voices > 0
  {
    && |answers| <= k
    && (forall i | 0 <= i < |answers| :: IsChoice(q, answers[i]))
    && (forall i, j | 0 <= i < j < |answers| :: Better(q, answers[i], answers[j]))
    && (forall w: Voicing | IsChoice(q, w) && w !in answers ::
          |answers| == k && forall i | 0 <= i < |answers| :: Better(q, answers[i], w))
  }

  // ---- the question in the chord's own terms -----------------------------------------

  /** Note n is one of the chord's: some interval of the type above the root. */
  predicate InChord(root: nat, kind: nat, n: nat)
    requires kind < |TYPES|
  {
    exists c | c in TYPES[kind] :: n % 12 == (root + c) % 12
  }

  /** A voicing that may follow `prev`: as many notes as the fuller of the two chords, at
      most four, ascending, within 0..127 and an octave of prev's lowest and highest; every
      note in the chord, every interval of the chord in some note; and the root in the bass
      when asked. */
  ghost predicate Eligible(prev: Voicing, root: nat, kind: nat, bassRoot: bool, v: Voicing)
    requires prev != [] && kind < |TYPES|
  {
    && |v| <= 4 && (|v| == 4 || |v| == |prev| || |v| == |TYPES[kind]|)
    && (|v| == 4 || (|v| >= |prev| && |v| >= |TYPES[kind]|))
    && (|v| <= |prev| || |v| <= |TYPES[kind]|)
    && (forall i, j | 0 <= i < j < |v| :: v[i] < v[j])
    && (forall n | n in v :: n <= 127 && prev[0] as int - 12 <= n <= prev[|prev| - 1] + 12)
    && (forall n | n in v :: InChord(root, kind, n))
    && (forall c | c in TYPES[kind] :: exists n | n in v :: n % 12 == (root + c) % 12)
    && (bassRoot ==> v != [] && v[0] % 12 == root % 12)
  }

  /** The voices that double a pitch class below them, neither the root's nor the fifth's. */
  ghost function DoublingVoices(root: nat, v: Voicing): set<nat> {
    set k: nat | k < |v| && v[k] % 12 != root % 12 && v[k] % 12 != (root + 7) % 12
      && exists j | 0 <= j < k :: v[j] % 12 == v[k] % 12
  }

  /** How far an answer is from `prev`: the voices' least move, two for every doubling and
      one for every semitone of span past two octaves. */
  ghost function Farness(prev: Voicing, root: nat, v: Voicing): nat
    requires v != []
  {
    var wide := v[|v| - 1] as int - v[0] as int - 24;
    Cost(prev, v) + 2 * |DoublingVoices(root, v)| + if wide > 0 then wide else 0
  }

  /** The pairs of a note of one and the same note of the other. */
  ghost function SamePairs(a: Voicing, b: Voicing, m: nat): set<(nat, nat)>
    requires m <= |a|
  {
    set i: nat, j: nat | i < m && j < |b| && a[i] == b[j] :: (i, j)
  }

  /** The order of the answers: nearest first, then the most notes kept, then by the notes
      from the lowest up. */
  ghost predicate Precedes(prev: Voicing, root: nat, v: Voicing, w: Voicing)
    requires v != [] && w != []
  {
    var a, b := Farness(prev, root, v), Farness(prev, root, w);
    var k, l := |SamePairs(prev, v, |prev|)|, |SamePairs(prev, w, |prev|)|;
    a < b || (a == b && k > l) || (a == b && k == l && LexLess(v, w))
  }

  /** The k first of all that may follow, in that order; all of them when there are fewer. */
  ghost predicate FirstAnswers(prev: Voicing, root: nat, kind: nat, bassRoot: bool, k: nat, answers: seq<Voicing>)
    requires prev != [] && kind < |TYPES|
  {
    && |answers| <= k
    && (forall i | 0 <= i < |answers| :: answers[i] != [] && Eligible(prev, root, kind, bassRoot, answers[i]))
    && (forall i, j | 0 <= i < j < |answers| :: Precedes(prev, root, answers[i], answers[j]))
    && (forall w: Voicing | Eligible(prev, root, kind, bassRoot, w) && w !in answers ::
          |answers| == k && w != [] && forall i | 0 <= i < |answers| :: Precedes(prev, root, answers[i], w))
  }

  lemma IntervalIs(root: nat, note: nat)
    requires root < 12
    ensures Interval(root, note) < 12 && (root + Interval(root, note)) % 12 == note % 12
    ensures Interval(root, note) == 0 <==> note % 12 == root
    ensures Interval(root, note) == 7 <==> note % 12 == (root + 7) % 12
  {
  }

  lemma SameInterval(root: nat, a: nat, b: nat)
    requires root < 12
    ensures Interval(root, a) == Interval(root, b) <==> a % 12 == b % 12
  {
    IntervalIs(root, a);
    IntervalIs(root, b);
  }

  lemma DoublesIs(root: nat, v: Voicing, k: nat)
    requires root < 12 && k < |v|
    ensures Doubles(root, v, k) <==> k in DoublingVoices(root, v)
  {
    IntervalIs(root, v[k]);
    forall j | 0 <= j < k ensures Interval(root, v[j]) == Interval(root, v[k]) <==> v[j] % 12 == v[k] % 12 {
      SameInterval(root, v[j], v[k]);
    }
  }

  lemma {:induction false} DoublingsCount(root: nat, v: Voicing, n: nat)
    requires root < 12 && n <= |v|
    ensures Doublings(root, v, n) == |set k | k in DoublingVoices(root, v) && k < n|
  {
    var here := set k | k in DoublingVoices(root, v) && k < n;
    if n == 0 {
      assert here == {};
    } else {
      DoublingsCount(root, v, n - 1);
      DoublesIs(root, v, n - 1);
      var before := set k | k in DoublingVoices(root, v) && k < n - 1;
      assert here == if Doubles(root, v, n - 1) then before + {n - 1} else before;
    }
  }

  lemma ScoreIs(q: Query, root: nat, v: Voicing)
    requires q.root == root % 12 && v != []
    ensures Score(q, v) == Farness(q.prev, root, v)
  {
    DoublingsCount(q.root, v, |v|);
    SameDoublings(root, v);
  }

  lemma SameDoublings(root: nat, v: Voicing)
    ensures DoublingVoices(root % 12, v) == DoublingVoices(root, v)
    ensures (set k | k in DoublingVoices(root % 12, v) && k < |v|) == DoublingVoices(root, v)
  {
    SameClass(root, 7);
  }

  ghost function PairsOf(x: nat, i: nat, b: Voicing, n: nat): set<(nat, nat)>
    requires n <= |b|
  {
    set j: nat | j < n && x == b[j] :: (i, j)
  }

  lemma {:induction false} CommonWithPairs(x: nat, i: nat, b: Voicing, n: nat)
    requires n <= |b|
    ensures CommonWith(x, b, n) == |PairsOf(x, i, b, n)|
  {
    if n == 0 {
      assert PairsOf(x, i, b, 0) == {};
    } else {
      CommonWithPairs(x, i, b, n - 1);
      var before := PairsOf(x, i, b, n - 1);
      assert PairsOf(x, i, b, n) == if b[n - 1] == x then before + {(i, n - 1)} else before;
    }
  }

  lemma {:induction false} CommonIsPairs(a: Voicing, b: Voicing, m: nat)
    requires m <= |a|
    ensures Common(a, b, m) == |SamePairs(a, b, m)|
  {
    if m == 0 {
      assert SamePairs(a, b, 0) == {};
    } else {
      CommonIsPairs(a, b, m - 1);
      CommonWithPairs(a[m - 1], m - 1, b, |b|);
      var before, here := SamePairs(a, b, m - 1), PairsOf(a[m - 1], m - 1, b, |b|);
      assert SamePairs(a, b, m) == before + here && before !! here;
      assert |before + here| == |before| + |here|;
    }
  }

  lemma BetterIs(q: Query, root: nat, v: Voicing, w: Voicing)
    requires q.root == root % 12 && v != [] && w != []
    ensures Better(q, v, w) <==> Precedes(q.prev, root, v, w)
  {
    ScoreIs(q, root, v);
    ScoreIs(q, root, w);
    CommonIsPairs(q.prev, v, |q.prev|);
    CommonIsPairs(q.prev, w, |q.prev|);
  }

  lemma ClassIs(root: nat, kind: nat, p: nat)
    requires kind < |TYPES|
    ensures p in Classes(root % 12, TYPES[kind]) <==> exists c | c in TYPES[kind] :: p == (root + c) % 12
  {
    forall c: nat | c in TYPES[kind] ensures (root % 12 + c) % 12 == (root + c) % 12 { SameClass(root, c); }
  }

  lemma SameClass(root: nat, c: nat)
    ensures (root % 12 + c) % 12 == (root + c) % 12
  {
    assert root + c == 12 * (root / 12) + (root % 12 + c);
    OctaveAdds(root % 12 + c, root / 12);
  }

  lemma OctaveAdds(y: int, k: int)
    ensures (12 * k + y) % 12 == y % 12
  {
  }

  lemma ClassesIs(root: nat, kind: nat, v: Voicing)
    requires kind < |TYPES|
    ensures ClassesOf(v) == Classes(root % 12, TYPES[kind]) <==>
      && (forall n | n in v :: InChord(root, kind, n))
      && (forall c | c in TYPES[kind] :: exists n | n in v :: n % 12 == (root + c) % 12)
  {
    forall p: nat
      ensures p in Classes(root % 12, TYPES[kind]) <==> exists c | c in TYPES[kind] :: p == (root + c) % 12
    {
      ClassIs(root, kind, p);
    }
    var need := Classes(root % 12, TYPES[kind]);
    if ClassesOf(v) == need {
      forall n | n in v ensures InChord(root, kind, n) { assert n % 12 in ClassesOf(v); }
      forall c | c in TYPES[kind] ensures exists n | n in v :: n % 12 == (root + c) % 12 {
        assert (root + c) % 12 in need;
      }
    }
  }

  /** What `QueryOf` asks. */
  lemma ChoiceIsEligible(prev: Voicing, root: nat, kind: nat, bassRoot: bool, v: Voicing)
    requires prev != [] && kind < |TYPES|
    ensures IsChoice(QueryOf(prev, root, kind, bassRoot), v) <==> Eligible(prev, root, kind, bassRoot, v)
  {
    TypesWellFormed(kind);
    ClassesIs(root, kind, v);
  }

  lemma TopIsFirst(prev: Voicing, root: nat, kind: nat, bassRoot: bool, k: nat, answers: seq<Voicing>)
    requires prev != [] && kind < |TYPES| && TopChoices(QueryOf(prev, root, kind, bassRoot), k, answers)
    ensures FirstAnswers(prev, root, kind, bassRoot, k, answers)
  {
    var q := QueryOf(prev, root, kind, bassRoot);
    forall v: Voicing ensures IsChoice(q, v) <==> Eligible(prev, root, kind, bassRoot, v) {
      ChoiceIsEligible(prev, root, kind, bassRoot, v);
    }
    forall v: Voicing, w: Voicing | v != [] && w != [] ensures Better(q, v, w) <==> Precedes(prev, root, v, w) {
      BetterIs(q, root, v, w);
    }
  }

  /** Voice leading. The answers are exactly the best of every voicing that
      could be one: the pruned recursion, the bounded list and the 64
      candidates drop none that belong. */
  method Lead(prev: Voicing, root: nat, kind: nat, bassRoot: bool, out: array<Voicing>, max: nat) returns (n: nat)
    requires out.Length >= max || out.Length >= LEAD_MAX
    modifies out
    ensures n <= out.Length
    ensures prev == [] || kind >= |TYPES| || max == 0 ==> n == 0
    ensures prev != [] && kind < |TYPES| && max > 0 ==>
      TopChoices(QueryOf(prev, root, kind, bassRoot), if max < LEAD_MAX then max else LEAD_MAX, out[..n])
    ensures prev != [] && kind < |TYPES| && max > 0 ==>
      FirstAnswers(prev, root, kind, bassRoot, if max < LEAD_MAX then max else LEAD_MAX, out[..n])
  {
    if prev == [] || kind >= |TYPES| || max == 0 { return 0; }
    TypesWellFormed(kind);
    var q := QueryOf(prev, root, kind, bassRoot);
    ClassesBounded(root % 12, TYPES[kind]);
    var cand := Candidates(q.need, q.lo, q.hi);
    var s := new Search(q, cand, if max < LEAD_MAX then max else LEAD_MAX, out);
    var v := new Chosen();
    s.Choose(v, 0, {});
    ChoicesSeen(q, cand, s.seen, s);
    TopIsFirst(prev, root, kind, bassRoot, s.max, out[..s.count]);
    return s.count;
  }

  /** What the whole search has seen is every choice. */
  lemma ChoicesSeen(q: Query, cand: seq<nat>, seen: set<Voicing>, s: Search)
    requires s.q == q && s.cand == cand && q.voices > 0 && s.Searched({}, seen, [], 0, |cand|)
    requires forall x: nat :: x in cand <==> q.lo <= x <= q.hi && x % 12 in q.need
    ensures forall w: Voicing :: w in seen <==> IsChoice(q, w)
  {
    assert cand[0..] == cand && cand[0..|cand|] == cand;
    forall w: Voicing ensures w in seen <==> IsChoice(q, w) {
      if IsChoice(q, w) {
        forall i | 0 <= i < |w| ensures w[i] in cand {
          assert w[i] in w && w[i] % 12 in ClassesOf(w);
        }
        assert Completes(cand, q.voices, [], 0, w);
      } else if w in seen {
        forall n | n in w ensures q.lo <= n <= q.hi {
          var i :| 0 <= i < |w| && w[i] == n;
          assert w[i] in cand[0..];
        }
      }
    }
  }

  /** As many answers as asked for, or every choice there is. */
  lemma AnswerCount(q: Query, k: nat, answers: seq<Voicing>, choices: set<Voicing>)
    requires q.root < 12 && q.voices > 0 && TopChoices(q, k, answers)
    requires forall w: Voicing :: w in choices <==> IsChoice(q, w)
    ensures |answers| == if |choices| < k then |choices| else k
  {
    var given := set w | w in answers;
    DistinctCount(q, answers);
    Fewer(given, choices);
    if |answers| < k {
      assert given == choices;
    }
  }

  lemma DistinctCount(q: Query, answers: seq<Voicing>)
    requires q.root < 12 && forall i | 0 <= i < |answers| :: answers[i] != []
    requires forall i, j | 0 <= i < j < |answers| :: Better(q, answers[i], answers[j])
    ensures |set w | w in answers| == |answers|
  {
    forall i, j | 0 <= i < j < |answers| ensures answers[i] != answers[j] {
      assert Better(q, answers[i], answers[j]);
      NotBetterThanItself(q, answers[i]);
    }
    AllDifferent(answers);
  }

  lemma {:induction false} AllDifferent(answers: seq<Voicing>)
    requires forall i, j | 0 <= i < j < |answers| :: answers[i] != answers[j]
    ensures |set w | w in answers| == |answers|
  {
    if answers != [] {
      var init, last := answers[..|answers| - 1], answers[|answers| - 1];
      AllDifferent(init);
      assert answers == init + [last] && last !in init;
      assert (set w | w in answers) == (set w | w in init) + {last};
    }
  }

  lemma NotBetterThanItself(q: Query, v: Voicing)
    requires q.root < 12 && v != []
    ensures !Better(q, v, v)
  {
  }
}
