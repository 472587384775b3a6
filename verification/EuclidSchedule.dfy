/** EUCLID's schedule (control.c, `eu_process`): which events of the swung grid a
    frame takes. */
module EuclidSchedule {
  import opened Words
  import opened EuclidClock
  import opened EuclidSwing

  /** How far the next event lies ahead of the clock, in 32-bit words. */
  function Distance(next: nat, clock: Position, p: Params): int
    requires p.Valid()
  {
    S32(S32(S32(S32(next - clock.quantum) * QUANTUM) + SwingAt(p, next)) - clock.remainder)
  }

  /** How far ahead of the clock each grid point sounds. */
  function Ahead(clock: Position, p: Params): nat -> int
    requires p.Valid()
  {
    (q: nat) => Distance(q, clock, p)
  }

  lemma MultipleNext(next: nat, period: nat)
    requires period > 0 && next % period == 0
    ensures (next + period) % period == 0
  {
    DivBounds(next, period, next / period);
    assert (next / period + 1) * period == (next / period) * period + period;
    DivUnique(next + period, period, next / period + 1);
  }

  /** While the next event is within 1536 quanta of the clock, no step of the
      distance leaves its signed word. */
  lemma DistanceExact(next: nat, clock: Position, p: Params)
    requires p.Valid() && clock.remainder < QUANTUM && -1536 <= next - clock.quantum <= 1536
    ensures var gap := (next - clock.quantum) * QUANTUM;
      && -TWO_31 <= gap - clock.remainder && gap + SwingAt(p, next) < TWO_31
      && Distance(next, clock, p) == gap + SwingAt(p, next) - clock.remainder
    ensures Distance(next, clock, p) > 0 <==> !Due(p, clock, next)
  {
    WeightBound(p, next);
    DelayExact(p.swing, p.scale, Weight(p, next));
  }

  /** The grid points whose events a schedule takes, from `next` on. */
  function Log(next: nat, period: nat, ahead: nat -> int, budget: nat): seq<nat>
    decreases budget
  {
    if budget == 0 || ahead(next) > 0 then [] else [next] + Log(W32(next + period), period, ahead, budget - 1)
  }

  /** Where the schedule stands after taking `log`. */
  function Beyond(next: nat, log: seq<nat>, period: nat): nat {
    if log == [] then next else W32(log[|log| - 1] + period)
  }

  ghost predicate Spaced(log: seq<nat>, period: nat) {
    forall i, j | 0 <= i && j == i + 1 < |log| :: log[j] == log[i] + period
  }

  predicate OnGrid(q: nat, period: nat)
    requires period > 0
  {
    q % period == 0
  }

  /** Every point taken was not ahead, and is at most `last`. */
  ghost predicate AllTaken(log: seq<nat>, ahead: nat -> int, last: nat) {
    forall i | 0 <= i < |log| :: ahead(log[i]) <= 0 && log[i] <= last
  }

  /** Within 1536 quanta of the clock, whatever is not ahead is past. */
  ghost predicate Orderly(ahead: nat -> int, quantum: nat) {
    forall q: nat | -1536 <= q - quantum <= 1536 && ahead(q) <= 0 :: q <= quantum
  }

  /** The schedule has moved on past what it took. */
  predicate InOrder(next: nat, log: seq<nat>, period: nat, quantum: nat) {
    var end := Beyond(next, log, period);
    && next <= end && -1536 <= end - quantum && (end <= quantum + period || end == next)
    && (log != [] ==> log[0] == next && end == log[|log| - 1] + period)
  }

  /** What a schedule's log is, from `next` and a clock at `quantum`. */
  ghost predicate LogOf(log: seq<nat>, next: nat, period: nat, ahead: nat -> int, quantum: nat) {
    Spaced(log, period) && AllTaken(log, ahead, quantum) && InOrder(next, log, period, quantum)
  }

  lemma Longer(next: nat, rest: seq<nat>, period: nat, ahead: nat -> int, quantum: nat)
    requires next + period < TWO_32 && ahead(next) <= 0 && next <= quantum && -1536 <= next - quantum
    requires LogOf(rest, next + period, period, ahead, quantum)
    ensures LogOf([next] + rest, next, period, ahead, quantum)
    ensures Beyond(next, [next] + rest, period) == Beyond(next + period, rest, period)
  {
  }

  lemma LogTakes(next: nat, period: nat, ahead: nat -> int, budget: nat)
    requires next + period < TWO_32 && budget > 0 && ahead(next) <= 0
    ensures Log(next, period, ahead, budget) == [next] + Log(next + period, period, ahead, budget - 1)
  {
    assert W32(next + period) == next + period;
  }

  /** The schedule takes events in order, one period apart, and stops only at
      one still ahead or when the budget is spent. */
  lemma {:induction false} LogInOrder(next: nat, period: nat, ahead: nat -> int, budget: nat, quantum: nat)
    requires 1 <= period <= 768 && -1536 <= next - quantum <= 1536 && quantum + 768 < TWO_31
    requires Orderly(ahead, quantum)
    ensures var log := Log(next, period, ahead, budget);
      && |log| <= budget && LogOf(log, next, period, ahead, quantum)
      && (|log| < budget ==> ahead(Beyond(next, log, period)) > 0)
    decreases budget
  {
    if budget > 0 && ahead(next) <= 0 {
      LogTakes(next, period, ahead, budget);
      LogInOrder(next + period, period, ahead, budget - 1, quantum);
      Longer(next, Log(next + period, period, ahead, budget - 1), period, ahead, quantum);
    }
  }

  lemma {:induction false} SpacedOnGrid(log: seq<nat>, period: nat)
    requires period > 0 && Spaced(log, period) && (log != [] ==> OnGrid(log[0], period))
    ensures forall i | 0 <= i < |log| :: OnGrid(log[i], period)
    ensures log != [] ==> OnGrid(log[|log| - 1] + period, period)
  {
    if log != [] {
      MultipleNext(log[0], period);
      var rest := log[1..];
      if rest != [] { assert log[1] == log[0] + period; }
      assert forall i | 0 <= i < |rest| :: rest[i] == log[i + 1];
      SpacedOnGrid(rest, period);
      forall i | 0 <= i < |log| ensures OnGrid(log[i], period) {
        if i > 0 { assert log[i] == rest[i - 1]; }
      }
    }
  }

  lemma {:induction false} SpacedAscends(log: seq<nat>, period: nat)
    requires period > 0 && Spaced(log, period)
    ensures Ascending(log)
  {
    if log != [] {
      var n := |log| - 1;
      SpacedAscends(log[..n], period);
      forall i, j | 0 <= i < j < |log| ensures log[i] < log[j] {
        if j == n && i < n - 1 { assert log[..n][i] < log[..n][n - 1]; }
        if j < n { assert log[..n][i] < log[..n][j]; }
      }
    }
  }

  /** No distance a schedule computes overflows, so what it takes is what is due. */
  lemma AheadIsOrderly(clock: Position, p: Params)
    requires p.Valid() && clock.remainder < QUANTUM
    ensures Orderly(Ahead(clock, p), clock.quantum)
    ensures forall q: nat | -1536 <= q - clock.quantum <= 1536 :: Ahead(clock, p)(q) > 0 <==> !Due(p, clock, q)
  {
    forall q: nat | -1536 <= q - clock.quantum <= 1536
      ensures Ahead(clock, p)(q) > 0 <==> !Due(p, clock, q)
      ensures Ahead(clock, p)(q) <= 0 ==> q <= clock.quantum
    {
      DistanceExact(q, clock, p);
      if Due(p, clock, q) { DueIsPast(p, clock, q); }
    }
  }

  predicate AllBefore(log: seq<nat>, next: nat, high: nat) {
    forall i | 0 <= i < |log| :: log[i] < next && log[i] <= high
  }

  ghost predicate Ascending(log: seq<nat>) {
    forall i, j | 0 <= i < j < |log| :: log[i] < log[j]
  }

  ghost predicate AllDue(log: seq<nat>, period: nat, clock: Position, p: Params)
    requires p.Valid() && period > 0
  {
    forall i | 0 <= i < |log| :: OnGrid(log[i], period) && Due(p, clock, log[i])
  }

  lemma TakenAreDue(log: seq<nat>, period: nat, clock: Position, p: Params, from: nat)
    requires p.Valid() && clock.remainder < QUANTUM && period > 0
    requires from + 1536 >= clock.quantum && forall i | 0 <= i < |log| :: from <= log[i] && OnGrid(log[i], period)
    requires AllTaken(log, Ahead(clock, p), clock.quantum)
    ensures AllDue(log, period, clock, p)
  {
    forall i | 0 <= i < |log| ensures Due(p, clock, log[i]) {
      assert Ahead(clock, p)(log[i]) <= 0;
      DistanceExact(log[i], clock, p);
    }
  }

  lemma LogBounds(log: seq<nat>, next: nat, period: nat, ahead: nat -> int, quantum: nat)
    requires period > 0 && OnGrid(next, period) && LogOf(log, next, period, ahead, quantum)
    ensures forall i | 0 <= i < |log| :: next <= log[i] && OnGrid(log[i], period)
    ensures Ascending(log) && AllBefore(log, Beyond(next, log, period), quantum)
      && OnGrid(Beyond(next, log, period), period)
  {
    SpacedOnGrid(log, period);
    SpacedAscends(log, period);
  }

  lemma NoneLeft(clock: Position, p: Params, q: nat)
    requires p.Valid() && clock.remainder < QUANTUM && -1536 <= q - clock.quantum <= 1536
    requires Ahead(clock, p)(q) > 0
    ensures forall r | r >= q :: !Due(p, clock, r)
  {
    DistanceExact(q, clock, p);
    NoneDueBeyond(p, clock, q);
  }

  /** From a point within 1536 quanta of the clock, a schedule takes events on the
      grid in order, all of them due, and stops only when no later event is due
      or the budget is spent. */
  lemma ScheduleTakesDue(next: nat, period: nat, clock: Position, p: Params, budget: nat)
    requires p.Valid() && clock.remainder < QUANTUM && clock.quantum + 768 < TWO_31
    requires 1 <= period <= 768 && OnGrid(next, period) && -1536 <= next - clock.quantum <= 1536
    ensures var log := Log(next, period, Ahead(clock, p), budget);
      && |log| <= budget && Spaced(log, period) && Ascending(log)
      && InOrder(next, log, period, clock.quantum)
      && AllBefore(log, Beyond(next, log, period), clock.quantum) && OnGrid(Beyond(next, log, period), period)
      && AllDue(log, period, clock, p)
      && (|log| < budget ==> forall q | q >= Beyond(next, log, period) :: !Due(p, clock, q))
  {
    var ahead := Ahead(clock, p);
    var log := Log(next, period, ahead, budget);
    AheadIsOrderly(clock, p);
    LogInOrder(next, period, ahead, budget, clock.quantum);
    LogBounds(log, next, period, ahead, clock.quantum);
    TakenAreDue(log, period, clock, p, next);
    if |log| < budget { NoneLeft(clock, p, Beyond(next, log, period)); }
  }
}
