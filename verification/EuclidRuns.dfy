/** EUCLID over a steady epoch (control.c, `eu_process`): the clock runs on without long
    gaps at one rate, and then no event of the grid is left out, and the triggers are
    the pulses of the rhythm. */
module EuclidRuns {
  import opened Words
  import opened EuclidRhythm
  import opened EuclidClock
  import opened EuclidSwing
  import opened EuclidSchedule
  import opened EuclidGrid
  import opened EuclidVoice

  /** Running frames of one epoch and one period, whose clock steps back at most BACK
      quanta, and on at most four fifths of a period past the furthest it has been. */
  ghost predicate Steady(fs: seq<Frame>, epoch: nat, period: nat) {
    && (forall i | 0 <= i < |fs| :: SteadyFrame(fs[i], epoch, period))
    && (forall i, j | 0 <= i < j < |fs| :: fs[i].clock.quantum <= fs[j].clock.quantum + BACK)
    && (forall i | 0 <= i < |fs| :: Paced(fs, i, period))
  }

  predicate Paced(fs: seq<Frame>, i: nat, period: nat)
    requires i < |fs|
  {
    5 * fs[i].clock.quantum <= 5 * Highest(fs[..i]) + 4 * period
  }

  predicate SteadyFrame(f: Frame, epoch: nat, period: nat) {
    f.Valid() && f.epoch == epoch && f.running && Period(f.p) == period
  }

  // ---- one frame ----------------------------------------------------------------------

  /** Swing delays no event by more than a period and a fifth. */
  lemma DueWithinPeriod(p: Params, c: Position, q: nat)
    requires p.Valid() && 5 * q + 6 * Period(p) <= 5 * c.quantum
    ensures Due(p, c, q)
  {
    var w, s := Weight(p, q), p.swing * 26460;
    WeightBound(p, q);
    DelayExact(p.swing, p.scale, w);
    MulLe(s, 793800, w);
    assert SwingAt(p, q) == s * w <= 793800 * w <= 1587600 * p.scale;
    ScaleInPeriod(p.scale, SHIFTS[Min(p.rate, 4)]);
    assert p.scale <= Period(p);
  }

  lemma ScaleInPeriod(scale: nat, shift: nat)
    requires shift >= 1
    ensures scale <= scale * shift
  {
  }

  lemma SpacedRest(log: seq<nat>, next: nat, period: nat)
    requires log != [] && Spaced(log, period) && log[0] == next
    ensures Spaced(log[1..], period) && (|log| > 1 ==> log[1..][0] == next + period)
  {
    var rest := log[1..];
    assert forall i | 0 <= i < |rest| :: rest[i] == log[i + 1];
    if rest != [] { assert log[1] == log[0] + period; }
  }

  lemma {:induction false} SpacedIsPoints(log: seq<nat>, next: nat, period: nat)
    requires period > 0 && Spaced(log, period) && (log != [] ==> log[0] == next)
    ensures log == Points(next, period, |log|)
    ensures log != [] ==> log[|log| - 1] + period == next + |log| * period
    decreases |log|
  {
    if log != [] {
      var rest := log[1..];
      SpacedRest(log, next, period);
      SpacedIsPoints(rest, next + period, period);
      MulDist(period, 1, |rest|);
      assert log == [log[0]] + rest;
    }
  }

  /** A steady frame takes the next points of the grid, one after the other, and is
      left at most a period and a fifth behind. */
  ghost predicate Onwards(g: Grid, f: Frame, high: nat)
    requires f.p.Valid()
  {
    var log, h := FrameLog(g, f), GridAfter(g, f);
    && log == Points(g.next, g.period, |log|) && h.next == g.next + |log| * g.period
    && 5 * High(g, f, high) <= 5 * h.next + 6 * g.period
  }

  /** What is left is not far behind. */
  lemma NotBehind(next: nat, period: nat, taken: nat, f: Frame, high: nat)
    requires f.p.Valid() && Period(f.p) == period && 5 * high <= 5 * next + 6 * period && taken <= 3
    requires 5 * f.clock.quantum <= 5 * high + 4 * period
    requires taken == 3 || !Due(f.p, f.clock, next + taken * period)
    ensures 5 * f.clock.quantum <= 5 * (next + taken * period) + 6 * period
    ensures next <= next + taken * period
  {
    if taken < 3 && 5 * (next + taken * period) + 6 * period <= 5 * f.clock.quantum {
      DueWithinPeriod(f.p, f.clock, next + taken * period);
    }
  }

  /** The log of a frame that drops no backlog. */
  lemma NoBacklog(g: Grid, f: Frame, high: nat)
    requires SteadyFrame(f, g.epoch, g.period) && Onward(g, f, high) && Placed(g, high)
    requires 5 * high <= 5 * g.next + 6 * g.period && 5 * f.clock.quantum <= 5 * high + 4 * g.period
    ensures var log := Log(g.next, g.period, Ahead(f.clock, f.p), 3);
      && FrameLog(g, f) == log && GridAfter(g, f) == g.(next := Beyond(g.next, log, g.period))
  {
    assert Regridded(g, f) == g && CaughtUp(g, f.clock.quantum) == g;
  }

  lemma BeyondPoints(next: nat, log: seq<nat>, period: nat, quantum: nat)
    requires InOrder(next, log, period, quantum)
    requires log != [] ==> log[|log| - 1] + period == next + |log| * period
    ensures Beyond(next, log, period) == next + |log| * period
  {
    if log == [] { assert |log| * period == 0; }
  }

  lemma FrameSkipsNone(g: Grid, f: Frame, high: nat)
    requires SteadyFrame(f, g.epoch, g.period) && Onward(g, f, high) && Placed(g, high)
    requires 5 * high <= 5 * g.next + 6 * g.period && 5 * f.clock.quantum <= 5 * high + 4 * g.period
    ensures Onwards(g, f, high)
  {
    NoBacklog(g, f, high);
    LogSkipsNone(g.next, g.period, f, high);
  }

  lemma LogSkipsNone(next: nat, period: nat, f: Frame, high: nat)
    requires SteadyFrame(f, f.epoch, period) && OnGrid(next, period) && -1536 <= next - f.clock.quantum <= 1536
    requires 5 * high <= 5 * next + 6 * period && 5 * f.clock.quantum <= 5 * high + 4 * period
    ensures var log := Log(next, period, Ahead(f.clock, f.p), 3);
      var end := Beyond(next, log, period);
      && log == Points(next, period, |log|) && end == next + |log| * period
      && 5 * f.clock.quantum <= 5 * end + 6 * period && 5 * high <= 5 * end + 6 * period
  {
    var log := Log(next, period, Ahead(f.clock, f.p), 3);
    ScheduleTakesDue(next, period, f.clock, f.p, 3);
    SpacedIsPoints(log, next, period);
    BeyondPoints(next, log, period, f.clock.quantum);
    var end := Beyond(next, log, period);
    assert |log| < 3 ==> end >= end && !Due(f.p, f.clock, end);
    NotBehind(next, period, |log|, f, high);
  }

  // ---- the epoch --------------------------------------------------------------------------

  lemma {:induction false} PointsJoin(a: nat, period: nat, m: nat, n: nat)
    ensures Points(a, period, m) + Points(a + m * period, period, n) == Points(a, period, m + n)
    decreases m
  {
    if m > 0 {
      assert a + m * period == a + period + (m - 1) * period;
      PointsJoin(a + period, period, m - 1, n);
      assert [a] + Points(a + period, period, m - 1) + Points(a + m * period, period, n)
          == [a] + (Points(a + period, period, m - 1) + Points(a + m * period, period, n));
    }
  }

  lemma SteadyIsEpoch(fs: seq<Frame>, epoch: nat, period: nat)
    requires Steady(fs, epoch, period)
    ensures AllValid(fs) && Epoch(fs, epoch)
  {
  }

  lemma SteadyFront(fs: seq<Frame>, epoch: nat, period: nat)
    requires fs != [] && Steady(fs, epoch, period)
    ensures Steady(fs[..|fs| - 1], epoch, period)
  {
    var init := fs[..|fs| - 1];
    forall i | 0 <= i < |init| ensures Paced(init, i, period) {
      assert init[..i] == fs[..i] && Paced(fs, i, period);
    }
  }

  /** The first so many points of the grid were taken, and the next is the one after
      them, at most a period and a fifth behind the clock. */
  ghost predicate FirstPoints(log: seq<nat>, h: Grid, epoch: nat, period: nat, high: nat) {
    && log == Points(0, period, |log|) && h.epoch == epoch && h.period == period
    && h.next == |log| * period && 5 * high <= 5 * h.next + 6 * period
  }

  lemma PointsGrow(log: seq<nat>, more: seq<nat>, period: nat)
    requires log == Points(0, period, |log|) && more == Points(|log| * period, period, |more|)
    ensures log + more == Points(0, period, |log + more|)
    ensures |log + more| * period == |log| * period + |more| * period
  {
    PointsJoin(0, period, |log|, |more|);
    MulDist(period, |log|, |more|);
  }

  lemma FrameGrows(log: seq<nat>, g: Grid, f: Frame, high: nat)
    requires SteadyFrame(f, g.epoch, g.period) && Onward(g, f, high) && Placed(g, high)
    requires FirstPoints(log, g, g.epoch, g.period, high) && 5 * f.clock.quantum <= 5 * high + 4 * g.period
    ensures FirstPoints(log + FrameLog(g, f), GridAfter(g, f), g.epoch, g.period, High(g, f, high))
  {
    FrameSkipsNone(g, f, high);
    PointsGrow(log, FrameLog(g, f), g.period);
  }

  /** A steady run's last frame follows on the ones before. */
  lemma LastIsOnward(g: Grid, fs: seq<Frame>, epoch: nat, period: nat)
    requires |fs| > 1 && Steady(fs, epoch, period) && g.epoch == epoch && g.period == period
    ensures var f, high := fs[|fs| - 1], Highest(fs[..|fs| - 1]);
      Onward(g, f, high) && Highest(fs) == High(g, f, high) && 5 * f.clock.quantum <= 5 * high + 4 * period
  {
    var n := |fs| - 1;
    var init := fs[..n];
    var i :| 0 <= i < |init| && init[i].clock.quantum == Highest(init);
    assert SteadyFrame(fs[i], epoch, period) && SteadyFrame(fs[n], epoch, period) && Paced(fs, n, period);
  }

  lemma FirstFrame(g: Grid, f: Frame)
    requires f.p.Valid() && g.epoch != f.epoch
    ensures var s := Grid(f.epoch, 0, Period(f.p));
      FrameLog(g, f) == FrameLog(s, f) && GridAfter(g, f) == GridAfter(s, f)
  {
  }

  /** In a steady epoch no event is left out: the events taken are the first so many
      points of the grid, each once, and none a period and a fifth behind the clock is
      still to come. */
  lemma {:induction false} NoneSkipped(g: Grid, fs: seq<Frame>, epoch: nat, period: nat)
    requires g.epoch != epoch && fs != [] && Steady(fs, epoch, period)
    ensures AllValid(fs) && FirstPoints(RunLog(g, fs), GridAfterAll(g, fs), epoch, period, Highest(fs))
    decreases |fs|
  {
    var n := |fs| - 1;
    SteadyIsEpoch(fs, epoch, period);
    SteadyFront(fs, epoch, period);
    if n == 0 {
      OneFrame(g, fs, epoch, period);
    } else {
      NoneSkipped(g, fs[..n], epoch, period);
      MoreFrames(g, fs, epoch, period);
    }
  }

  lemma OneFrame(g: Grid, fs: seq<Frame>, epoch: nat, period: nat)
    requires g.epoch != epoch && |fs| == 1 && Steady(fs, epoch, period) && AllValid(fs)
    ensures FirstPoints(RunLog(g, fs), GridAfterAll(g, fs), epoch, period, Highest(fs))
  {
    var f, s := fs[0], Grid(epoch, 0, period);
    assert fs[..0] == [] && SteadyFrame(f, epoch, period) && Paced(fs, 0, period);
    FirstFrame(g, f);
    FrameGrows([], s, f, 0);
    assert RunLog(g, fs) == [] + FrameLog(s, f);
  }

  lemma MoreFrames(g: Grid, fs: seq<Frame>, epoch: nat, period: nat)
    requires g.epoch != epoch && |fs| > 1 && Steady(fs, epoch, period) && AllValid(fs)
    requires var init := fs[..|fs| - 1];
      AllValid(init) && FirstPoints(RunLog(g, init), GridAfterAll(g, init), epoch, period, Highest(init))
    ensures FirstPoints(RunLog(g, fs), GridAfterAll(g, fs), epoch, period, Highest(fs))
  {
    var n := |fs| - 1;
    var init := fs[..n];
    SteadyFront(fs, epoch, period);
    SteadyIsEpoch(init, epoch, period);
    EventsSoundOnce(g, init, epoch);
    var u := GridAfterAll(g, init);
    LastIsOnward(u, fs, epoch, period);
    assert SteadyFrame(fs[n], epoch, period);
    FrameGrows(RunLog(g, init), u, fs[n], Highest(init));
  }

  // ---- the triggers ---------------------------------------------------------------------------

  /** A 32-bit counter that has counted n. */
  predicate Counted(was: nat, now: nat, n: nat) {
    now == W32(was + n)
  }

  lemma FrameTriggers(v: Voice, f: Frame)
    requires f.p.Valid() && |v.table.values| == SLOTS && v.triggers < TWO_32
    ensures Counted(v.triggers, AfterFrame(v, f).triggers, Sounded(FrameLog(v.grid, f), Period(f.p), f.p))
  {
    ScheduledTriggers(Prepared(v, f), v.grid, f);
  }

  lemma EventsCounted(v: Voice, p: Params, ahead: nat -> int, budget: nat)
    requires v.grid.period > 0 && |v.table.values| == SLOTS && v.triggers < TWO_32
    ensures var log := Log(v.grid.next, v.grid.period, ahead, budget);
      Counted(v.triggers, Events(v, p, ahead, budget).triggers, Sounded(log, v.grid.period, p))
  {
    TriggersCount(v, p, ahead, budget);
    assert Counts(v, p, ahead, budget);
  }

  lemma ScheduledTriggers(w: Voice, g: Grid, f: Frame)
    requires f.p.Valid() && |w.table.values| == SLOTS && w.triggers < TWO_32 && w.grid == Regridded(g, f)
    ensures Counted(w.triggers, Scheduled(w, f).triggers, Sounded(FrameLog(g, f), Period(f.p), f.p))
  {
    if f.running {
      var s, ahead := w.(grid := CaughtUp(w.grid, f.clock.quantum)), Ahead(f.clock, f.p);
      EventsCounted(s, f.p, ahead, 3);
      assert FrameLog(g, f) == Log(s.grid.next, s.grid.period, ahead, 3);
      assert Scheduled(w, f) == Events(s, f.p, ahead, 3) && s.grid.period == Period(f.p) && s.triggers == w.triggers;
    }
  }

  /** The same rhythm: steps, pulses and where it starts. */
  predicate SameRhythm(p: Params, q: Params) {
    Steps(p) == Steps(q) && Count(p) == Count(q) && p.rotate % Steps(p) == q.rotate % Steps(q)
  }

  lemma {:induction false} SoundedSame(log: seq<nat>, period: nat, p: Params, q: Params)
    requires period > 0 && SameRhythm(p, q)
    ensures Sounded(log, period, p) == Sounded(log, period, q)
  {
    if log != [] { SoundedSame(log[1..], period, p, q); }
  }

  lemma {:induction false} SoundedJoin(a: seq<nat>, b: seq<nat>, period: nat, p: Params)
    requires period > 0
    ensures Sounded(a + b, period, p) == Sounded(a, period, p) + Sounded(b, period, p)
  {
    if a == [] {
      assert a + b == b;
    } else {
      SoundedJoin(a[1..], b, period, p);
      assert (a + b)[1..] == a[1..] + b;
    }
  }

  /** Over a run at one period and one rhythm the counter counts the pulses among the
      events taken. */
  lemma {:induction false} RunCounts(v: Voice, fs: seq<Frame>, period: nat, p: Params)
    requires AllValid(fs) && Sound(v) && period > 0
    requires forall i | 0 <= i < |fs| :: Period(fs[i].p) == period && SameRhythm(fs[i].p, p)
    ensures Counted(v.triggers, AfterFrames(v, fs).triggers, Sounded(RunLog(v.grid, fs), period, p))
    decreases |fs|
  {
    if fs != [] {
      var n := |fs| - 1;
      var init, f := fs[..n], fs[n];
      RunCounts(v, init, period, p);
      RunKeepsSound(v, init);
      var u, log := AfterFrames(v, init), FrameLog(GridAfterAll(v.grid, init), f);
      FrameTriggers(u, f);
      CountsJoin(v.triggers, u.triggers, AfterFrame(u, f).triggers, RunLog(v.grid, init), log, period, f.p, p);
    }
  }

  lemma CountsJoin(was: nat, mid: nat, now: nat, log: seq<nat>, more: seq<nat>, period: nat, q: Params, p: Params)
    requires period > 0 && SameRhythm(q, p)
    requires Counted(was, mid, Sounded(log, period, p)) && Counted(mid, now, Sounded(more, period, q))
    ensures Counted(was, now, Sounded(log + more, period, p))
  {
    SoundedSame(more, period, q, p);
    SoundedJoin(log, more, period, p);
    WrapSum(was + Sounded(log, period, p), Sounded(more, period, p));
  }

  function Times(c: nat, k: nat): nat {
    c * k
  }

  lemma {:induction false} CyclesPulse(a: nat, n: nat, k: nat, c: nat)
    requires n > 0 && k <= n
    ensures Pulses(a, a + Times(c, n), n, k) == Times(c, k)
    decreases c
  {
    if c > 0 {
      var b := a + Times(c - 1, n);
      OneMore(c, n);
      OneMore(c, k);
      CyclesPulse(a, n, k, c - 1);
      FullCycle(b, n, k);
      WindowCount(a, b, n, k);
      WindowCount(b, b + n, n, k);
      WindowCount(a, b + n, n, k);
    }
  }

  lemma OneMore(c: nat, k: nat)
    requires c > 0
    ensures Times(c, k) == Times(c - 1, k) + k
  {
  }

  /** The pulses of the first n steps from the rotated start. */
  function FirstPulses(n: nat, p: Params): nat {
    var a := Steps(p) - p.rotate % Steps(p);
    Pulses(a, a + n, Steps(p), Count(p))
  }

  lemma FromStart(was: nat, now: nat, log: seq<nat>, period: nat, p: Params)
    requires period > 0 && log == Points(0, period, |log|) && Counted(was, now, Sounded(log, period, p))
    ensures Counted(was, now, FirstPulses(|log|, p))
  {
    SoundedIsPulses(0, |log|, period, p);
    assert 0 * period == 0;
  }

  lemma WholeCycles(was: nat, now: nat, n: nat, c: nat, p: Params)
    requires Counted(was, now, FirstPulses(n, p)) && n == Times(c, Steps(p))
    ensures Counted(was, now, Times(c, Count(p)))
  {
    CyclesPulse(Steps(p) - p.rotate % Steps(p), Steps(p), Count(p), c);
  }

  /** In a steady epoch at one rhythm the triggers are the pulses of as many steps as
      there were events, from the rotated start. */
  lemma TriggersArePulses(v: Voice, fs: seq<Frame>, epoch: nat, period: nat, p: Params)
    requires v.grid.epoch != epoch && fs != [] && Steady(fs, epoch, period) && AllValid(fs)
    requires Sound(v) && forall i | 0 <= i < |fs| :: SameRhythm(fs[i].p, p)
    ensures Counted(v.triggers, AfterFrames(v, fs).triggers, FirstPulses(|RunLog(v.grid, fs)|, p))
  {
    assert SteadyFrame(fs[0], epoch, period);
    NoneSkipped(v.grid, fs, epoch, period);
    assert forall i | 0 <= i < |fs| :: SteadyFrame(fs[i], epoch, period);
    RunCounts(v, fs, period, p);
    FromStart(v.triggers, AfterFrames(v, fs).triggers, RunLog(v.grid, fs), period, p);
  }

  /** And over c whole cycles c times the pulses set. */
  lemma CyclesTrigger(v: Voice, fs: seq<Frame>, epoch: nat, period: nat, p: Params, c: nat)
    requires v.grid.epoch != epoch && fs != [] && Steady(fs, epoch, period) && AllValid(fs)
    requires Sound(v) && forall i | 0 <= i < |fs| :: SameRhythm(fs[i].p, p)
    requires |RunLog(v.grid, fs)| == Times(c, Steps(p))
    ensures Counted(v.triggers, AfterFrames(v, fs).triggers, Times(c, Count(p)))
  {
    TriggersArePulses(v, fs, epoch, period, p);
    WholeCycles(v.triggers, AfterFrames(v, fs).triggers, |RunLog(v.grid, fs)|, c, p);
  }
}
