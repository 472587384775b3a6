/** EUCLID's grid (control.c, `eu_process`): where each slot's schedule stands,
    through epochs, edits of the rate and catching up. */
module EuclidGrid {
  import opened Words
  import opened EuclidClock
  import opened EuclidSwing
  import opened EuclidSchedule

  const SHIFTS: seq<nat> := [1, 2, 4, 8, 16]
  /** How far the clock may step back within an epoch, in quanta. */
  const BACK := 768

  /** What one frame brings: the clock, the settings, the clock units gone by. */
  datatype Frame = Frame(clock: Position, epoch: nat, p: Params, elapsed: nat, running: bool) {
    predicate Valid() {
      p.Valid() && clock.remainder < QUANTUM && clock.quantum + 768 < TWO_31 && epoch < TWO_32 && elapsed < TWO_32
    }
  }

  /** The epoch a schedule belongs to, its next grid point and its period. */
  datatype Grid = Grid(epoch: nat, next: nat, period: nat)

  /** The grid points from one event to the next. */
  function Period(p: Params): (period: nat)
    requires p.Valid()
    ensures 1 <= period <= 768
  {
    var period := p.scale * SHIFTS[Min(p.rate, 4)];
    if period == 0 then 6 else period
  }

  /** The first grid point of `period` after the clock's. */
  function NextPoint(quantum: nat, period: nat): nat
    requires period > 0
  {
    (quantum / period + 1) * period
  }

  /** A new epoch starts over; a new period takes up at its next grid point. */
  function Regridded(g: Grid, f: Frame): (h: Grid)
    requires f.p.Valid()
    ensures h.epoch == f.epoch && h.period == Period(f.p)
  {
    var period := Period(f.p);
    if g.epoch != f.epoch then Grid(f.epoch, 0, period)
    else if g.period != period then Grid(f.epoch, W32(NextPoint(f.clock.quantum, period)), period)
    else g
  }

  /** More than two periods behind: the backlog is dropped. */
  function CaughtUp(g: Grid, quantum: nat): Grid
    requires g.period > 0
  {
    if S32(quantum - g.next) > 2 * g.period then g.(next := W32(NextPoint(quantum, g.period))) else g
  }

  /** The grid points a frame takes. */
  function FrameLog(g: Grid, f: Frame): seq<nat>
    requires f.p.Valid()
  {
    var start := CaughtUp(Regridded(g, f), f.clock.quantum);
    if f.running then Log(start.next, start.period, Ahead(f.clock, f.p), 3) else []
  }

  function GridAfter(g: Grid, f: Frame): (h: Grid)
    requires f.p.Valid()
    ensures h.epoch == f.epoch && h.period == Period(f.p)
  {
    var h := Regridded(g, f);
    if f.running then var s := CaughtUp(h, f.clock.quantum); s.(next := Beyond(s.next, FrameLog(g, f), s.period)) else h
  }

  lemma MultipleAfter(quantum: nat, period: nat)
    requires period > 0
    ensures NextPoint(quantum, period) % period == 0 && quantum < NextPoint(quantum, period) <= quantum + period
  {
    var k := quantum / period;
    DivBounds(quantum, period, k);
    assert (k + 1) * period == k * period + period;
    DivUnique((k + 1) * period, period, k + 1);
  }

  // ---- one frame ---------------------------------------------------------------------

  /** The clock so far: the greatest quantum of the grid's epoch is `high`, and
      this frame's is at most BACK behind it, and not behind at all at a change of
      period. */
  predicate Onward(g: Grid, f: Frame, high: nat)
    requires f.p.Valid()
  {
    g.epoch == f.epoch ==>
      && high < TWO_31 && high <= f.clock.quantum + BACK
      && (g.period != Period(f.p) ==> high <= f.clock.quantum)
  }

  /** Where the next event may be. */
  predicate Placed(g: Grid, high: nat) {
    1 <= g.period <= 768 && OnGrid(g.next, g.period) && g.next <= high + g.period
  }

  function High(g: Grid, f: Frame, high: nat): nat {
    if g.epoch == f.epoch && f.clock.quantum < high then high else f.clock.quantum
  }

  lemma RegriddedPlace(g: Grid, f: Frame, high: nat)
    requires f.Valid() && Onward(g, f, high) && (g.epoch == f.epoch ==> Placed(g, high))
    ensures Placed(Regridded(g, f), High(g, f, high))
    ensures g.epoch == f.epoch ==> Regridded(g, f).next >= g.next || Regridded(g, f).next > high
  {
    MultipleAfter(f.clock.quantum, Period(f.p));
  }

  lemma CaughtUpPlace(g: Grid, quantum: nat, high: nat)
    requires Placed(g, high) && quantum <= high <= quantum + BACK && quantum + 768 < TWO_31
    ensures var h := CaughtUp(g, quantum);
      Placed(h, high) && h.period == g.period && h.next >= g.next && -1536 <= h.next - quantum <= 1536
  {
    MultipleAfter(quantum, g.period);
  }

  /** What a frame takes, no earlier than `from`, leaving `next`: events in order
      on its grid, all due, and fewer than three only if no later one is. */
  ghost predicate LogOfFrame(log: seq<nat>, from: nat, next: nat, f: Frame)
    requires f.p.Valid()
  {
    && |log| <= 3 && Ascending(log) && Spaced(log, Period(f.p)) && AllDue(log, Period(f.p), f.clock, f.p)
    && AllBefore(log, next, f.clock.quantum) && (log != [] ==> from <= log[0])
    && (f.running && |log| < 3 ==> forall q | q >= next :: !Due(f.p, f.clock, q))
  }

  /** A frame keeps the schedule's place. It takes only events that are due, later
      than any point the epoch took before, and leaves none due that it could take. */
  lemma FrameTakesDue(g: Grid, f: Frame, high: nat)
    requires f.Valid() && Onward(g, f, high) && (g.epoch == f.epoch ==> Placed(g, high))
    ensures var from, h := Regridded(g, f).next, GridAfter(g, f);
      && Placed(h, High(g, f, high)) && from <= h.next && LogOfFrame(FrameLog(g, f), from, h.next, f)
      && (g.epoch == f.epoch ==> from >= g.next || from > high)
  {
    var r := Regridded(g, f);
    RegriddedPlace(g, f, high);
    if f.running {
      var s := CaughtUp(r, f.clock.quantum);
      CaughtUpPlace(r, f.clock.quantum, High(g, f, high));
      ScheduleTakesDue(s.next, s.period, f.clock, f.p, 3);
    }
  }

  // ---- a whole epoch -----------------------------------------------------------------

  /** Frames of one epoch under a clock that steps back at most BACK quanta, and
      not at a change of period. */
  ghost predicate Epoch(fs: seq<Frame>, epoch: nat) {
    && (forall i | 0 <= i < |fs| :: fs[i].Valid() && fs[i].epoch == epoch)
    && (forall i, j | 0 <= i < j < |fs| :: fs[i].clock.quantum <= fs[j].clock.quantum + BACK)
    && (forall i, j, k | 0 <= i <= j && k == j + 1 < |fs| && Period(fs[j].p) != Period(fs[k].p) ::
          fs[i].clock.quantum <= fs[k].clock.quantum)
  }

  ghost predicate AllValid(fs: seq<Frame>) {
    forall i | 0 <= i < |fs| :: fs[i].Valid()
  }

  function GridAfterAll(g: Grid, fs: seq<Frame>): Grid
    requires AllValid(fs)
    decreases |fs|
  {
    if fs == [] then g else GridAfter(GridAfterAll(g, fs[..|fs| - 1]), fs[|fs| - 1])
  }

  /** Every grid point taken in a run of frames. */
  function RunLog(g: Grid, fs: seq<Frame>): seq<nat>
    requires AllValid(fs)
    decreases |fs|
  {
    if fs == [] then []
    else RunLog(g, fs[..|fs| - 1]) + FrameLog(GridAfterAll(g, fs[..|fs| - 1]), fs[|fs| - 1])
  }

  function Highest(fs: seq<Frame>): (h: nat)
    ensures forall i | 0 <= i < |fs| :: fs[i].clock.quantum <= h
    ensures fs != [] ==> exists i | 0 <= i < |fs| :: fs[i].clock.quantum == h
    decreases |fs|
  {
    if fs == [] then 0
    else
      var h, q := Highest(fs[..|fs| - 1]), fs[|fs| - 1].clock.quantum;
      if |fs| > 1 && h > q then h else q
  }

  /** In one epoch no event sounds twice and none out of order, across edits of
      the rate, catching up, stops, restarts and a clock that steps back. */
  lemma {:induction false} EventsSoundOnce(g: Grid, fs: seq<Frame>, epoch: nat)
    requires g.epoch != epoch && AllValid(fs) && Epoch(fs, epoch)
    ensures var h := GridAfterAll(g, fs);
      && Ascending(RunLog(g, fs)) && AllBefore(RunLog(g, fs), h.next, Highest(fs))
      && (fs != [] ==> Placed(h, Highest(fs)) && h.period == Period(fs[|fs| - 1].p) && h.epoch == epoch)
    decreases |fs|
  {
    if fs != [] {
      var n := |fs| - 1;
      var init, f := fs[..n], fs[n];
      EventsSoundOnce(g, init, epoch);
      var u := GridAfterAll(g, init);
      FrameTakesDue(u, f, Highest(init));
      Join(RunLog(g, init), FrameLog(u, f), u.next, Highest(init), Regridded(u, f).next, GridAfter(u, f).next,
           Highest(fs));
    }
  }

  lemma Join(a: seq<nat>, b: seq<nat>, aNext: nat, aHigh: nat, from: nat, next: nat, high: nat)
    requires Ascending(a) && Ascending(b) && AllBefore(a, aNext, aHigh) && AllBefore(b, next, high) && aHigh <= high
    requires from >= aNext || from > aHigh || a == []
    requires b != [] ==> from <= b[0]
    requires from <= next
    ensures Ascending(a + b) && AllBefore(a + b, next, high)
  {
  }
}
