/** EUCLID's voice (control.c, `eu_process`): one effect slot's schedule, random
    table and envelope, frame by frame. The functions say what a frame does to a
    voice; class EuState does it in place. */
module EuclidVoice {
  import opened Words
  import opened EuclidClock
  import opened EuclidSwing
  import opened EuclidSchedule
  import opened EuclidGrid
  import opened EuclidRhythm
  import opened EuclidEnvelope

  const SLOTS := 64

  datatype Envelope = Envelope(age: nat, level: nat, origin: nat, target: nat, active: bool)

  datatype Table = Table(rng: bv32, values: seq<nat>)

  datatype Voice = Voice(grid: Grid, mode: nat, triggers: nat, table: Table, env: Envelope)

  // ---- what a frame does to a voice ---------------------------------------------

  function Xorshift(x: bv32): bv32 {
    var a := x ^ (x << 13);
    var b := a ^ (a >> 17);
    b ^ (b << 5)
  }

  /** The number drawn in a generator state: its upper fifteen bits. */
  function Drawn(x: bv32): (n: nat)
    ensures n <= PEAK
  {
    ((x >> 17) as bv15) as nat
  }

  /** A new number in entry i. */
  function Redrawn(t: Table, i: nat): (u: Table)
    requires i < |t.values|
    ensures |u.values| == |t.values|
  {
    Table(Xorshift(t.rng), t.values[i := Drawn(Xorshift(t.rng))])
  }

  function Steps(p: Params): (n: nat)
    ensures 1 <= n <= SLOTS
  {
    if p.steps == 0 then 1 else Min(p.steps, 64)
  }

  function Count(p: Params): (k: nat)
    ensures k <= Steps(p)
  {
    Min(p.pulses, Steps(p))
  }

  /** A new epoch is silent; a new mode holds the level. */
  function Remoded(v: Voice, f: Frame): Voice {
    if v.grid.epoch != f.epoch then v.(mode := Mode(f.p), env := Envelope(TWO_32 - 1, 0, 0, 0, false))
    else if v.mode == Mode(f.p) then v
    else v.(mode := Mode(f.p), env := Envelope(0, v.env.level, v.env.level, v.env.level, Mode(f.p) >= 2))
  }

  /** The age, in quarter clock units, sticks at its greatest. */
  function Aged(e: Envelope, elapsed: nat): Envelope {
    e.(age := if elapsed / 4 > TWO_32 - 1 - e.age then TWO_32 - 1 else e.age + elapsed / 4)
  }

  /** Before the schedule is looked at. */
  function Prepared(v: Voice, f: Frame): (w: Voice)
    requires f.p.Valid()
    ensures w.grid == Regridded(v.grid, f) && w.table == v.table && w.mode == Mode(f.p) && w.triggers == v.triggers
  {
    var w := Remoded(v, f);
    w.(grid := Regridded(v.grid, f), env := Aged(w.env, f.elapsed))
  }

  /** The rotated step of the cycle at grid point `next`. */
  function Index(next: nat, period: nat, p: Params): (i: nat)
    requires period > 0
    ensures i < Steps(p)
  {
    var n := Steps(p);
    (next / period % n + n - p.rotate % n) % n
  }

  /** The step at grid point `next` is a pulse. */
  predicate Sounds(next: nat, period: nat, p: Params)
    requires period > 0
  {
    Pulse(Index(next, period, p), Steps(p), Count(p))
  }

  /** The pulse at step `i`, sounding `late` clock units ago. */
  function Struck(v: Voice, i: nat, late: int): (w: Voice)
    requires i < |v.table.values|
    ensures w.grid == v.grid && w.mode == v.mode && |w.table.values| == |v.table.values|
      && w.triggers == W32(v.triggers + 1)
  {
    var table := if v.mode == 2 then Redrawn(v.table, i) else v.table;
    var target := if v.mode >= 2 then table.values[i] else v.env.target;
    Voice(v.grid, v.mode, W32(v.triggers + 1), table, Envelope(W32(late) / 4, v.env.level, v.env.level, target, true))
  }

  /** The next event, `late` clock units late, is taken. */
  function Taken(v: Voice, p: Params, late: int): (w: Voice)
    requires v.grid.period > 0 && |v.table.values| == SLOTS
    ensures w.grid == v.grid.(next := W32(v.grid.next + v.grid.period)) && w.mode == v.mode && |w.table.values| == SLOTS
  {
    var w := if Sounds(v.grid.next, v.grid.period, p) then Struck(v, Index(v.grid.next, v.grid.period, p), late) else v;
    w.(grid := v.grid.(next := W32(v.grid.next + v.grid.period)))
  }

  /** Up to `budget` events are taken, until one still lies ahead. */
  function Events(v: Voice, p: Params, ahead: nat -> int, budget: nat): (w: Voice)
    requires v.grid.period > 0 && |v.table.values| == SLOTS
    ensures w.mode == v.mode && |w.table.values| == SLOTS
    decreases budget
  {
    if budget == 0 || ahead(v.grid.next) > 0 then v else Events(Taken(v, p, -ahead(v.grid.next)), p, ahead, budget - 1)
  }

  function Scheduled(v: Voice, f: Frame): (w: Voice)
    requires f.p.Valid() && v.grid.period > 0 && |v.table.values| == SLOTS
    ensures w.mode == v.mode && |w.table.values| == SLOTS
  {
    if f.running then Events(v.(grid := CaughtUp(v.grid, f.clock.quantum)), f.p, Ahead(f.clock, f.p), 3) else v
  }

  /** Stopped, or with no pulses, the voice is silent; else the level follows the
      envelope while that is active. */
  function Shaped(e: Envelope, mode: nat, period: nat, f: Frame): Envelope {
    if !f.running || Count(f.p) == 0 then e.(active := false, level := 0)
    else if e.active then e.(level := Level(mode, period, f.p.attack, f.p.decay, e.age / 16384, e.origin, e.target))
    else e
  }

  function AfterFrame(v: Voice, f: Frame): (w: Voice)
    requires f.p.Valid() && |v.table.values| == SLOTS
    ensures w.mode == Mode(f.p) && |w.table.values| == SLOTS
  {
    var w := Scheduled(Prepared(v, f), f);
    w.(env := Shaped(w.env, w.mode, w.grid.period, f))
  }

  /** An unused slot coming to life: a seeded table, and an epoch not the clock's. */
  function Begun(v: Voice, identity: bv32, epoch: nat): Voice {
    var t := Filled(0x6d2b79f5 ^ (0x9e3779b9 * (identity + 1)), SLOTS);
    Voice(v.grid.(epoch := W32(epoch - 1)), v.mode, v.triggers, t, v.env.(level := 0, origin := 0, target := 0))
  }

  /** n numbers drawn one after the other. */
  function Filled(seed: bv32, n: nat): (t: Table)
    ensures |t.values| == n
  {
    if n == 0 then Table(seed, [])
    else
      var t := Filled(seed, n - 1);
      Table(Xorshift(t.rng), t.values + [Drawn(Xorshift(t.rng))])
  }

  // ---- the schedule follows the grid -----------------------------------------------

  /** The events taken are the grid's. */
  lemma {:induction false} EventsFollowLog(v: Voice, p: Params, ahead: nat -> int, budget: nat)
    requires v.grid.period > 0 && |v.table.values| == SLOTS
    ensures var log := Log(v.grid.next, v.grid.period, ahead, budget);
      Events(v, p, ahead, budget).grid == v.grid.(next := Beyond(v.grid.next, log, v.grid.period))
    decreases budget
  {
    if budget > 0 && ahead(v.grid.next) <= 0 {
      EventsFollowLog(Taken(v, p, -ahead(v.grid.next)), p, ahead, budget - 1);
    }
  }

  lemma FrameFollowsGrid(v: Voice, f: Frame)
    requires f.p.Valid() && |v.table.values| == SLOTS
    ensures AfterFrame(v, f).grid == GridAfter(v.grid, f)
  {
    var w := Prepared(v, f);
    if f.running {
      EventsFollowLog(w.(grid := CaughtUp(w.grid, f.clock.quantum)), f.p, Ahead(f.clock, f.p), 3);
    }
  }

  // ---- what every frame keeps --------------------------------------------------------

  ghost predicate Numbers(values: seq<nat>) {
    |values| == SLOTS && forall i | 0 <= i < SLOTS :: values[i] <= PEAK
  }

  predicate Sounding(e: Envelope) {
    e.age < TWO_32 && e.level <= PEAK && e.origin <= PEAK && e.target <= PEAK
  }

  ghost predicate Sound(v: Voice) {
    Numbers(v.table.values) && Sounding(v.env) && v.triggers < TWO_32 && v.mode <= 3
  }

  lemma {:induction false} EventsKeepSound(v: Voice, p: Params, ahead: nat -> int, budget: nat)
    requires Sound(v) && v.grid.period > 0
    ensures Sound(Events(v, p, ahead, budget))
    decreases budget
  {
    if budget > 0 && ahead(v.grid.next) <= 0 {
      EventsKeepSound(Taken(v, p, -ahead(v.grid.next)), p, ahead, budget - 1);
    }
  }

  lemma ShapedSounds(e: Envelope, mode: nat, period: nat, f: Frame)
    requires Sounding(e) && period <= 768 && f.p.Valid()
    ensures Sounding(Shaped(e, mode, period, f))
  {
    LevelBounded(mode, period, f.p.attack, f.p.decay, e.age / 16384, e.origin, e.target);
  }

  lemma PreparedSounds(v: Voice, f: Frame)
    requires Sound(v) && f.p.Valid()
    ensures Sound(Prepared(v, f))
  {
  }

  /** Whatever the clock does, every level, number and age stays in its word, and
      the cutoff is at most 32512. */
  lemma FrameKeepsSound(v: Voice, f: Frame)
    requires Sound(v) && f.p.Valid()
    ensures Sound(AfterFrame(v, f)) && Cutoff(f.p.freq, f.p.depth, AfterFrame(v, f).env.level) <= 32512
  {
    PreparedSounds(v, f);
    var w := Prepared(v, f);
    if f.running {
      EventsKeepSound(w.(grid := CaughtUp(w.grid, f.clock.quantum)), f.p, Ahead(f.clock, f.p), 3);
    }
    var u := Scheduled(w, f);
    FrameFollowsGrid(v, f);
    ShapedSounds(u.env, u.mode, u.grid.period, f);
    CutoffBounded(f.p.freq, f.p.depth, AfterFrame(v, f).env.level);
  }

  function AfterFrames(v: Voice, fs: seq<Frame>): (w: Voice)
    requires AllValid(fs) && |v.table.values| == SLOTS
    ensures |w.table.values| == SLOTS
    decreases |fs|
  {
    if fs == [] then v else AfterFrame(AfterFrames(v, fs[..|fs| - 1]), fs[|fs| - 1])
  }

  /** Over any run a voice stays sound, and its schedule is the grid's. */
  lemma {:induction false} RunKeepsSound(v: Voice, fs: seq<Frame>)
    requires AllValid(fs) && Sound(v)
    ensures Sound(AfterFrames(v, fs)) && AfterFrames(v, fs).grid == GridAfterAll(v.grid, fs)
    decreases |fs|
  {
    if fs != [] {
      var u := AfterFrames(v, fs[..|fs| - 1]);
      RunKeepsSound(v, fs[..|fs| - 1]);
      FrameKeepsSound(u, fs[|fs| - 1]);
      FrameFollowsGrid(u, fs[|fs| - 1]);
    }
  }

  // ---- LOOP repeats -------------------------------------------------------------------

  lemma {:induction false} EventsKeepTable(v: Voice, p: Params, ahead: nat -> int, budget: nat)
    requires v.grid.period > 0 && |v.table.values| == SLOTS && v.mode != 2
    ensures Events(v, p, ahead, budget).table == v.table
    decreases budget
  {
    if budget > 0 && ahead(v.grid.next) <= 0 {
      EventsKeepTable(Taken(v, p, -ahead(v.grid.next)), p, ahead, budget - 1);
    }
  }

  /** Outside RAND the random table survives everything: stops, restarts, edits. */
  lemma {:induction false} LoopRepeats(v: Voice, fs: seq<Frame>)
    requires AllValid(fs) && |v.table.values| == SLOTS && forall i | 0 <= i < |fs| :: Mode(fs[i].p) != 2
    ensures AfterFrames(v, fs).table == v.table
    decreases |fs|
  {
    if fs != [] {
      LoopRepeats(v, fs[..|fs| - 1]);
      var u, f := AfterFrames(v, fs[..|fs| - 1]), fs[|fs| - 1];
      if f.running {
        var w := Prepared(u, f);
        EventsKeepTable(w.(grid := CaughtUp(w.grid, f.clock.quantum)), f.p, Ahead(f.clock, f.p), 3);
      }
    }
  }

  /** The generator never sticks at zero. */
  lemma XorshiftAlive(x: bv32)
    ensures Xorshift(x) == 0 <==> x == 0
  {
  }

  // ---- the pulses a voice sounds --------------------------------------------------------

  /** How many of the grid points of a log sound. */
  function Sounded(log: seq<nat>, period: nat, p: Params): nat
    requires period > 0
  {
    if log == [] then 0 else (if Sounds(log[0], period, p) then 1 else 0) + Sounded(log[1..], period, p)
  }

  lemma SoundedLonger(first: nat, rest: seq<nat>, period: nat, p: Params)
    requires period > 0
    ensures Sounded([first] + rest, period, p) == (if Sounds(first, period, p) then 1 else 0) + Sounded(rest, period, p)
  {
    assert ([first] + rest)[1..] == rest;
  }

  lemma TakenCounts(v: Voice, p: Params, late: int)
    requires v.grid.period > 0 && |v.table.values| == SLOTS && v.triggers < TWO_32
    ensures Taken(v, p, late).triggers == W32(v.triggers + if Sounds(v.grid.next, v.grid.period, p) then 1 else 0)
  {
  }

  ghost predicate Counts(v: Voice, p: Params, ahead: nat -> int, budget: nat)
    requires v.grid.period > 0 && |v.table.values| == SLOTS
  {
    var log := Log(v.grid.next, v.grid.period, ahead, budget);
    Events(v, p, ahead, budget).triggers == W32(v.triggers + Sounded(log, v.grid.period, p))
  }

  /** The trigger counter counts the pulses among the events taken. */
  lemma {:induction false} TriggersCount(v: Voice, p: Params, ahead: nat -> int, budget: nat)
    requires v.grid.period > 0 && |v.table.values| == SLOTS && v.triggers < TWO_32
    ensures Counts(v, p, ahead, budget)
    decreases budget
  {
    if budget > 0 && ahead(v.grid.next) <= 0 {
      TriggersCount(Taken(v, p, -ahead(v.grid.next)), p, ahead, budget - 1);
      CountsMore(v, p, ahead, budget);
    }
  }

  lemma CountsMore(v: Voice, p: Params, ahead: nat -> int, budget: nat)
    requires v.grid.period > 0 && |v.table.values| == SLOTS && v.triggers < TWO_32 && budget > 0
      && ahead(v.grid.next) <= 0
    requires Counts(Taken(v, p, -ahead(v.grid.next)), p, ahead, budget - 1)
    ensures Counts(v, p, ahead, budget)
  {
    TakenCounts(v, p, -ahead(v.grid.next));
    CountsLonger(v.triggers, v.grid.next, Log(W32(v.grid.next + v.grid.period), v.grid.period, ahead, budget - 1),
                 v.grid.period, p);
  }

  lemma CountsLonger(triggers: nat, first: nat, rest: seq<nat>, period: nat, p: Params)
    requires period > 0
    ensures W32(W32(triggers + if Sounds(first, period, p) then 1 else 0) + Sounded(rest, period, p))
         == W32(triggers + Sounded([first] + rest, period, p))
  {
    SoundedLonger(first, rest, period, p);
    WrapSum(triggers + (if Sounds(first, period, p) then 1 else 0), Sounded(rest, period, p));
  }

  /** The events at the grid points first, first + period, ... */
  function Points(first: nat, period: nat, n: nat): seq<nat>
    decreases n
  {
    if n == 0 then [] else [first] + Points(first + period, period, n - 1)
  }

  /** The rotation only shifts the cycle: point i period lies at step i - rotate. */
  lemma SoundsRotated(i: nat, period: nat, p: Params)
    requires period > 0
    ensures Sounds(i * period, period, p) <==> Pulse(i + Steps(p) - p.rotate % Steps(p), Steps(p), Count(p))
  {
    var n, k := Steps(p), Count(p);
    DivUnique(i * period, period, i);
    var shift := n - p.rotate % n;
    SameStep(i, shift, n);
    PulseOfRemainder(i + shift, n, k);
  }

  lemma SameStep(i: nat, shift: nat, n: nat)
    requires n > 0
    ensures (i % n + shift) % n == (i + shift) % n
  {
    DivBounds(i, n, i / n);
    var x := i % n + shift;
    DivBounds(x, n, x / n);
    assert (x / n + i / n) * n == (x / n) * n + (i / n) * n;
    DivUnique(i + shift, n, x / n + i / n);
  }

  lemma {:induction false} PulseOfRemainder(i: nat, n: nat, k: nat)
    requires n > 0
    ensures Pulse(i % n, n, k) <==> Pulse(i, n, k)
    decreases i
  {
    if i >= n {
      PulseOfRemainder(i - n, n, k);
      PulseRepeats(i - n, n, k);
      DivBounds(i, n, i / n);
      assert (i / n - 1) * n == (i / n) * n - n;
      DivUnique(i - n, n, i / n - 1);
    } else {
      DivUnique(i, n, 0);
    }
  }

  /** From any grid point, wherever rotated, a window of n events sounds as many
      pulses as that window of the cycle, and a whole cycle exactly the pulses set. */
  lemma {:induction false} SoundedIsPulses(i: nat, n: nat, period: nat, p: Params)
    requires period > 0
    ensures var a := i + Steps(p) - p.rotate % Steps(p);
      Sounded(Points(i * period, period, n), period, p) == Pulses(a, a + n, Steps(p), Count(p))
    decreases n
  {
    if n > 0 {
      var a := i + Steps(p) - p.rotate % Steps(p);
      assert (i + 1) * period == i * period + period;
      SoundsRotated(i, period, p);
      SoundedIsPulses(i + 1, n - 1, period, p);
      SoundedLonger(i * period, Points((i + 1) * period, period, n - 1), period, p);
      PulsesFront(a, a + n, Steps(p), Count(p));
    }
  }

  lemma {:induction false} PulsesFront(a: nat, b: nat, n: nat, k: nat)
    requires n > 0 && a < b
    ensures Pulses(a, b, n, k) == (if Pulse(a, n, k) then 1 else 0) + Pulses(a + 1, b, n, k)
    decreases b - a
  {
    if a + 1 < b { PulsesFront(a, b - 1, n, k); }
  }

  /** A whole cycle of events triggers exactly the pulses set, however rotated. */
  lemma CycleSounds(i: nat, period: nat, p: Params)
    requires period > 0
    ensures Sounded(Points(i * period, period, Steps(p)), period, p) == Count(p)
  {
    SoundedIsPulses(i, Steps(p), period, p);
    FullCycle(i + Steps(p) - p.rotate % Steps(p), Steps(p), Count(p));
  }

  /** A pulse takes up its envelope where its event fell, not where the frame
      does: its age is the time since, in quarter clock units. */
  lemma PulseAge(v: Voice, f: Frame)
    requires f.Valid() && v.grid.period > 0 && |v.table.values| == SLOTS && Sounds(v.grid.next, v.grid.period, f.p)
    requires -1536 <= v.grid.next - f.clock.quantum <= 1536 && Due(f.p, f.clock, v.grid.next)
    ensures var now := f.clock.quantum * QUANTUM + f.clock.remainder;
      Taken(v, f.p, -Ahead(f.clock, f.p)(v.grid.next)).env.age == (now - EventTime(f.p, v.grid.next)) / 4
  {
    DistanceExact(v.grid.next, f.clock, f.p);
  }

  /** How taking up to n events goes on: past the next one, or not at all. It is all
      that the loop in `TakeEvents` knows of `events`, which is `Events` where it is
      used. */
  ghost predicate GoesOn(v: Voice, n: nat, p: Params, ahead: nat -> int, events: (Voice, nat) -> Voice)
    requires v.grid.period > 0 && |v.table.values| == SLOTS
  {
    events(v, n) == if n == 0 || ahead(v.grid.next) > 0 then v else events(Taken(v, p, -ahead(v.grid.next)), n - 1)
  }

  // ---- the effect slot, in place -----------------------------------------------------------

  class EuState {
    var epoch: nat
    var next: nat
    var period: nat
    var age: nat
    var rng: bv32
    var triggers: nat
    const values: array<nat>
    var level: nat
    var origin: nat
    var target: nat
    var initialized: bool
    var mode: nat
    var active: bool

    constructor ()
      ensures !initialized && fresh(values) && values.Length == SLOTS
    {
      epoch, next, period, age, rng, triggers := 0, 0, 0, 0, 0, 0;
      level, origin, target, initialized, mode, active := 0, 0, 0, false, 0, false;
      values := new nat[SLOTS];
    }

    ghost function State(): Voice
      reads this, values
    {
      Voice(Grid(epoch, next, period), mode, triggers, Table(rng, values[..]),
            Envelope(age, level, origin, target, active))
    }

    /** The frame's whole effect, in place: the cutoff published. */
    method Process(c: EuClock, p: Params, elapsed: nat, running: bool, identity: bv32) returns (cutoff: nat)
      requires c.Valid() && p.Valid() && values.Length == SLOTS
      modifies this, values
      ensures initialized
      ensures var v := if old(initialized) then old(State()) else Begun(old(State()), identity, c.epoch);
        State() == AfterFrame(v, Frame(c.At(), c.epoch, p, elapsed, running))
      ensures cutoff == Cutoff(p.freq, p.depth, level)
    {
      var f := Frame(Position(c.quantum, c.remainder), c.epoch, p, elapsed, running);
      if !initialized { Begin(identity, c.epoch); }
      Prepare(f);
      if running { Schedule(f); }
      Shape(f);
      return Cutoff(p.freq, p.depth, level);
    }

    method Begin(identity: bv32, clockEpoch: nat)
      requires values.Length == SLOTS
      modifies this, values
      ensures initialized && State() == Begun(old(State()), identity, clockEpoch)
    {
      ghost var seed := 0x6d2b79f5 ^ (0x9e3779b9 * (identity + 1));
      rng := 0x6d2b79f5 ^ (0x9e3779b9 * (identity + 1));
      var i := 0;
      while i < SLOTS
        invariant 0 <= i <= SLOTS && Table(rng, values[..i]) == Filled(seed, i)
        invariant epoch == old(epoch) && next == old(next) && period == old(period) && age == old(age)
        invariant triggers == old(triggers) && mode == old(mode) && active == old(active)
      {
        rng := Xorshift(rng);
        values[i] := Drawn(rng);
        i := i + 1;
      }
      assert values[..] == values[..SLOTS];
      level, origin, target := 0, 0, 0;
      epoch := W32(clockEpoch - 1);
      initialized := true;
    }

    method Prepare(f: Frame)
      requires f.p.Valid()
      modifies this
      ensures State() == Prepared(old(State()), f) && initialized == old(initialized)
    {
      Reschedule(f);
      age := if f.elapsed / 4 > TWO_32 - 1 - age then TWO_32 - 1 else age + f.elapsed / 4;
    }

    /** A new epoch, rate or mode. */
    method Reschedule(f: Frame)
      requires f.p.Valid()
      modifies this
      ensures State() == Remoded(old(State()), f).(grid := Regridded(old(State()).grid, f))
        && initialized == old(initialized)
    {
      var newPeriod := Period(f.p);
      if epoch != f.epoch {
        epoch, next, age := f.epoch, 0, TWO_32 - 1;
        level, origin, target := 0, 0, 0;
        period, mode, active := newPeriod, Mode(f.p), false;
      } else if newPeriod != period {
        next := W32(NextPoint(f.clock.quantum, newPeriod));
        period := newPeriod;
      }
      if Mode(f.p) != mode {
        mode := Mode(f.p);
        origin, target, age, active := level, level, 0, mode >= 2;
      }
    }

    method Schedule(f: Frame)
      requires f.p.Valid() && period > 0 && values.Length == SLOTS && f.running
      modifies this, values
      ensures State() == Scheduled(old(State()), f) && initialized == old(initialized) && period == old(period)
    {
      if S32(f.clock.quantum - next) > 2 * period { next := W32(NextPoint(f.clock.quantum, period)); }
      ghost var events := (v: Voice, n: nat) =>
        if v.grid.period > 0 && |v.table.values| == SLOTS then Events(v, f.p, Ahead(f.clock, f.p), n) else v;
      TakeEvents(f.p, Ahead(f.clock, f.p), events);
    }

    /** The events that do not lie ahead, three at most; `events` is what taking up to
        n of them does. */
    method TakeEvents(p: Params, ahead: nat -> int, ghost events: (Voice, nat) -> Voice)
      requires period > 0 && values.Length == SLOTS
      requires forall v: Voice, n: nat | v.grid.period > 0 && |v.table.values| == SLOTS ::
        GoesOn(v, n, p, ahead, events)
      modifies this, values
      ensures State() == events(old(State()), 3) && initialized == old(initialized) && period == old(period)
    {
      var budget := 3;
      ghost var all := events(State(), 3);
      while budget > 0
        invariant 0 <= budget <= 3 && period == old(period) && initialized == old(initialized)
        invariant events(State(), budget) == all
        decreases budget
      {
        assert GoesOn(State(), budget, p, ahead, events);
        var distance := ahead(next);
        if distance > 0 { break; }
        TakeEvent(p, -distance);
        budget := budget - 1;
      }
      assert GoesOn(State(), budget, p, ahead, events);
    }

    method TakeEvent(p: Params, late: int)
      requires period > 0 && values.Length == SLOTS
      modifies this, values
      ensures State() == Taken(old(State()), p, late) && period == old(period) && initialized == old(initialized)
    {
      var index := Index(next, period, p);
      var sounds := Sounds(next, period, p);
      next := W32(next + period);
      if !sounds { return; }
      triggers := W32(triggers + 1);
      origin, age, active := level, W32(late) / 4, true;
      if mode >= 2 {
        if mode == 2 {
          rng := Xorshift(rng);
          values[index] := Drawn(rng);
        }
        target := values[index];
      }
    }

    method Shape(f: Frame)
      modifies this
      ensures State() == old(State()).(env := Shaped(old(State()).env, old(mode), old(period), f))
        && initialized == old(initialized)
    {
      if !f.running || Count(f.p) == 0 {
        active, level := false, 0;
      } else if active {
        level := Level(mode, period, f.p.attack, f.p.decay, age / 16384, origin, target);
      }
    }
  }
}
