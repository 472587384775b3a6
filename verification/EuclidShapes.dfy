/** EUCLID's output modes in full (control.c, `eu_process`): the exact level of each, its
    shape over a pulse's age, what the cutoff makes of it, and how a pulse, a change of
    mode and a stop hand it on. */
module EuclidShapes {
  import opened Words
  import opened EuclidClock
  import opened EuclidSwing
  import opened EuclidSchedule
  import opened EuclidGrid
  import opened EuclidEnvelope
  import opened EuclidVoice

  // ---- the level, exactly ------------------------------------------------------------

  /** A straight way from one level to another, in unbounded integers. */
  function Way(from: int, to: int, t: int, duration: int): int {
    if duration <= 0 || t >= duration then to
    else if to >= from then from + (to - from) * t / duration
    else from - (from - to) * t / duration
  }

  lemma InterpolateIsWay(from: nat, to: nat, t: nat, duration: nat)
    requires from <= PEAK && to <= PEAK && duration <= LONGEST
    ensures Interpolate(from, to, t, duration) == Way(from, to, t, duration)
  {
    InterpolateExact(from, to, t, duration);
  }

  lemma CurveIs(ramp: nat)
    requires ramp <= PEAK
    ensures Curve(ramp) == ramp * ramp / PEAK
  {
    CurveBounded(ramp);
  }

  /** ENV: up from the level before to the peak over the attack, then down to silence over
      the decay, the way squared. */
  lemma EnvIs(period: nat, attack: nat, decay: nat, age: nat, origin: nat, target: nat)
    requires period <= 768 && attack < 128 && decay < 128 && origin <= PEAK && target <= PEAK
    ensures var d := period * QUANTUM / 65536;
      var rise, fall := d * attack * attack / 16129, AtLeastOne(DecayLaw(d, decay));
      var ramp := Way(PEAK, 0, age - rise, fall);
      Level(0, period, attack, decay, age, origin, target)
      == if age < rise then Way(origin, PEAK, age, rise) else ramp * ramp / PEAK
  {
    LawsExact(period, attack, decay);
    var d := Duration(period);
    var rise, fall := AttackLength(d, attack), DecayLength(d, decay);
    if age < rise {
      InterpolateIsWay(origin, PEAK, age, rise);
    } else {
      InterpolateIsWay(PEAK, 0, age - rise, fall);
      InterpolateExact(PEAK, 0, age - rise, fall);
      CurveIs(Interpolate(PEAK, 0, age - rise, fall));
    }
  }

  /** The gate's length, and its edges: as long as the attack, but no more than half. */
  function GateOpen(period: nat, decay: nat): int {
    AtLeastOne(period * QUANTUM / 65536 * (decay + 1) / 128)
  }

  function GateEdge(period: nat, attack: nat, decay: nat): int {
    var rise, half := period * QUANTUM / 65536 * attack * attack / 16129, GateOpen(period, decay) / 2;
    if rise < half then rise else half
  }

  /** GATE: from silence to the peak over an edge, there to its length, and back to silence
      over an edge. */
  lemma GateIs(period: nat, attack: nat, decay: nat, age: nat, origin: nat, target: nat)
    requires period <= 768 && attack < 128 && decay < 128
    ensures var open, edge := GateOpen(period, decay), GateEdge(period, attack, decay);
      Level(1, period, attack, decay, age, origin, target)
      == if age < open then Way(0, PEAK, age, edge) else Way(PEAK, 0, age - open, edge)
    ensures 0 <= GateEdge(period, attack, decay) <= GateOpen(period, decay) / 2 && GateOpen(period, decay) >= 1
  {
    LawsExact(period, attack, decay);
    var d := Duration(period);
    var open, edge := GateLength(d, decay), Min(AttackLength(d, attack), GateLength(d, decay) / 2);
    InterpolateIsWay(0, PEAK, age, edge);
    if age >= open { InterpolateIsWay(PEAK, 0, age - open, edge); }
  }

  /** RAND and LOOP: over the attack from the level before to the step's number. */
  lemma StepIs(mode: nat, period: nat, attack: nat, decay: nat, age: nat, origin: nat, target: nat)
    requires mode >= 2 && period <= 768 && attack < 128 && decay < 128 && origin <= PEAK && target <= PEAK
    ensures Level(mode, period, attack, decay, age, origin, target)
         == Way(origin, target, age, period * QUANTUM / 65536 * attack * attack / 16129)
  {
    LawsExact(period, attack, decay);
    InterpolateIsWay(origin, target, age, AttackLength(Duration(period), attack));
  }

  // ---- its shape ----------------------------------------------------------------------------

  lemma WayEnds(from: int, to: int, t: int, duration: int)
    requires t >= 0
    ensures duration > 0 ==> Way(from, to, 0, duration) == from
    ensures t >= duration ==> Way(from, to, t, duration) == to
  {
    if duration > 0 { assert (to - from) * 0 / duration == 0 && (from - to) * 0 / duration == 0; }
  }

  lemma WayApproaches(from: nat, to: nat, t: nat, u: nat, duration: nat)
    requires from <= PEAK && to <= PEAK && duration <= LONGEST && t <= u
    ensures to >= from ==> from <= Way(from, to, t, duration) <= Way(from, to, u, duration) <= to
    ensures to <= from ==> from >= Way(from, to, t, duration) >= Way(from, to, u, duration) >= to
  {
    InterpolateIsWay(from, to, t, duration);
    InterpolateIsWay(from, to, u, duration);
    InterpolateApproaches(from, to, t, u, duration);
    InterpolateExact(from, to, t, duration);
    InterpolateExact(from, to, u, duration);
  }

  /** The gate is open in full from the end of its edge to its length and shut an edge
      later; it rises to its length and falls from there. */
  lemma GateShape(period: nat, attack: nat, decay: nat, age: nat, later: nat, origin: nat, target: nat)
    requires period <= 768 && attack < 128 && decay < 128 && age <= later
    ensures var open, edge := GateOpen(period, decay), GateEdge(period, attack, decay);
      var at := (a: nat) => Level(1, period, attack, decay, a, origin, target);
      && (edge <= age < open ==> at(age) == PEAK)
      && (age >= open + edge ==> at(age) == 0)
      && (edge > 0 ==> at(0) == 0)
      && (later < open ==> at(age) <= at(later))
      && (open <= age ==> at(age) >= at(later))
  {
    var open, edge := GateOpen(period, decay), GateEdge(period, attack, decay);
    LawsExact(period, attack, decay);
    GateIs(period, attack, decay, 0, origin, target);
    GateIs(period, attack, decay, age, origin, target);
    GateIs(period, attack, decay, later, origin, target);
    WayEnds(0, PEAK, age, edge);
    WayApproaches(0, PEAK, age, later, edge);
    if open <= age {
      WayEnds(PEAK, 0, age - open, edge);
      WayApproaches(PEAK, 0, age - open, later - open, edge);
    }
  }

  /** A step's number is reached when the attack is over and held from then on; on the way
      the level only approaches it, from where it was. */
  lemma StepShape(mode: nat, period: nat, attack: nat, decay: nat, age: nat, later: nat, origin: nat, target: nat)
    requires mode >= 2 && period <= 768 && attack < 128 && decay < 128 && origin <= PEAK && target <= PEAK
      && age <= later
    ensures var rise := period * QUANTUM / 65536 * attack * attack / 16129;
      var at := (a: nat) => Level(mode, period, attack, decay, a, origin, target);
      && (rise > 0 ==> at(0) == origin)
      && (age >= rise ==> at(age) == target)
      && (origin <= target ==> origin <= at(age) <= at(later) <= target)
      && (origin >= target ==> origin >= at(age) >= at(later) >= target)
  {
    LawsExact(period, attack, decay);
    var rise := AttackLength(Duration(period), attack);
    StepIs(mode, period, attack, decay, 0, origin, target);
    StepIs(mode, period, attack, decay, age, origin, target);
    StepIs(mode, period, attack, decay, later, origin, target);
    WayEnds(origin, target, age, rise);
    WayApproaches(origin, target, age, later, rise);
  }

  // ---- the cutoff -----------------------------------------------------------------------------

  /** The knob alone at level 0; above the centre depth the cutoff grows with the level,
      below it falls, and at the ends of the depth it moves by the level. */
  lemma CutoffMoves(freq: nat, depth: nat, level: nat, louder: nat)
    requires freq < 0x1_0000 && depth < 0x1_0000 && level <= louder <= PEAK
    ensures Cutoff(freq, depth, 0) == Min(freq, 32512)
    ensures depth >= 16384 ==> Cutoff(freq, depth, level) <= Cutoff(freq, depth, louder)
    ensures depth <= 16384 ==> Cutoff(freq, depth, level) >= Cutoff(freq, depth, louder)
    ensures depth == 0 ==> Cutoff(freq, depth, level) == if freq < level then 0 else Min(freq - level, 32512)
    ensures depth == 32768 ==> Cutoff(freq, depth, level) == Min(freq + level, 32512)
  {
    var d := depth - 16384;
    if d >= 0 {
      MulLe(level, louder, d);
      MulLe(0, d, level);
      DivMono(d * level, d * louder, 16384);
    } else {
      MulLe(level, louder, -d);
      MulLe(0, -d, level);
      assert -(d * level) == -d * level && -(d * louder) == -d * louder;
      DivMono(-d * level, -d * louder, 16384);
    }
  }

  // ---- from frame to frame --------------------------------------------------------------------

  /** Stopped, or with no pulses set, a voice is silent at once and its filter is the knob's. */
  lemma StoppedIsSilent(v: Voice, f: Frame)
    requires f.p.Valid() && |v.table.values| == SLOTS && (!f.running || f.p.pulses == 0)
    ensures var w := AfterFrame(v, f);
      w.env.level == 0 && !w.env.active && Cutoff(f.p.freq, f.p.depth, w.env.level) == Min(f.p.freq, 32512)
  {
    CutoffMoves(f.p.freq, f.p.depth, 0, 0);
  }

  /** A pulse takes off from the level there was. In RAND the step's number is drawn anew
      and in LOOP it is the table's; either way it is the target, and no other step's
      number changes. */
  lemma PulseTakesOff(v: Voice, p: Params, late: int)
    requires v.grid.period > 0 && |v.table.values| == SLOTS && Sounds(v.grid.next, v.grid.period, p)
    ensures var w, i := Taken(v, p, late), Index(v.grid.next, v.grid.period, p);
      && w.env.origin == v.env.level == w.env.level && w.env.active
      && (v.mode >= 2 ==> w.env.target == w.table.values[i])
      && (v.mode != 2 ==> w.table == v.table)
      && (v.mode == 2 ==> w.table.values[i] == Drawn(Xorshift(v.table.rng)) && w.table.rng == Xorshift(v.table.rng))
      && forall k | 0 <= k < SLOTS && k != i :: w.table.values[k] == v.table.values[k]
  {
  }

  /** A step that is no pulse changes nothing but the place. */
  lemma RestIsSilent(v: Voice, p: Params, late: int)
    requires v.grid.period > 0 && |v.table.values| == SLOTS && !Sounds(v.grid.next, v.grid.period, p)
    ensures Taken(v, p, late) == v.(grid := v.grid.(next := W32(v.grid.next + v.grid.period)))
  {
  }

  /** A change of mode holds the level: until the next pulse the new mode's level is the
      old one's. */
  lemma ModeChangeHolds(v: Voice, f: Frame)
    requires f.Valid() && Sound(v) && v.grid.epoch == f.epoch && v.mode != Mode(f.p)
    requires f.running && Count(f.p) > 0 && FrameLog(v.grid, f) == []
    ensures AfterFrame(v, f).env.level == v.env.level
  {
    var w := Prepared(v, f);
    var s := w.(grid := CaughtUp(w.grid, f.clock.quantum));
    assert Scheduled(w, f) == s;
    var e := w.env;
    assert e.level == v.env.level && (e.active ==> e.origin == e.target == v.env.level && w.mode >= 2);
    if e.active {
      StepIs(w.mode, s.grid.period, f.p.attack, f.p.decay, e.age / 16384, e.origin, e.target);
      WaySame(v.env.level, e.age / 16384, AttackLength(Duration(s.grid.period), f.p.attack));
    }
  }

  lemma WaySame(level: int, t: int, duration: int)
    ensures Way(level, level, t, duration) == level
  {
    if 0 < duration && t < duration { assert (level - level) * t == 0 && 0 / duration == 0; }
  }

  /** A new epoch starts in silence, whatever sounded. */
  lemma EpochStartsSilent(v: Voice, f: Frame)
    requires f.p.Valid() && v.grid.epoch != f.epoch
    ensures Prepared(v, f).env.level == 0 && !Prepared(v, f).env.active && Prepared(v, f).grid.next == 0
  {
  }

  /** Ages add up: whole quarters gone by one after the other age a voice as they do
      together, and none ever grows younger. */
  lemma AgedTwice(e: Envelope, a: nat, b: nat)
    requires e.age < TWO_32 && a % 4 == 0
    ensures Aged(Aged(e, a), b).age == Aged(e, a + b).age >= e.age
    ensures Aged(e, a).age == if e.age + a / 4 < TWO_32 then e.age + a / 4 else TWO_32 - 1
  {
    assert (a + b) / 4 == a / 4 + b / 4;
  }

  /** More than two periods behind, a frame leaves the backlog alone: it takes no event up
      to the clock, and goes on at the first grid point after it. */
  lemma BacklogDropped(g: Grid, f: Frame)
    requires f.Valid() && f.running && g.epoch == f.epoch && g.period == Period(f.p)
    requires f.clock.quantum > g.next + 2 * g.period
    ensures FrameLog(g, f) == []
    ensures var next := GridAfter(g, f).next;
      next % g.period == 0 && f.clock.quantum < next <= f.clock.quantum + g.period
  {
    var next := NextPoint(f.clock.quantum, g.period);
    MultipleAfter(f.clock.quantum, g.period);
    DistanceExact(next, f.clock, f.p);
    assert !Due(f.p, f.clock, next);
  }

  /** A running voice with pulses set has its mode's level for its age while it is active,
      in units of 16384 quarters, and otherwise keeps the level it had. */
  lemma VoiceLevel(v: Voice, f: Frame)
    requires f.p.Valid() && |v.table.values| == SLOTS && f.running && f.p.pulses > 0
    ensures var w := AfterFrame(v, f);
      && w.mode == Min(f.p.mode, 3) && w.grid.period == Period(f.p)
      && (w.env.active ==>
            w.env.level
            == Level(w.mode, w.grid.period, f.p.attack, f.p.decay, w.env.age / 16384, w.env.origin, w.env.target))
      && (!w.env.active ==> w.env.level == Scheduled(Prepared(v, f), f).env.level)
  {
    FrameFollowsGrid(v, f);
  }

  /** The knobs' ranges: one to 64 steps, and no more pulses than steps. */
  lemma RhythmClamped(p: Params)
    ensures 1 <= Steps(p) <= 64 && (1 <= p.steps <= 64 ==> Steps(p) == p.steps) && (p.steps > 64 ==> Steps(p) == 64)
    ensures Count(p) <= Steps(p) && (p.pulses <= Steps(p) ==> Count(p) == p.pulses)
    ensures p.pulses > Steps(p) ==> Count(p) == Steps(p)
  {
  }

  /** The slowest of the five rates is sixteen times the track's scale, the fastest the
      scale itself, and each is half the next. */
  lemma RatesDouble(p: Params)
    requires p.Valid()
    ensures p.rate == 0 ==> Period(p) == p.scale
    ensures p.rate < 4 ==> Period(p.(rate := p.rate + 1)) == 2 * Period(p)
    ensures p.rate >= 4 ==> Period(p) == 16 * p.scale
  {
    assert SHIFTS == [1, 2, 4, 8, 16];
  }

  // ---- a slot coming to life --------------------------------------------------------------------

  /** The generator's state n draws on. */
  function Drawing(x: bv32, n: nat): bv32 {
    if n == 0 then x else Xorshift(Drawing(x, n - 1))
  }

  lemma {:induction false} TableIsDrawn(seed: bv32, n: nat)
    ensures Filled(seed, n).rng == Drawing(seed, n)
    ensures forall i | 0 <= i < n :: Filled(seed, n).values[i] == Drawn(Drawing(seed, i + 1)) <= PEAK
  {
    if n > 0 { TableIsDrawn(seed, n - 1); }
  }

  lemma {:induction false} DrawingAlive(x: bv32, n: nat)
    requires x != 0
    ensures Drawing(x, n) != 0
  {
    if n > 0 {
      DrawingAlive(x, n - 1);
      XorshiftAlive(Drawing(x, n - 1));
    }
  }

  /** Each of the sixteen slots seeds a generator that never dies, draws its 64 numbers one
      after the other, and belongs to no epoch of the clock yet. */
  lemma SlotBegins(v: Voice, identity: bv32, epoch: nat, n: nat)
    requires identity < 16 && epoch < TWO_32
    ensures var seed := 0x6d2b79f5 ^ (0x9e3779b9 * (identity + 1));
      var w := Begun(v, identity, epoch);
      && |w.table.values| == 64 && w.table.rng == Drawing(seed, 64) && Drawing(w.table.rng, n) != 0
      && (forall i | 0 <= i < 64 :: w.table.values[i] == Drawn(Drawing(seed, i + 1)) <= PEAK)
      && w.env.level == 0 && w.grid.epoch != epoch
  {
    var seed: bv32 := 0x6d2b79f5 ^ (0x9e3779b9 * (identity + 1));
    SeedAlive(identity);
    TableIsDrawn(seed, SLOTS);
    assert Begun(v, identity, epoch).table == Filled(seed, 64);
    DrawingAlive(seed, 64);
    DrawingAlive(Drawing(seed, 64), n);
  }

  lemma SeedAlive(identity: bv32)
    requires identity < 16
    ensures 0x6d2b79f5 ^ (0x9e3779b9 * (identity + 1)) != (0 as bv32)
  {
  }

  // ---- fixed points of the laws -------------------------------------------------------------------

  /** The generator is the 13, 17, 5 xorshift, and a number its upper fifteen bits. */
  lemma XorshiftIs()
    ensures Xorshift(1) == 270369 && Xorshift(270369) == 67634689 && Drawn(0xffff_ffff) == 32767 && Drawn(0x1_ffff) == 0
  {
  }

  /** At the knobs' ends: no attack, or a step's; a decay of a step half way and of eight at
      the end; a gate of the whole step. */
  lemma LawEnds(d: nat)
    ensures AttackLaw(d, 0) == 0 && AttackLaw(d, 127) == d
    ensures DecayLaw(d, 63) == d && DecayLaw(d, 127) == 8 * d
    ensures GateLaw(d, 127) == d && GateLaw(d, 63) == d / 2
  {
    assert d * 127 * 127 == d * 16129 && d * (63 + 1) * (63 + 1) == d * 4096;
    assert d * 7 * (127 - 63) * (127 - 63) == 7 * d * 4096;
  }

  lemma WeightIs(p: Params, step: nat, frac: nat)
    requires p.Valid() && frac < 2 * p.scale
    ensures Weight(p, step * (2 * p.scale) + frac)
         == (if p.mask[step % p.length] then 2 * p.scale - frac else 0)
          + if p.mask[(step + 1) % p.length] then frac else 0
  {
    DivUnique(step * (2 * p.scale) + frac, 2 * p.scale, step);
    NextOfStep(step, p.length);
  }

  /** The swing on a step's own grid point is all of the step's own flag, and from there to
      the next step it goes over evenly to that one's. */
  lemma SwingIs(p: Params, step: nat, frac: nat)
    requires p.Valid() && frac < 2 * p.scale
    ensures SwingAt(p, step * (2 * p.scale) + frac)
         == p.swing * 26460 * ((if p.mask[step % p.length] then 2 * p.scale - frac else 0)
                               + if p.mask[(step + 1) % p.length] then frac else 0)
  {
    var q := step * (2 * p.scale) + frac;
    WeightIs(p, step, frac);
    WeightBound(p, q);
    DelayExact(p.swing, p.scale, Weight(p, q));
  }
}
