/** EUCLID's envelope (control.c, `interpolate` and the laws in `eu_process`), in
    32-bit words: every product is shown to stay in its word. */
module EuclidEnvelope {
  import opened Words
  import opened EuclidClock
  import opened EuclidSwing

  const PEAK := 32767
  const LONGEST := 124032

  function Mode(p: Params): nat {
    Min(p.mode, 3)
  }

  /** A period's length in envelope units, 65536 clock units each. */
  function Duration(period: nat): nat {
    W32(period * QUANTUM) / 65536
  }

  /** d k^2 / den, as the words compute it. */
  function Law(d: nat, k: nat, den: nat): nat
    requires den > 0
  {
    W32(W32(d * k) * k) / den
  }

  function AttackLength(duration: nat, attack: nat): nat {
    Law(duration, attack, 16129)
  }

  function DecayLength(duration: nat, decay: nat): nat {
    var d := if decay < 64 then Law(duration, decay + 1, 4096) else duration + Law(W32(duration * 7), decay - 63, 4096);
    if d == 0 then 1 else d
  }

  function GateLength(duration: nat, decay: nat): nat {
    var l := W32(duration * (decay + 1)) / 128;
    if l == 0 then 1 else l
  }

  /** The part of a span covered by time t. */
  function Part(span: nat, t: nat, duration: nat): nat
    requires duration > 0
  {
    W32(span * t) / duration
  }

  /** The 16-bit unsigned word a level is kept in. */
  function W16(x: int): (w: nat)
    ensures w < 0x1_0000
    ensures 0 <= x < 0x1_0000 ==> w == x
  {
    x % 0x1_0000
  }

  function Interpolate(from: nat, to: nat, t: nat, duration: nat): nat {
    if duration == 0 || t >= duration then W16(to)
    else if to >= from then W16(from + Part(to - from, t, duration))
    else W16(from - Part(from - to, t, duration))
  }

  /** The curved decay. */
  function Curve(ramp: nat): nat {
    W16(W32(ramp * ramp) / PEAK)
  }

  /** The level an active voice has `age` units after its pulse. */
  function Level(mode: nat, period: nat, attack: nat, decay: nat, age: nat, origin: nat, target: nat): nat {
    var duration := Duration(period);
    var rise := AttackLength(duration, attack);
    if mode == 0 then
      if age < rise then Interpolate(origin, PEAK, age, rise)
      else Curve(Interpolate(PEAK, 0, age - rise, DecayLength(duration, decay)))
    else if mode == 1 then
      var length := GateLength(duration, decay);
      var edge := Min(rise, length / 2);
      if age < length then Interpolate(0, PEAK, age, edge) else Interpolate(PEAK, 0, age - length, edge)
    else Interpolate(origin, target, age, rise)
  }

  // ---- no product leaves its word --------------------------------------------

  lemma DivLe(x: nat, y: nat, d: nat)
    requires d > 0 && x <= y * d
    ensures x / d <= y
  {
    DivBounds(x, d, x / d);
    if x / d > y { MulLe(y + 1, x / d, d); }
  }

  lemma SquareBound(d: nat, k: nat, most: nat, top: nat)
    requires k <= most && d <= top
    ensures d * k <= top * most && d * k * k <= top * most * most
    ensures d * k * k <= d * (most * most)
  {
    MulLe(k, most, d);
    MulLe(d, top, most);
    MulLe(d * k, top * most, k);
    MulLe(k, most, top * most);
    MulLe(d * k, d * most, k);
    MulLe(k, most, d * most);
    assert d * (most * most) == d * most * most;
  }

  /** A law's products fit their word while the longest does. */
  lemma LawExact(d: nat, k: nat, den: nat, most: nat, top: nat)
    requires den > 0 && k <= most && d <= top && most * most <= den && top * most < TWO_32 && top * most * most < TWO_32
    ensures Law(d, k, den) == d * k * k / den <= d
  {
    SquareBound(d, k, most, top);
    assert 0 <= d * k && 0 <= d * k * k;
    MulLe(most * most, den, d);
    DivLe(d * k * k, d, den);
  }

  lemma DurationExact(period: nat)
    requires period <= 768
    ensures Duration(period) == period * QUANTUM / 65536 <= 15503
  {
  }

  lemma DecayExact(d: nat, decay: nat)
    requires d <= 15503 && decay < 128
    ensures decay < 64 ==> Law(d, decay + 1, 4096) == d * (decay + 1) * (decay + 1) / 4096
    ensures decay >= 64 ==>
      W32(d * 7) == d * 7 && Law(d * 7, decay - 63, 4096) == d * 7 * (decay - 63) * (decay - 63) / 4096
    ensures 1 <= DecayLength(d, decay) <= LONGEST
  {
    if decay < 64 {
      LawExact(d, decay + 1, 4096, 64, 15503);
    } else {
      LawExact(d * 7, decay - 63, 4096, 64, 108521);
    }
  }

  /** A length of no units counts as one. */
  function AtLeastOne(n: int): int {
    if n == 0 then 1 else n
  }

  /** The laws in unbounded integers: the decay reaches one step half way and eight at
      its end. */
  function AttackLaw(d: int, attack: int): int {
    d * attack * attack / 16129
  }

  function DecayLaw(d: int, decay: int): int {
    if decay < 64 then d * (decay + 1) * (decay + 1) / 4096 else d + d * 7 * (decay - 63) * (decay - 63) / 4096
  }

  function GateLaw(d: int, decay: int): int {
    d * (decay + 1) / 128
  }

  lemma DecayIsLaw(d: nat, decay: nat)
    requires d <= 15503 && decay < 128
    ensures DecayLength(d, decay) == AtLeastOne(DecayLaw(d, decay)) <= LONGEST
  {
    DecayExact(d, decay);
  }

  lemma GateExact(d: nat, decay: nat)
    requires d <= 15503 && decay < 128
    ensures W32(d * (decay + 1)) == d * (decay + 1)
    ensures GateLength(d, decay) == AtLeastOne(GateLaw(d, decay)) <= 15503
    ensures GateLength(d, decay) >= 1
  {
    MulLe(decay + 1, 128, d);
    DivLe(d * (decay + 1), d, 128);
  }

  /** The attack, decay and gate laws exactly, with their longest lengths. */
  lemma LawsExact(period: nat, attack: nat, decay: nat)
    requires period <= 768 && attack < 128 && decay < 128
    ensures var d := Duration(period);
      && d == period * QUANTUM / 65536 <= 15503
      && AttackLength(d, attack) == AttackLaw(d, attack) <= d
      && DecayLength(d, decay) == AtLeastOne(DecayLaw(d, decay)) <= LONGEST
      && GateLength(d, decay) == AtLeastOne(GateLaw(d, decay)) <= 15503
  {
    DurationExact(period);
    LawExact(Duration(period), attack, 16129, 127, 15503);
    DecayIsLaw(Duration(period), decay);
    GateExact(Duration(period), decay);
  }

  /** A span's product fits its word: the longest decay is 124032. */
  lemma PartExact(span: nat, t: nat, duration: nat)
    requires span <= PEAK && t < duration <= LONGEST
    ensures Part(span, t, duration) == span * t / duration <= span
  {
    MulLe(span, PEAK, t);
    MulLe(t, duration, span);
    assert 0 <= span * t;
    DivLe(span * t, span, duration);
  }

  /** The way from one level to another, exactly, and never past either. */
  lemma InterpolateExact(from: nat, to: nat, t: nat, duration: nat)
    requires from <= PEAK && to <= PEAK && duration <= LONGEST
    ensures var way := Interpolate(from, to, t, duration);
      && Min(from, to) <= way <= from + to - Min(from, to)
      && (t < duration && to >= from ==> way == from + (to - from) * t / duration)
      && (t < duration && to < from ==> way == from - (from - to) * t / duration)
  {
    if t < duration {
      PartExact(if to >= from then to - from else from - to, t, duration);
    }
  }

  lemma DivMono(x: nat, y: nat, d: nat)
    requires d > 0 && x <= y
    ensures x / d <= y / d
  {
    DivBounds(y, d, y / d);
    DivBounds(x, d, x / d);
    if x / d > y / d { MulLe(y / d + 1, x / d, d); }
  }

  lemma PartMono(span: nat, t: nat, u: nat, duration: nat)
    requires span <= PEAK && t <= u < duration <= LONGEST
    ensures Part(span, t, duration) <= Part(span, u, duration) <= span
  {
    PartExact(span, t, duration);
    PartExact(span, u, duration);
    MulLe(t, u, span);
    DivMono(span * t, span * u, duration);
  }

  /** The way to a level only ever approaches it. */
  lemma InterpolateApproaches(from: nat, to: nat, t: nat, u: nat, duration: nat)
    requires from <= PEAK && to <= PEAK && duration <= LONGEST && t <= u
    ensures to >= from ==> Interpolate(from, to, t, duration) <= Interpolate(from, to, u, duration)
    ensures to <= from ==> Interpolate(from, to, t, duration) >= Interpolate(from, to, u, duration)
  {
    InterpolateExact(from, to, t, duration);
    if u < duration {
      PartMono(if to >= from then to - from else from - to, t, u, duration);
    }
  }

  /** Whatever the knobs, a level stays in 0..PEAK. */
  lemma LevelBounded(mode: nat, period: nat, attack: nat, decay: nat, age: nat, origin: nat, target: nat)
    requires period <= 768 && attack < 128 && decay < 128 && origin <= PEAK && target <= PEAK
    ensures 0 <= Level(mode, period, attack, decay, age, origin, target) <= PEAK
  {
    LawsExact(period, attack, decay);
    var d := Duration(period);
    var rise := AttackLength(d, attack);
    if mode == 0 && age >= rise {
      InterpolateExact(PEAK, 0, age - rise, DecayLength(d, decay));
      CurveBounded(Interpolate(PEAK, 0, age - rise, DecayLength(d, decay)));
    } else if mode == 0 {
      InterpolateExact(origin, PEAK, age, rise);
    } else if mode == 1 {
      var length := GateLength(d, decay);
      InterpolateExact(0, PEAK, age, Min(rise, length / 2));
      InterpolateExact(PEAK, 0, if age < length then 0 else age - length, Min(rise, length / 2));
    } else {
      InterpolateExact(origin, target, age, rise);
    }
  }

  lemma CurveBounded(ramp: int)
    requires 0 <= ramp <= PEAK
    ensures W32(ramp * ramp) == ramp * ramp && 0 <= ramp * ramp / PEAK <= PEAK
  {
    MulLe(ramp, PEAK, ramp);
    DivLe(ramp * ramp, ramp, PEAK);
  }

  lemma InterpolateEnds(from: nat, to: nat, t: nat, duration: nat)
    requires from <= PEAK && to <= PEAK
    ensures duration > 0 ==> Interpolate(from, to, 0, duration) == from
    ensures t >= duration ==> Interpolate(from, to, t, duration) == to
  {
    if duration > 0 { assert Part(if to >= from then to - from else from - to, 0, duration) == 0; }
  }

  lemma RisingLevel(period: nat, attack: nat, decay: nat, age: nat, origin: nat, target: nat)
    requires age < AttackLength(Duration(period), attack)
    ensures Level(0, period, attack, decay, age, origin, target)
         == Interpolate(origin, PEAK, age, AttackLength(Duration(period), attack))
  {
  }

  lemma FallingLevel(period: nat, attack: nat, decay: nat, age: nat, origin: nat, target: nat)
    requires age >= AttackLength(Duration(period), attack)
    ensures Level(0, period, attack, decay, age, origin, target)
         == Curve(Interpolate(PEAK, 0, age - AttackLength(Duration(period), attack),
                              DecayLength(Duration(period), decay)))
  {
  }

  lemma CurveEnds()
    ensures Curve(0) == 0 && Curve(PEAK) == PEAK
  {
  }

  /** The envelope starts at the level before and peaks when the attack ends. */
  lemma EnvelopeRises(period: nat, attack: nat, decay: nat, origin: nat, target: nat)
    requires period <= 768 && attack < 128 && decay < 128 && origin <= PEAK && target <= PEAK
    ensures var rise := AttackLength(Duration(period), attack);
      && (rise > 0 ==> Level(0, period, attack, decay, 0, origin, target) == origin)
      && Level(0, period, attack, decay, rise, origin, target) == PEAK
  {
    LawsExact(period, attack, decay);
    var rise, fall := AttackLength(Duration(period), attack), DecayLength(Duration(period), decay);
    if rise > 0 {
      RisingLevel(period, attack, decay, 0, origin, target);
      InterpolateEnds(origin, PEAK, 0, rise);
    }
    FallingLevel(period, attack, decay, rise, origin, target);
    InterpolateEnds(PEAK, 0, 0, fall);
    CurveEnds();
  }

  /** It is silent once the decay is over. */
  lemma EnvelopeEnds(period: nat, attack: nat, decay: nat, age: nat, origin: nat, target: nat)
    requires age >= AttackLength(Duration(period), attack) + DecayLength(Duration(period), decay)
    ensures Level(0, period, attack, decay, age, origin, target) == 0
  {
    FallingLevel(period, attack, decay, age, origin, target);
    InterpolateEnds(PEAK, 0, age - AttackLength(Duration(period), attack), DecayLength(Duration(period), decay));
    CurveEnds();
  }

  lemma CurveMono(r: nat, s: nat)
    requires r <= s <= PEAK
    ensures Curve(r) <= Curve(s) <= PEAK
  {
    MulLe(r, s, r);
    MulLe(r, s, s);
    CurveBounded(r);
    CurveBounded(s);
    DivMono(r * r, s * s, PEAK);
  }

  /** In between it never turns: it rises through the attack and then falls. */
  lemma EnvelopeUnimodal(period: nat, attack: nat, decay: nat, age: nat, later: nat, origin: nat, target: nat)
    requires period <= 768 && attack < 128 && decay < 128 && origin <= PEAK && target <= PEAK && age <= later
    ensures var rise := AttackLength(Duration(period), attack);
      var at := (a: nat) => Level(0, period, attack, decay, a, origin, target);
      (later < rise ==> at(age) <= at(later)) && (rise <= age ==> at(age) >= at(later))
  {
    LawsExact(period, attack, decay);
    var rise, fall := AttackLength(Duration(period), attack), DecayLength(Duration(period), decay);
    if later < rise {
      RisingLevel(period, attack, decay, age, origin, target);
      RisingLevel(period, attack, decay, later, origin, target);
      InterpolateApproaches(origin, PEAK, age, later, rise);
    } else if rise <= age {
      FallingLevel(period, attack, decay, age, origin, target);
      FallingLevel(period, attack, decay, later, origin, target);
      InterpolateApproaches(PEAK, 0, age - rise, later - rise, fall);
      InterpolateExact(PEAK, 0, age - rise, fall);
      CurveMono(Interpolate(PEAK, 0, later - rise, fall), Interpolate(PEAK, 0, age - rise, fall));
    }
  }

  // ---- the cutoff ----------------------------------------------------------------

  /** C's division, toward zero. */
  function TruncDiv(x: int, d: nat): int
    requires d > 0
  {
    if x >= 0 then x / d else -(-x / d)
  }

  function Cutoff(freq: nat, depth: nat, level: nat): (c: nat) {
    var x := freq + TruncDiv((depth - 16384) * level, 16384);
    if x < 0 then 0 else if x > 32512 then 32512 else x
  }

  /** The modulation stays a signed 32-bit product, and the cutoff in range. */
  lemma CutoffBounded(freq: nat, depth: nat, level: nat)
    requires depth < 0x1_0000 && level <= PEAK
    ensures -TWO_31 <= (depth - 16384) * level < TWO_31
    ensures Cutoff(freq, depth, level) <= 32512
    ensures depth == 16384 ==> Cutoff(freq, depth, level) == Min(freq, 32512)
  {
    MulLe(-16384, depth - 16384, level);
    MulLe(depth - 16384, 49151, level);
  }
}
