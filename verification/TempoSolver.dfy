/** FREE LOOP's tempo solver: from the length of a free take to a tempo, a
    pattern and a loop length (freeloop.c, `fl_loop_len` .. `fl_tempo`). */
module TempoSolver {
  import opened Words

  const SAMPLES_PER_TICK_X24 := 2646000
  const TEMPO24_MIN := 720
  const TEMPO24_MAX := 7200
  const DEF_LO := 70
  const DEF_HI := 160
  const MAX_TICKS := 3072

  const SCALE_TICKS: seq<nat> := [3, 4, 6, 8, 12, 24, 48]
  const SCALE_PREF: seq<nat> := [2, 4, 5, 6]
  const AUTO_BARS: seq<nat> := [1, 2, 4, 8, 16]
  const SIG_SPB: seq<nat> := [16, 12, 12, 20, 14, 18, 24, 8]

  function Spb(sig: nat): (s: nat)
    ensures 8 <= s <= 24
  {
    SIG_SPB[if sig < |SIG_SPB| then sig else 0]
  }

  // ---- the loop length -----------------------------------------------------

  /** The loop length as the 32-bit code computes it: the product split at the
      quotient so that it stays in a word. */
  function LoopLen(ticks: nat, tempo24: nat): nat
    requires tempo24 > 0
  {
    var q, r := SAMPLES_PER_TICK_X24 / tempo24, SAMPLES_PER_TICK_X24 % tempo24;
    W32(W32(ticks * q) + W32(W32(ticks * r) + tempo24 / 2) / tempo24)
  }

  /** round(ticks * 2,646,000 / tempo24), in unbounded integers. */
  ghost function Rounded(ticks: nat, tempo24: nat): nat
    requires tempo24 > 0
  {
    (ticks * SAMPLES_PER_TICK_X24 + tempo24 / 2) / tempo24
  }

  /** What rounding means: the loop is within half a sample of its exact length. */
  lemma RoundedBounds(ticks: nat, tempo24: nat)
    requires tempo24 > 0
    ensures var k := Rounded(ticks, tempo24);
      k * tempo24 <= ticks * SAMPLES_PER_TICK_X24 + tempo24 / 2 < k * tempo24 + tempo24
  {
    DivBounds(ticks * SAMPLES_PER_TICK_X24 + tempo24 / 2, tempo24, Rounded(ticks, tempo24));
  }

  lemma RoundedIs(ticks: nat, tempo24: nat, k: nat)
    requires tempo24 > 0
    requires k * tempo24 <= ticks * SAMPLES_PER_TICK_X24 + tempo24 / 2 < k * tempo24 + tempo24
    ensures Rounded(ticks, tempo24) == k
  {
    DivUnique(ticks * SAMPLES_PER_TICK_X24 + tempo24 / 2, tempo24, k);
  }

  /** The split product is the whole one: x s / d from s = q d + r. */
  lemma SplitQuotient(x: nat, s: nat, d: nat, half: nat, q: nat, r: nat, k: nat)
    requires d > 0 && s == q * d + r && k * d <= x * r + half < k * d + d
    ensures (x * q + k) * d <= x * s + half < (x * q + k) * d + d
  {
    assert x * s == (x * q) * d + x * r;
    MulDist(d, x * q, k);
  }

  /** No 32-bit overflow over the whole range a pattern and a tempo can take,
      so the split product is the rounded quotient. */
  lemma LoopLenIsRounded(ticks: nat, tempo24: nat)
    requires ticks <= MAX_TICKS && TEMPO24_MIN <= tempo24 <= TEMPO24_MAX
    ensures LoopLen(ticks, tempo24) == Rounded(ticks, tempo24)
  {
    var q, r := SAMPLES_PER_TICK_X24 / tempo24, SAMPLES_PER_TICK_X24 % tempo24;
    DivBounds(SAMPLES_PER_TICK_X24, tempo24, q);
    RemainderTerm(ticks * r + tempo24 / 2, ticks, tempo24, q, r);
    LoopLenUnwrapped(ticks, tempo24, q, r, (ticks * r + tempo24 / 2) / tempo24);
  }

  lemma RemainderTerm(low: nat, ticks: nat, tempo24: nat, q: nat, r: nat)
    requires ticks <= MAX_TICKS && TEMPO24_MIN <= tempo24 <= TEMPO24_MAX
    requires q * tempo24 + r == SAMPLES_PER_TICK_X24 && r < tempo24
    requires low == ticks * r + tempo24 / 2
    ensures 0 <= low / tempo24
    ensures Rounded(ticks, tempo24) == ticks * q + low / tempo24
    ensures ticks * q + low / tempo24 < TWO_32 && low < TWO_32
  {
    DivBounds(low, tempo24, low / tempo24);
    RoundedParts(ticks, tempo24, q, r, low / tempo24);
  }

  lemma RoundedParts(ticks: nat, tempo24: nat, q: nat, r: nat, k: nat)
    requires ticks <= MAX_TICKS && TEMPO24_MIN <= tempo24 <= TEMPO24_MAX
    requires q * tempo24 + r == SAMPLES_PER_TICK_X24 && r < tempo24
    requires k * tempo24 <= ticks * r + tempo24 / 2 < k * tempo24 + tempo24
    ensures Rounded(ticks, tempo24) == ticks * q + k
    ensures ticks * q + k < TWO_32 && ticks * r + tempo24 / 2 < TWO_32
  {
    SplitQuotient(ticks, SAMPLES_PER_TICK_X24, tempo24, tempo24 / 2, q, r, k);
    RoundedIs(ticks, tempo24, ticks * q + k);
    NoOverflow(ticks, tempo24, q, r, k);
  }

  lemma LoopLenUnwrapped(ticks: nat, tempo24: nat, q: nat, r: nat, k: nat)
    requires tempo24 > 0 && q == SAMPLES_PER_TICK_X24 / tempo24 && r == SAMPLES_PER_TICK_X24 % tempo24
    requires k == (ticks * r + tempo24 / 2) / tempo24
    requires ticks * q + k < TWO_32 && ticks * r + tempo24 / 2 < TWO_32
    ensures LoopLen(ticks, tempo24) == ticks * q + k
  {
    assert W32(W32(ticks * r) + tempo24 / 2) == ticks * r + tempo24 / 2;
    assert W32(ticks * q) == ticks * q;
  }

  lemma NoOverflow(ticks: nat, tempo24: nat, q: nat, r: nat, k: nat)
    requires ticks <= MAX_TICKS && TEMPO24_MIN <= tempo24 <= TEMPO24_MAX
    requires q * tempo24 + r == SAMPLES_PER_TICK_X24 && r < tempo24
    requires k * tempo24 <= ticks * r + tempo24 / 2
    ensures ticks * q + k < TWO_32 && ticks * r + tempo24 / 2 < TWO_32
  {
    MulLe(TEMPO24_MIN, tempo24, q);
    MulLe(q, 3675, ticks);
    MulLe(r, TEMPO24_MAX, ticks);
    MulLe(TEMPO24_MIN, tempo24, k);
  }

  /** A faster tempo never has a longer loop, rounding included. */
  lemma RoundedAntitone(ticks: nat, slow: nat, fast: nat)
    requires 0 < slow <= fast
    ensures Rounded(ticks, fast) <= Rounded(ticks, slow)
  {
    RoundedBounds(ticks, fast);
    RoundedBounds(ticks, slow);
    Antitone(ticks * SAMPLES_PER_TICK_X24, slow, fast, Rounded(ticks, slow), Rounded(ticks, fast));
  }

  lemma Antitone(x: nat, slow: nat, fast: nat, a: nat, b: nat)
    requires 0 < slow <= fast
    requires x + slow / 2 < a * slow + slow && b * fast <= x + fast / 2
    ensures b <= a
  {
    if b > a { Wider(a, b, slow, fast - slow); }
  }

  lemma Wider(a: nat, b: nat, slow: nat, more: nat)
    requires a < b
    ensures b * (slow + more) >= a * slow + slow + more
  {
    MulLe(1, b, more);
    MulLe(a + 1, b, slow);
    assert b * (slow + more) == b * slow + b * more;
  }

  /** More ticks at one tempo never have a shorter loop. */
  lemma RoundedMonotone(fewer: nat, more: nat, tempo24: nat)
    requires 0 < tempo24 && fewer <= more
    ensures Rounded(fewer, tempo24) <= Rounded(more, tempo24)
  {
    RoundedBounds(fewer, tempo24);
    RoundedBounds(more, tempo24);
    if Rounded(fewer, tempo24) > Rounded(more, tempo24) {
      MulLe(Rounded(more, tempo24) + 1, Rounded(fewer, tempo24), tempo24);
    }
  }

  // ---- the pattern -----------------------------------------------------------

  /** `steps` sequencer steps fit one pattern at scale `scale`. */
  predicate FitsScale(steps: nat, scale: nat)
    requires scale < |SCALE_TICKS|
  {
    steps * 6 % SCALE_TICKS[scale] == 0 && 2 <= steps * 6 / SCALE_TICKS[scale] <= 64
  }

  /** The length and scale of the pattern for `steps` steps: the first scale in
      the order of preference that fits, none when no scale does. */
  method PatternFor(steps: nat) returns (r: Option<(nat, nat)>)
    ensures r.None? <==> forall i | 0 <= i < |SCALE_PREF| :: !FitsScale(steps, SCALE_PREF[i])
    ensures r.Some? ==> IsPattern(steps, r.value.0, r.value.1)
  {
    for i := 0 to |SCALE_PREF|
      invariant forall j | 0 <= j < i :: !FitsScale(steps, SCALE_PREF[j])
    {
      var ticks, all := SCALE_TICKS[SCALE_PREF[i]], steps * 6;
      if all % ticks == 0 && 2 <= all / ticks <= 64 {
        DivBounds(all, ticks, all / ticks);
        return Some((all / ticks, SCALE_PREF[i]));
      }
    }
    return None;
  }

  // ---- one bar count ---------------------------------------------------------

  datatype FlTempo = FlTempo(tempo24: nat, bars: nat, len: nat, scale: nat, loop: nat)

  /** `steps` steps have a pattern. */
  ghost predicate HasPattern(steps: nat) {
    exists i | 0 <= i < |SCALE_PREF| :: FitsScale(steps, SCALE_PREF[i])
  }

  /** The take can be cut to a loop of `steps` steps between 30 and 300 BPM;
      at 30 BPM at most a thousandth of the loop may be cut. */
  ghost predicate Solvable(take: nat, steps: nat) {
    && HasPattern(steps)
    && Rounded(6 * steps, TEMPO24_MAX) <= take
    && (Rounded(6 * steps, TEMPO24_MIN) <= take ==>
          take - Rounded(6 * steps, TEMPO24_MIN) <= Rounded(6 * steps, TEMPO24_MIN) / 1000)
  }

  /** `h` is the slowest tempo whose loop of `ticks` ticks is no longer than the take. */
  ghost predicate Slowest(take: nat, ticks: nat, h: nat) {
    && TEMPO24_MIN <= h <= TEMPO24_MAX
    && Rounded(ticks, h) <= take
    && forall g | TEMPO24_MIN <= g < h :: Rounded(ticks, g) > take
  }

  /** The pattern of `steps` steps, in the preferred scale that fits. */
  ghost predicate IsPattern(steps: nat, len: nat, scale: nat) {
    && 2 <= len <= 64
    && exists i | 0 <= i < |SCALE_PREF| ::
      && scale == SCALE_PREF[i]
      && len * SCALE_TICKS[SCALE_PREF[i]] == 6 * steps
      && forall j | 0 <= j < i :: !FitsScale(steps, SCALE_PREF[j])
  }

  /** What a solved tempo promises for N bars of `steps` steps in all: the
      slowest tempo that does not pad the take, its loop, and a pattern of
      exactly those steps. */
  ghost predicate Solves(take: nat, steps: nat, bars: nat, f: FlTempo) {
    && Slowest(take, 6 * steps, f.tempo24)
    && f.loop == Rounded(6 * steps, f.tempo24)
    && f.bars == bars
    && IsPattern(steps, f.len, f.scale)
  }

  /** A pattern is at most 64 steps of 48 ticks. */
  lemma PatternTicks(steps: nat)
    requires HasPattern(steps)
    ensures 6 * steps <= MAX_TICKS
  {
    var i :| 0 <= i < |SCALE_PREF| && FitsScale(steps, SCALE_PREF[i]);
    DivBounds(steps * 6, SCALE_TICKS[SCALE_PREF[i]], steps * 6 / SCALE_TICKS[SCALE_PREF[i]]);
  }

  /** The tempo for `bars` bars over a take: a binary search between 30 and 300 BPM. */
  method TempoFor(take: nat, spb: nat, bars: nat) returns (r: Option<FlTempo>)
    requires take < TWO_32
    ensures r.Some? <==> Solvable(take, spb * bars)
    ensures r.Some? ==> Solves(take, spb * bars, bars, r.value)
  {
    var steps := spb * bars;
    var pattern := PatternFor(steps);
    if pattern.None? { return None; }
    var len, scale := pattern.value.0, pattern.value.1;
    var ticks := len * SCALE_TICKS[scale];
    assert ticks == 6 * steps;
    assert HasPattern(steps);
    PatternTicks(steps);
    LoopLenIsRounded(ticks, TEMPO24_MAX);
    LoopLenIsRounded(ticks, TEMPO24_MIN);
    if LoopLen(ticks, TEMPO24_MAX) > take { return None; }
    var lo, hi := TEMPO24_MIN, TEMPO24_MAX;
    if LoopLen(ticks, lo) <= take {
      if take - LoopLen(ticks, lo) > LoopLen(ticks, lo) / 1000 { return None; }
      hi := lo;
    }
    while hi - lo > 1
      invariant TEMPO24_MIN <= lo <= hi <= TEMPO24_MAX
      invariant Rounded(ticks, hi) <= take
      invariant hi > lo ==> Rounded(ticks, lo) > take
      invariant hi == lo ==> lo == TEMPO24_MIN
    {
      var mid := lo + (hi - lo) / 2;
      LoopLenIsRounded(ticks, mid);
      if LoopLen(ticks, mid) <= take { hi := mid; } else { lo := mid; }
    }
    forall g | TEMPO24_MIN <= g < hi ensures Rounded(ticks, g) > take {
      RoundedAntitone(ticks, g, lo);
    }
    LoopLenIsRounded(ticks, hi);
    return Some(FlTempo(hi, bars, len, scale, LoopLen(ticks, hi)));
  }

  /** The contract of TempoFor determines its result. */
  lemma SolvesUnique(take: nat, steps: nat, bars: nat, f: FlTempo, g: FlTempo)
    requires Solves(take, steps, bars, f) && Solves(take, steps, bars, g)
    ensures f == g
  {
    SlowestUnique(take, 6 * steps, f.tempo24, g.tempo24);
    PatternUnique(steps, f.len, f.scale, g.len, g.scale);
  }

  lemma SlowestUnique(take: nat, ticks: nat, f: nat, g: nat)
    requires Slowest(take, ticks, f) && Slowest(take, ticks, g)
    ensures f == g
  {
  }

  lemma PatternUnique(steps: nat, len: nat, scale: nat, len': nat, scale': nat)
    requires IsPattern(steps, len, scale) && IsPattern(steps, len', scale')
    ensures len == len' && scale == scale'
  {
    LenFits(steps, len, scale);
    LenFits(steps, len', scale');
  }

  lemma LenFits(steps: nat, len: nat, scale: nat)
    requires scale < |SCALE_TICKS| && len * SCALE_TICKS[scale] == 6 * steps && 2 <= len <= 64
    ensures FitsScale(steps, scale) && steps * 6 / SCALE_TICKS[scale] == len
  {
    DivUnique(steps * 6, SCALE_TICKS[scale], len);
  }

  /** A solved loop is no longer than its take, and shorter by at most one part in
      tempo24 of it. */
  lemma CutIsSmall(take: nat, steps: nat, bars: nat, f: FlTempo)
    requires Solvable(take, steps) && Solves(take, steps, bars, f)
    ensures f.loop <= take
    ensures f.tempo24 * (take - f.loop) <= take
  {
    var ticks, h := 6 * steps, f.tempo24;
    if h > TEMPO24_MIN {
      RoundedBounds(ticks, h - 1);
      RoundedBounds(ticks, h);
      CutBetween(ticks * SAMPLES_PER_TICK_X24, h, f.loop, Rounded(ticks, h - 1), take - f.loop);
    }
  }

  /** Between two neighbouring tempos the loop lengths differ by too little
      for a longer cut. */
  lemma CutBetween(x: nat, h: nat, loop: nat, slower: nat, d: nat)
    requires h > 1
    requires slower * (h - 1) <= x + (h - 1) / 2 && x + h / 2 < loop * h + h
    requires loop + d < slower
    ensures h * d <= loop + d
  {
    MulLe(loop + d + 1, slower, h - 1);
    assert (loop + d + 1) * (h - 1) == h * loop - loop + h * d - d + h - 1;
  }

  // ---- AUTO ------------------------------------------------------------------

  /** More bars over the same take: never a slower tempo. */
  lemma MoreBarsFaster(take: nat, fewer: nat, more: nat, f: nat, g: nat)
    requires fewer <= more
    requires Slowest(take, 6 * fewer, f) && Slowest(take, 6 * more, g)
    ensures f <= g
  {
    RoundedMonotone(6 * fewer, 6 * more, g);
  }

  /** N bars of `spb` steps solve to the tempo `f`, within lo..hi. */
  ghost predicate InRange(take: nat, spb: nat, bars: nat, lo: nat, hi: nat, f: FlTempo) {
    Solvable(take, spb * bars) && Solves(take, spb * bars, bars, f) && lo <= f.tempo24 <= hi
  }

  /** One bar count decides no tempo in range when its one solution is outside. */
  lemma OutOfRange(take: nat, spb: nat, bars: nat, lo: nat, hi: nat, got: FlTempo)
    requires Solves(take, spb * bars, bars, got) && !(lo <= got.tempo24 <= hi)
    ensures forall f :: !InRange(take, spb, bars, lo, hi, f)
  {
    forall f | Solves(take, spb * bars, bars, f) ensures f == got {
      SolvesUnique(take, spb * bars, bars, f, got);
    }
  }

  /** A tempo over the range at one bar count is over it at every larger one. */
  lemma RangeSkipped(take: nat, spb: nat, fewer: nat, more: nat, lo: nat, hi: nat, got: FlTempo)
    requires fewer <= more && Solves(take, spb * fewer, fewer, got) && got.tempo24 > hi
    ensures forall f :: !InRange(take, spb, more, lo, hi, f)
  {
    MulLe(fewer, more, spb);
    OverAtMoreSteps(take, spb * fewer, spb * more, more, hi, got);
  }

  lemma OverAtMoreSteps(take: nat, fewer: nat, more: nat, bars: nat, hi: nat, got: FlTempo)
    requires fewer <= more && Slowest(take, 6 * fewer, got.tempo24) && got.tempo24 > hi
    ensures forall f | Solves(take, more, bars, f) :: f.tempo24 > hi
  {
    forall f | Solves(take, more, bars, f) ensures f.tempo24 > hi {
      MoreBarsFaster(take, fewer, more, got.tempo24, f.tempo24);
    }
  }

  /** What the solver answers: the track's own bar count solved, or AUTO, the
      first of 1, 2, 4, 8, 16 bars that gives a tempo inside the range. */
  ghost predicate IsTempo(sig: nat, bars: nat, bpmLo: nat, bpmHi: nat, take: nat, r: Option<FlTempo>) {
    var spb := Spb(sig);
    if take == 0 then r.None?
    else if bars != 0 then
      && (r.Some? <==> Solvable(take, spb * bars))
      && (r.Some? ==> Solves(take, spb * bars, bars, r.value))
    else
      var lo, hi := 24 * (if bpmLo != 0 then bpmLo else DEF_LO), 24 * (if bpmHi != 0 then bpmHi else DEF_HI);
      && (r.None? <==> forall i, f | 0 <= i < |AUTO_BARS| :: !InRange(take, spb, AUTO_BARS[i], lo, hi, f))
      && (r.Some? ==> exists i | 0 <= i < |AUTO_BARS| ::
            && InRange(take, spb, AUTO_BARS[i], lo, hi, r.value)
            && forall j, f | 0 <= j < i :: !InRange(take, spb, AUTO_BARS[j], lo, hi, f))
  }

  /** The tempo of a free take. */
  method Tempo(sig: nat, bars: nat, bpmLo: nat, bpmHi: nat, take: nat) returns (r: Option<FlTempo>)
    requires take < TWO_32
    ensures IsTempo(sig, bars, bpmLo, bpmHi, take, r)
  {
    if take == 0 { return None; }
    var spb := Spb(sig);
    if bars != 0 {
      r := TempoFor(take, spb, bars);
      return;
    }
    var lo := 24 * (if bpmLo != 0 then bpmLo else DEF_LO);
    var hi := 24 * (if bpmHi != 0 then bpmHi else DEF_HI);
    for i := 0 to |AUTO_BARS|
      invariant forall j, f | 0 <= j < i :: !InRange(take, spb, AUTO_BARS[j], lo, hi, f)
    {
      var got := TempoFor(take, spb, AUTO_BARS[i]);
      if got.None? { continue; }
      if got.value.tempo24 < lo {
        OutOfRange(take, spb, AUTO_BARS[i], lo, hi, got.value);
        continue;
      }
      if got.value.tempo24 > hi {
        forall j, f | i <= j < |AUTO_BARS| ensures !InRange(take, spb, AUTO_BARS[j], lo, hi, f) {
          RangeSkipped(take, spb, AUTO_BARS[i], AUTO_BARS[j], lo, hi, got.value);
        }
        return None;
      }
      assert InRange(take, spb, AUTO_BARS[i], lo, hi, got.value);
      return got;
    }
    return None;
  }

  // ---- in the settings' own terms ------------------------------------------------------

  /** The signatures in their order: 4/4, 3/4, 6/8, 5/4, 7/8, 9/8, 12/8 and 2/4. A bar has
      as many steps as sixteenths; an unknown signature is 4/4. */
  lemma BarSteps(sig: nat)
    ensures var beats, unit := [4, 3, 6, 5, 7, 9, 12, 2], [4, 4, 8, 4, 8, 8, 8, 4];
      Spb(sig) == if sig < 8 then 16 * beats[sig] / unit[sig] else 16
  {
  }

  /** Steps fit a scale when a length of 2 to 64 of its steps lasts as long. */
  lemma FitsIs(steps: nat, scale: nat)
    requires scale < |SCALE_TICKS|
    ensures FitsScale(steps, scale) <==> exists len | 2 <= len <= 64 :: len * SCALE_TICKS[scale] == 6 * steps
  {
    var ticks := SCALE_TICKS[scale];
    if FitsScale(steps, scale) {
      DivBounds(steps * 6, ticks, steps * 6 / ticks);
      assert (steps * 6 / ticks) * SCALE_TICKS[scale] == 6 * steps;
    }
    if len :| 2 <= len <= 64 && len * SCALE_TICKS[scale] == 6 * steps { DivUnique(steps * 6, ticks, len); }
  }

  lemma ThousandthIs(take: nat, slow: nat)
    ensures (slow <= take ==> take - slow <= slow / 1000) <==> 1000 * (take - slow) <= slow
  {
  }

  lemma FastestIs(take: nat, ticks: nat)
    ensures Rounded(ticks, 7200) <= take <==> exists h | 720 <= h <= 7200 :: Rounded(ticks, h) <= take
  {
    if h :| 720 <= h <= 7200 && Rounded(ticks, h) <= take { RoundedAntitone(ticks, h, 7200); }
  }

  lemma PatternIs(steps: nat)
    ensures HasPattern(steps) <==>
      FitsScale(steps, 2) || FitsScale(steps, 4) || FitsScale(steps, 5) || FitsScale(steps, 6)
  {
    assert SCALE_PREF[0] == 2 && SCALE_PREF[1] == 4 && SCALE_PREF[2] == 5 && SCALE_PREF[3] == 6;
  }

  /** A take can be solved when the steps have a pattern, some tempo of 30 to 300 BPM has a
      loop no longer than it, and at 30 BPM no more than a thousandth of the loop is cut. */
  lemma SolvableIs(take: nat, steps: nat)
    ensures Solvable(take, steps) <==>
      && (FitsScale(steps, 2) || FitsScale(steps, 4) || FitsScale(steps, 5) || FitsScale(steps, 6))
      && (exists h | 720 <= h <= 7200 :: Rounded(6 * steps, h) <= take)
      && 1000 * (take - Rounded(6 * steps, 720)) <= Rounded(6 * steps, 720)
  {
    PatternIs(steps);
    FastestIs(take, 6 * steps);
    ThousandthIs(take, Rounded(6 * steps, 720));
  }
}
