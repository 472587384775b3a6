/** EUCLID's swung grid (control.c, `swing_at`): when the event at each grid
    point sounds. */
module EuclidSwing {
  import opened Words
  import opened EuclidClock

  /** The track's settings; `mask` is its swing mask, a flag per step. */
  datatype Params = Params(freq: nat, depth: nat, steps: nat, pulses: nat, rotate: nat, rate: nat,
                           attack: nat, decay: nat, mode: nat, scale: nat, length: nat, swing: nat, mask: seq<bool>) {
    /** The ranges the publisher keeps: knobs of seven bits, the scales'
        ticks, a length of 1..64 and a swing of at most 30. */
    predicate Valid() {
      && freq < 0x1_0000 && depth < 0x1_0000 && attack < 128 && decay < 128
      && 1 <= scale <= 48 && 1 <= length <= 64 && swing <= 30 && |mask| == 64
    }
  }

  function Step(p: Params, q: nat): nat
    requires p.Valid()
  {
    q / (2 * p.scale) % p.length
  }

  /** Between its step's flag and the next one's. */
  function Blend(here: bool, after: bool, frac: nat, d: nat): nat
    requires frac <= d
  {
    (if here then d - frac else 0) + if after then frac else 0
  }

  /** The swing's weight at a grid point, interpolated between its step and the next. */
  function Weight(p: Params, q: nat): nat
    requires p.Valid()
  {
    var a := Step(p, q);
    Blend(p.mask[a], p.mask[(a + 1) % p.length], q % (2 * p.scale), 2 * p.scale)
  }

  /** A swing setting's delay for a weight, as the 32-bit code computes it. */
  function Delay(swing: nat, scale: nat, weight: nat): nat
    requires scale > 0
  {
    W32(W32(swing * 52920 * scale) / (2 * scale) * weight)
  }

  /** The delay of the event at grid point q, in clock units. */
  function SwingAt(p: Params, q: nat): nat
    requires p.Valid()
  {
    Delay(p.swing, p.scale, Weight(p, q))
  }

  /** The clock time of the event at grid point q. */
  function EventTime(p: Params, q: nat): nat
    requires p.Valid()
  {
    q * QUANTUM + SwingAt(p, q)
  }

  lemma WeightBound(p: Params, q: nat)
    requires p.Valid()
    ensures Weight(p, q) <= 2 * p.scale
  {
  }

  lemma FullSwing(swing: nat, scale: nat)
    requires swing <= 30 && 1 <= scale <= 48
    ensures W32(swing * 52920 * scale) / (2 * scale) == swing * 26460
  {
    var s, d := swing * 26460, 2 * scale;
    assert swing * 52920 * scale == s * d;
    MulLe(s, 793800, d);
    DivUnique(s * d, d, s);
  }

  /** No product of the swing leaves its word, and the delay is exact. */
  lemma DelayExact(swing: nat, scale: nat, weight: nat)
    requires swing <= 30 && 1 <= scale <= 48 && weight <= 2 * scale
    ensures Delay(swing, scale, weight) == (swing * 26460) * weight <= 76204800
  {
    FullSwing(swing, scale);
    MulLe(swing * 26460, 793800, weight);
  }

  lemma NextInStep(q: nat, d: nat)
    requires d > 0
    ensures q % d + 1 < d ==> (q + 1) / d == q / d && (q + 1) % d == q % d + 1
    ensures q % d + 1 == d ==> (q + 1) / d == q / d + 1 && (q + 1) % d == 0
  {
    assert q == (q / d) * d + q % d;
    if q % d + 1 < d {
      DivUnique(q + 1, d, q / d);
    } else {
      assert (q / d + 1) * d == (q / d) * d + d;
      DivUnique(q + 1, d, q / d + 1);
    }
  }

  /** The step after a step of the cycle is the next one's step. */
  lemma NextOfStep(s: nat, length: nat)
    requires length > 0
    ensures (s % length + 1) % length == (s + 1) % length
  {
    NextInStep(s, length);
    if s % length + 1 == length {
      DivUnique(length, length, 1);
    } else {
      DivUnique(s % length + 1, length, 0);
    }
  }

  /** From one grid point to the next the weight changes by at most one. */
  lemma WeightStep(p: Params, q: nat)
    requires p.Valid()
    ensures -1 <= Weight(p, q + 1) as int - Weight(p, q) as int <= 1
  {
    var d := 2 * p.scale;
    var here, after := p.mask[Step(p, q)], p.mask[(Step(p, q) + 1) % p.length];
    NextInStep(q, d);
    if q % d + 1 < d {
      assert Weight(p, q + 1) == Blend(here, after, q % d + 1, d);
    } else {
      NextOfStep(q / d, p.length);
      assert Step(p, q + 1) == (Step(p, q) + 1) % p.length;
    }
  }

  lemma ScaledStep(s: nat, w: nat, w': nat)
    requires s <= 793800 && w <= w' + 1
    ensures s * w < s * w' + QUANTUM
  {
    MulLe(w, w' + 1, s);
    MulDist(s, w', 1);
  }

  lemma LaterByOne(swing: nat, scale: nat, w: nat, w': nat)
    requires swing <= 30 && 1 <= scale <= 48 && w <= 2 * scale && w' <= 2 * scale && w <= w' + 1
    ensures Delay(swing, scale, w) < QUANTUM + Delay(swing, scale, w')
  {
    DelayExact(swing, scale, w);
    DelayExact(swing, scale, w');
    ScaledStep(swing * 26460, w, w');
  }

  lemma EventTimeStep(p: Params, q: nat)
    requires p.Valid()
    ensures EventTime(p, q) < EventTime(p, q + 1)
  {
    WeightStep(p, q);
    LaterByOne(p.swing, p.scale, Weight(p, q), Weight(p, q + 1));
  }

  /** Swung events keep the order of the grid, for every mask and swing. */
  lemma {:induction false} SwingKeepsOrder(p: Params, q: nat, r: nat)
    requires p.Valid() && q < r
    ensures EventTime(p, q) < EventTime(p, r)
    decreases r
  {
    EventTimeStep(p, r - 1);
    if q < r - 1 { SwingKeepsOrder(p, q, r - 1); }
  }

  /** The event at grid point q is due at the clock. */
  predicate Due(p: Params, c: Position, q: nat)
    requires p.Valid()
  {
    EventTime(p, q) <= c.quantum * QUANTUM + c.remainder
  }

  /** Stopping at the first event not due skips none that is. */
  lemma NoneDueBeyond(p: Params, c: Position, q: nat)
    requires p.Valid() && !Due(p, c, q)
    ensures forall r | r >= q :: !Due(p, c, r)
  {
    forall r | r >= q ensures !Due(p, c, r) {
      if r > q { SwingKeepsOrder(p, q, r); }
    }
  }

  /** A due event lies at or before the clock's own grid point. */
  lemma DueIsPast(p: Params, c: Position, q: nat)
    requires p.Valid() && Due(p, c, q) && c.remainder < QUANTUM
    ensures q <= c.quantum
  {
  }
}
