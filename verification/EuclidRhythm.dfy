/** EUCLID's rhythm (control.c, `eu_pulse`): k pulses spread over n steps. */
module EuclidRhythm {
  import opened Words

  /** Step i of the cycle is a pulse. */
  predicate Pulse(i: nat, n: nat, k: nat)
    requires n > 0
  {
    k != 0 && i * k % n < k
  }

  /** The pulses among the steps from a to b - 1. */
  function Pulses(a: nat, b: nat, n: nat, k: nat): nat
    requires n > 0 && a <= b
    decreases b - a
  {
    if a == b then 0 else Pulses(a, b - 1, n, k) + if Pulse(b - 1, n, k) then 1 else 0
  }

  /** floor(i k / n), the line the pulses follow; i may be -1. */
  function Line(i: int, n: nat, k: nat): int
    requires n > 0
  {
    i * k / n
  }

  /** A pulse is a step of the line up by one; the line never steps further. */
  lemma PulseIsStep(i: nat, n: nat, k: nat)
    requires n > 0 && k <= n
    ensures Line(i, n, k) - Line(i - 1, n, k) == if Pulse(i, n, k) then 1 else 0
  {
    var x := i * k;
    assert (i - 1) * k == x - k;
    DivBounds(x, n, x / n);
    var q, r := x / n, x % n;
    if Pulse(i, n, k) {
      assert (q - 1) * n == q * n - n;
      DivUnique(x - k, n, q - 1);
    } else {
      DivUnique(x - k, n, q);
    }
  }

  /** The pulses of any window number the line's rise over it. */
  lemma {:induction false} WindowCount(a: nat, b: nat, n: nat, k: nat)
    requires n > 0 && k <= n && a <= b
    ensures Pulses(a, b, n, k) == Line(b - 1, n, k) - Line(a - 1, n, k)
    decreases b - a
  {
    if a < b {
      WindowCount(a, b - 1, n, k);
      PulseIsStep(b - 1, n, k);
    }
  }

  /** Whole multiples come out of a quotient. */
  lemma AddWhole(x: int, n: nat, k: nat)
    requires n > 0
    ensures (x + n * k) / n == x / n + k && (x + n * k) % n == x % n
  {
    var q := x / n;
    DivBounds(x, n, q);
    MulDist(n, q, k);
    DivUnique(x + n * k, n, q + k);
  }

  /** A cycle on, the line is k higher. */
  lemma LineCycle(i: int, n: nat, k: nat)
    requires n > 0
    ensures Line(i + n, n, k) == Line(i, n, k) + k
  {
    MulDist(k, i, n);
    AddWhole(i * k, n, k);
  }

  /** Any full cycle has exactly k pulses. */
  lemma FullCycle(a: nat, n: nat, k: nat)
    requires n > 0 && k <= n
    ensures Pulses(a, a + n, n, k) == k
  {
    WindowCount(a, a + n, n, k);
    LineCycle(a - 1, n, k);
  }

  /** The rise over `len` steps, wherever they start, is one of two neighbours. */
  lemma RiseIsEven(i: int, len: nat, n: nat, k: nat)
    requires n > 0
    ensures len * k / n <= Line(i + len, n, k) - Line(i, n, k) <= len * k / n + 1
  {
    var x, y := i * k, len * k;
    assert (i + len) * k == x + y;
    DivBounds(x, n, x / n);
    DivBounds(y, n, y / n);
    DivBounds(x + y, n, (x + y) / n);
    var p, q, s := x / n, y / n, (x + y) / n;
    Between(s, p, q, n, x, y);
  }

  lemma Between(s: int, p: int, q: int, n: nat, x: int, y: int)
    requires n > 0 && p * n <= x < p * n + n && q * n <= y < q * n + n && s * n <= x + y < s * n + n
    ensures q <= s - p <= q + 1
  {
    assert (p + q) * n == p * n + q * n;
    if s < p + q {
      assert (p + q - s) * n == (p + q) * n - s * n;
      MulLe(1, p + q - s, n);
    } else if s > p + q + 1 {
      assert (s - p - q - 1) * n == s * n - (p + q) * n - n;
      MulLe(1, s - p - q - 1, n);
    }
  }

  /** Maximally even: windows of one length differ by at most one pulse. */
  lemma MaximallyEven(a: nat, b: nat, len: nat, n: nat, k: nat)
    requires n > 0 && k <= n
    ensures -1 <= Pulses(a, a + len, n, k) as int - Pulses(b, b + len, n, k) as int <= 1
  {
    WindowCount(a, a + len, n, k);
    WindowCount(b, b + len, n, k);
    RiseIsEven(a - 1, len, n, k);
    RiseIsEven(b - 1, len, n, k);
  }

  /** The cycle repeats: a step and the step a cycle later agree. */
  lemma PulseRepeats(i: nat, n: nat, k: nat)
    requires n > 0
    ensures Pulse(i + n, n, k) <==> Pulse(i, n, k)
  {
    MulDist(k, i, n);
    AddWhole(i * k, n, k);
  }
}
