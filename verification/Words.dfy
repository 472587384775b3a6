/** Machine words and the option type shared by the engines. */
module Words {

  const TWO_32 := 0x1_0000_0000

  /** The value a 32-bit unsigned register keeps of `x`. */
  function W32(x: int): (w: nat)
    ensures w < TWO_32
    ensures 0 <= x < TWO_32 ==> w == x
  {
    x % TWO_32
  }

  function Min(a: nat, b: nat): nat {
    if a < b then a else b
  }

  datatype Option<+T> = None | Some(value: T)

  // ---- products and quotients ------------------------------------------------

  lemma MulLe(a: int, b: int, c: int)
    requires a <= b && 0 <= c
    ensures a * c <= b * c
  {
  }

  lemma MulDist(c: int, a: int, b: int)
    ensures (a + b) * c == a * c + b * c
  {
  }

  lemma DivBounds(x: int, d: int, k: int)
    requires d > 0 && k == x / d
    ensures k * d <= x < k * d + d && x % d == x - k * d
    ensures 0 <= x ==> 0 <= k <= x
  {
    assert x == (x / d) * d + x % d;
    if 0 <= x {
      if k < 0 { MulLe(k + 1, 0, d); }
      MulLe(1, d, if k < 0 then 0 else k);
    }
  }

  /** A quotient and a remainder are known by their bounds. */
  lemma DivUnique(x: int, d: int, k: int)
    requires d > 0 && k * d <= x < k * d + d
    ensures x / d == k && x % d == x - k * d
  {
    DivBounds(x, d, x / d);
    if x / d < k {
      MulLe(x / d + 1, k, d);
    } else if x / d > k {
      MulLe(k + 1, x / d, d);
    }
    assert x == (x / d) * d + x % d;
  }
}
