/** Bytes and big-endian words, as BRAIN's files hold them. */
module Bytes {
  import opened Words

  type byte = x: nat | x < 0x100
  type u32 = x: nat | x < TWO_32

  function Be16(b: seq<byte>, i: nat): nat
    requires i + 2 <= |b|
  {
    (b[i] as nat) * 0x100 + b[i + 1]
  }

  function Be32(b: seq<byte>, i: nat): nat
    requires i + 4 <= |b|
  {
    (b[i] as nat) * 0x100_0000 + (b[i + 1] as nat) * 0x1_0000 + (b[i + 2] as nat) * 0x100 + b[i + 3]
  }

  function Enc16(v: nat): (b: seq<byte>)
    ensures |b| == 2
  {
    [v / 0x100 % 0x100, v % 0x100]
  }

  function Enc32(v: nat): (b: seq<byte>)
    ensures |b| == 4
  {
    [v / 0x100_0000 % 0x100, v / 0x1_0000 % 0x100, v / 0x100 % 0x100, v % 0x100]
  }

  /** A word written at i reads back. */
  lemma Read16(b: seq<byte>, i: nat, v: nat)
    requires i + 2 <= |b| && b[i..i + 2] == Enc16(v) && v < 0x1_0000
    ensures Be16(b, i) == v
  {
    assert b[i] == b[i..i + 2][0] && b[i + 1] == b[i..i + 2][1];
  }

  lemma Read32(b: seq<byte>, i: nat, v: nat)
    requires i + 4 <= |b| && b[i..i + 4] == Enc32(v) && v < TWO_32
    ensures Be32(b, i) == v
  {
    forall k | 0 <= k < 4 ensures b[i + k] == Enc32(v)[k] { assert b[i + k] == b[i..i + 4][k]; }
    assert b[i] == b[i + 0];
    Digits(v);
  }

  lemma Digits(v: nat)
    requires v < TWO_32
    ensures v == (v / 0x100_0000 % 0x100) * 0x100_0000 + (v / 0x1_0000 % 0x100) * 0x1_0000
              + (v / 0x100 % 0x100) * 0x100 + v % 0x100
  {
  }

  /** The most significant byte comes first. */
  lemma BigEndian()
    ensures Be16([1, 2], 0) == 0x102 && Be32([1, 2, 3, 4], 0) == 0x102_0304
    ensures Enc16(0x102) == [1, 2] && Enc32(0x102_0304) == [1, 2, 3, 4]
  {
  }

  /** n rounded up to a multiple of four. */
  function Align4(n: nat): (m: nat)
    ensures n <= m < n + 4 && m % 4 == 0
    ensures n % 4 == 0 ==> m == n
  {
    (n + 3) / 4 * 4
  }

  function Zeros(n: nat): (z: seq<byte>)
    ensures |z| == n && forall i | 0 <= i < n :: z[i] == 0
  {
    seq(n, _ => 0)
  }
}
