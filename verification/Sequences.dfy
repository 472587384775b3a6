/** The members of a sequence that satisfy a condition, in their order. */
module Sequences {

  ghost function Filter<T(!new)>(s: seq<T>, p: T -> bool): seq<T> {
    if s == [] then [] else Filter(s[..|s| - 1], p) + if p(s[|s| - 1]) then [s[|s| - 1]] else []
  }

  /** Each such member is there, behind as many as there are before it. */
  lemma {:induction false} FilterHolds<T(!new)>(s: seq<T>, p: T -> bool, k: nat)
    requires k < |s| && p(s[k])
    ensures var j := |Filter(s[..k], p)|; j < |Filter(s, p)| && Filter(s, p)[j] == s[k]
    decreases |s|
  {
    var n := |s| - 1;
    if k < n {
      FilterHolds(s[..n], p, k);
      assert s[..n][..k] == s[..k];
    }
  }

  /** And nothing else is. */
  lemma {:induction false} FilterOnly<T(!new)>(s: seq<T>, p: T -> bool, j: nat)
    requires j < |Filter(s, p)|
    ensures exists k | 0 <= k < |s| :: p(s[k]) && Filter(s, p)[j] == s[k] && |Filter(s[..k], p)| == j
    decreases |s|
  {
    var n := |s| - 1;
    if j < |Filter(s[..n], p)| {
      FilterOnly(s[..n], p, j);
      var k :| 0 <= k < n && p(s[..n][k]) && Filter(s[..n], p)[j] == s[..n][k] && |Filter(s[..n][..k], p)| == j;
      assert s[..n][..k] == s[..k];
      assert p(s[k]) && Filter(s, p)[j] == s[k] && |Filter(s[..k], p)| == j;
    } else {
      assert p(s[n]) && Filter(s, p)[j] == s[n] && |Filter(s[..n], p)| == j;
    }
  }

  lemma {:induction false} FilterJoin<T(!new)>(a: seq<T>, b: seq<T>, p: T -> bool)
    ensures Filter(a + b, p) == Filter(a, p) + Filter(b, p)
  {
    if b == [] {
      assert a + b == a;
    } else {
      var n := |b| - 1;
      assert (a + b)[..|a + b| - 1] == a + b[..n];
      FilterJoin(a, b[..n], p);
    }
  }

  lemma FilterOne<T(!new)>(x: T, p: T -> bool)
    ensures Filter([x], p) == if p(x) then [x] else []
  {
    assert [x][..0] == [];
  }

  lemma {:induction false} FilterNone<T(!new)>(s: seq<T>, p: T -> bool)
    requires forall x | x in s :: !p(x)
    ensures Filter(s, p) == []
  {
    if s != [] { FilterNone(s[..|s| - 1], p); }
  }

  lemma {:induction false} FilterAll<T(!new)>(s: seq<T>, p: T -> bool)
    requires forall x | x in s :: p(x)
    ensures Filter(s, p) == s
  {
    if s != [] {
      FilterAll(s[..|s| - 1], p);
      assert s == s[..|s| - 1] + [s[|s| - 1]];
    }
  }
}
