/** CHORDS FACTORY: how far the voices of one chord move to the next
    (chords.c, `ch_cost`), a dynamic time warp over two ascending voicings. */
module VoiceCost {
  import opened Words

  /** The notes of a chord, lowest first. */
  type Voicing = seq<nat>

  ghost predicate Ascending(v: Voicing) {
    forall i, j | 0 <= i < j < |v| :: v[i] < v[j]
  }

  function Dist(x: nat, y: nat): nat {
    if x < y then y - x else x - y
  }

  // ---- what the cost means: alignments ---------------------------------------

  /** Voices matched in pairs, one index into each voicing. */
  type Pairs = seq<(nat, nat)>

  ghost predicate MatchesFirst(p: Pairs, i: nat) {
    exists k | 0 <= k < |p| :: p[k].0 == i
  }

  ghost predicate MatchesSecond(p: Pairs, j: nat) {
    exists k | 0 <= k < |p| :: p[k].1 == j
  }

  /** The pairs match only voices below m and n, in order, and every voice of
      each at least once. */
  ghost predicate Aligns(p: Pairs, m: nat, n: nat) {
    && (forall k | 0 <= k < |p| :: p[k].0 < m && p[k].1 < n)
    && (forall k, l | 0 <= k < l < |p| :: p[k].0 <= p[l].0 && p[k].1 <= p[l].1)
    && (forall i | 0 <= i < m :: MatchesFirst(p, i))
    && (forall j | 0 <= j < n :: MatchesSecond(p, j))
  }

  /** The summed distances of the matched voices. */
  ghost function Moved(a: Voicing, b: Voicing, p: Pairs): nat
    requires forall k | 0 <= k < |p| :: p[k].0 < |a| && p[k].1 < |b|
  {
    if p == [] then 0
    else
      var q, last := p[..|p| - 1], p[|p| - 1];
      Moved(a, b, q) + Dist(a[last.0], b[last.1])
  }

  /** `cost` is the least total move of any alignment of the two voicings. */
  ghost predicate IsLeastMove(a: Voicing, b: Voicing, cost: nat) {
    && (exists p: Pairs :: Aligns(p, |a|, |b|) && Moved(a, b, p) == cost)
    && (forall p: Pairs | Aligns(p, |a|, |b|) :: cost <= Moved(a, b, p))
  }

  // ---- the table --------------------------------------------------------------

  /** The table's entry: the cheapest way to have matched up to voices i and j. */
  function Warp(a: Voicing, b: Voicing, i: nat, j: nat): nat
    requires i < |a| && j < |b|
    decreases i + j, 1
  {
    Dist(a[i], b[j]) + Before(a, b, i, j)
  }

  /** The cheapest of the entries a pair (i, j) may follow. */
  function Before(a: Voicing, b: Voicing, i: nat, j: nat): nat
    requires i < |a| && j < |b|
    decreases i + j, 0
  {
    if i == 0 && j == 0 then 0
    else if i == 0 then Warp(a, b, i, j - 1)
    else if j == 0 then Warp(a, b, i - 1, j)
    else Min(Min(Warp(a, b, i - 1, j - 1), Warp(a, b, i - 1, j)), Warp(a, b, i, j - 1))
  }

  /** The voices' total move; no move when either chord is empty. */
  function Cost(a: Voicing, b: Voicing): nat {
    if a == [] || b == [] then 0 else Warp(a, b, |a| - 1, |b| - 1)
  }

  /** The table filled row by row. */
  method ComputeCost(prev: Voicing, next: Voicing) returns (cost: nat)
    ensures cost == Cost(prev, next)
  {
    var m, n := |prev|, |next|;
    if m == 0 || n == 0 { return 0; }
    var d := new nat[m, n];
    for i := 0 to m
      invariant forall r, s | 0 <= r < i && 0 <= s < n :: d[r, s] == Warp(prev, next, r, s)
    {
      for j := 0 to n
        invariant forall r, s | 0 <= r < i && 0 <= s < n :: d[r, s] == Warp(prev, next, r, s)
        invariant forall s | 0 <= s < j :: d[i, s] == Warp(prev, next, i, s)
      {
        var c, best := Dist(prev[i], next[j]), 0;
        if i == 0 && j == 0 {
          best := 0;
        } else if i == 0 {
          best := d[i, j - 1];
        } else if j == 0 {
          best := d[i - 1, j];
        } else {
          best := d[i - 1, j - 1];
          if d[i - 1, j] < best { best := d[i - 1, j]; }
          if d[i, j - 1] < best { best := d[i, j - 1]; }
        }
        assert best == Before(prev, next, i, j);
        d[i, j] := best + c;
      }
    }
    return d[m - 1, n - 1];
  }

  // ---- the table's last entry is the least move ------------------------------

  lemma LastPair(p: Pairs, m: nat, n: nat)
    requires Aligns(p, m, n) && m > 0 && n > 0
    ensures p != [] && p[|p| - 1] == (m - 1, n - 1)
  {
    assert MatchesFirst(p, m - 1) && MatchesSecond(p, n - 1);
  }

  /** Without its last pair an alignment aligns the voices up to the pair
      before it, which is at most one voice back on each side. */
  lemma DropLast(p: Pairs, m: nat, n: nat)
    requires Aligns(p, m, n) && m > 0 && n > 0 && |p| > 1
    ensures var q := p[..|p| - 1];
      var (i, j) := q[|q| - 1];
      && m - 2 <= i <= m - 1 && n - 2 <= j <= n - 1
      && Aligns(q, i + 1, j + 1)
  {
    LastPair(p, m, n);
    var q := p[..|p| - 1];
    var (i, j) := q[|q| - 1];
    assert forall k | 0 <= k < |q| :: q[k] == p[k] && q[k].0 <= i && q[k].1 <= j;
    assert m >= 2 ==> MatchesFirst(p, m - 2);
    assert n >= 2 ==> MatchesSecond(p, n - 2);
    forall r: nat | r < i + 1 ensures MatchesFirst(q, r) {
      assert MatchesFirst(p, r);
      var k :| 0 <= k < |p| && p[k].0 == r;
      assert q[if k < |q| then k else |q| - 1].0 == r;
    }
    forall r: nat | r < j + 1 ensures MatchesSecond(q, r) {
      assert MatchesSecond(p, r);
      var k :| 0 <= k < |p| && p[k].1 == r;
      assert q[if k < |q| then k else |q| - 1].1 == r;
    }
  }

  /** A single pair aligns only single voices. */
  lemma SinglePair(p: Pairs, m: nat, n: nat)
    requires Aligns(p, m, n) && |p| == 1
    ensures m <= 1 && n <= 1
  {
    assert m > 1 ==> MatchesFirst(p, 0) && MatchesFirst(p, 1);
    assert n > 1 ==> MatchesSecond(p, 0) && MatchesSecond(p, 1);
  }

  lemma WarpStep(a: Voicing, b: Voicing, i: nat, j: nat, r: nat, s: nat)
    requires i < |a| && j < |b| && i - 1 <= r <= i && j - 1 <= s <= j
    ensures Warp(a, b, i, j) <= Dist(a[i], b[j]) + Warp(a, b, r, s)
  {
  }

  /** No alignment moves the voices less than the table says. */
  lemma {:induction false} WarpIsLower(a: Voicing, b: Voicing, p: Pairs, i: nat, j: nat)
    requires i < |a| && j < |b| && Aligns(p, i + 1, j + 1)
    ensures Warp(a, b, i, j) <= Moved(a, b, p)
    decreases |p|
  {
    LastPair(p, i + 1, j + 1);
    if |p| == 1 {
      SinglePair(p, i + 1, j + 1);
    } else {
      DropLast(p, i + 1, j + 1);
      var q := p[..|p| - 1];
      var (r, s) := q[|q| - 1];
      WarpIsLower(a, b, q, r, s);
      WarpStep(a, b, i, j, r, s);
    }
  }

  lemma CheapestBefore(a: Voicing, b: Voicing, i: nat, j: nat) returns (r: nat, s: nat)
    requires i < |a| && j < |b| && (i > 0 || j > 0)
    ensures i - 1 <= r <= i && j - 1 <= s <= j && r + s < i + j
    ensures Before(a, b, i, j) == Warp(a, b, r, s)
  {
    if i == 0 || (j > 0 && Before(a, b, i, j) == Warp(a, b, i, j - 1)) {
      r, s := i, j - 1;
    } else if j == 0 || Before(a, b, i, j) == Warp(a, b, i - 1, j) {
      r, s := i - 1, j;
    } else {
      r, s := i - 1, j - 1;
    }
  }

  /** Some alignment moves the voices exactly as the table says. */
  lemma {:induction false} WarpIsReached(a: Voicing, b: Voicing, i: nat, j: nat) returns (p: Pairs)
    requires i < |a| && j < |b|
    ensures Aligns(p, i + 1, j + 1) && Moved(a, b, p) == Warp(a, b, i, j)
    decreases i + j
  {
    if i == 0 && j == 0 {
      p := [(0, 0)];
      assert p[0] == (0, 0);
    } else {
      var r, s := CheapestBefore(a, b, i, j);
      var q := WarpIsReached(a, b, r, s);
      p := q + [(i, j)];
      Extend(q, r, s, i, j);
      assert p[..|p| - 1] == q;
    }
  }

  lemma Extend(q: Pairs, r: nat, s: nat, i: nat, j: nat)
    requires Aligns(q, r + 1, s + 1) && i - 1 <= r <= i && j - 1 <= s <= j
    ensures Aligns(q + [(i, j)], i + 1, j + 1)
  {
    var p := q + [(i, j)];
    assert p[|q|] == (i, j);
    forall v: nat | v < i + 1 ensures MatchesFirst(p, v) {
      if v < i {
        assert MatchesFirst(q, v);
        var k :| 0 <= k < |q| && q[k].0 == v;
        assert p[k].0 == v;
      }
    }
    forall v: nat | v < j + 1 ensures MatchesSecond(p, v) {
      if v < j {
        assert MatchesSecond(q, v);
        var k :| 0 <= k < |q| && q[k].1 == v;
        assert p[k].1 == v;
      }
    }
  }

  /** The cost of two chords is the least total move over all alignments. */
  lemma CostIsLeastMove(a: Voicing, b: Voicing)
    requires a != [] && b != []
    ensures IsLeastMove(a, b, Cost(a, b))
  {
    var p := WarpIsReached(a, b, |a| - 1, |b| - 1);
    forall p: Pairs | Aligns(p, |a|, |b|) ensures Cost(a, b) <= Moved(a, b, p) {
      WarpIsLower(a, b, p, |a| - 1, |b| - 1);
    }
  }

  // ---- what follows -------------------------------------------------------------

  lemma {:induction false} WarpSymmetric(a: Voicing, b: Voicing, i: nat, j: nat)
    requires i < |a| && j < |b|
    ensures Warp(a, b, i, j) == Warp(b, a, j, i)
  {
    if i > 0 { WarpSymmetric(a, b, i - 1, j); }
    if j > 0 { WarpSymmetric(a, b, i, j - 1); }
    if i > 0 && j > 0 { WarpSymmetric(a, b, i - 1, j - 1); }
  }

  /** Moving from one chord to another costs what moving back does. */
  lemma CostSymmetric(a: Voicing, b: Voicing)
    ensures Cost(a, b) == Cost(b, a)
  {
    if a != [] && b != [] { WarpSymmetric(a, b, |a| - 1, |b| - 1); }
  }

  lemma {:induction false} NoMove(a: Voicing, b: Voicing, i: nat, j: nat)
    requires i < |a| && j < |b| && Ascending(a) && Ascending(b)
    requires Warp(a, b, i, j) == 0
    ensures i == j && a[..i + 1] == b[..j + 1]
  {
    assert a[i] == b[j];
    assert i > 0 ==> Warp(a, b, i - 1, j) >= Dist(a[i - 1], b[j]) > 0;
    assert j > 0 ==> Warp(a, b, i, j - 1) >= Dist(a[i], b[j - 1]) > 0;
    if i > 0 && j > 0 {
      NoMove(a, b, i - 1, j - 1);
      assert a[..i + 1] == a[..i] + [a[i]] && b[..j + 1] == b[..j] + [b[j]];
    }
  }

  lemma {:induction false} StayPut(a: Voicing, i: nat)
    requires i < |a|
    ensures Warp(a, a, i, i) == 0
  {
    if i > 0 { StayPut(a, i - 1); }
  }

  /** No move exactly between equal chords. */
  lemma CostZero(a: Voicing, b: Voicing)
    requires a != [] && b != [] && Ascending(a) && Ascending(b)
    ensures Cost(a, b) == 0 <==> a == b
  {
    if Cost(a, b) == 0 {
      NoMove(a, b, |a| - 1, |b| - 1);
      assert a[..|a|] == a && b[..|b|] == b;
    } else if a == b {
      StayPut(a, |a| - 1);
    }
  }
}
