/** CHORDS FACTORY's built voicings (chords.c, `ch_build`). */
module ChordBuild {
  import opened ChordTypes

  const CLOSE := 0
  const DROP2 := 1
  const DROP3 := 2
  const OPEN := 3
  const BASS := 4
  const TENTH := 5
  const WIDE := 6
  const SPREADS := 7

  // ---- what is built -------------------------------------------------------------

  /** The least number above `x` with remainder `pc` in the octave. */
  function NextAbove(x: int, pc: int): (y: int)
    ensures x < y <= x + 12 && y % 12 == pc % 12
  {
    x + 1 + (pc - (x + 1)) % 12
  }

  /** The pitch class of voice k: the chord's classes in order from the inversion's. */
  function VoiceClass(root: nat, t: seq<nat>, inv: nat, k: nat): (pc: nat)
    requires WellFormed(t) && inv < |t| && k < |t|
    ensures pc < 12
  {
    (root + t[if inv + k < |t| then inv + k else inv + k - |t|]) % 12
  }

  /** Close position: the first voice in the octave, each next the nearest above. */
  function CloseVoice(root: nat, t: seq<nat>, inv: nat, octave: nat, k: nat): int
    requires WellFormed(t) && inv < |t| && k < |t|
  {
    if k == 0 then 12 * octave + VoiceClass(root, t, inv, 0)
    else NextAbove(CloseVoice(root, t, inv, octave, k - 1), VoiceClass(root, t, inv, k))
  }

  /** The octaves a drop or an open position moves voice k of n. */
  function Dropped(spread: nat, n: nat, k: nat): int {
    if spread == DROP2 && n >= 3 then (if k == n - 2 then -1 else 0)
    else if spread == DROP3 && n >= 4 then (if k == n - 3 then -1 else 0)
    else if (spread == OPEN || spread == BASS || spread == DROP3) && n >= 3 then
      if n == 4 then (if k == 0 || k == 2 then -1 else 0) else if k == 1 then 1 else 0
    else 0
  }

  /** The octaves the wide spreads move voice k. */
  function Raised(spread: nat, k: nat): int {
    if spread == TENTH && k > 0 then 1 else if spread == WIDE then k else 0
  }

  function Octaves(spread: nat, n: nat, k: nat): int {
    Dropped(spread, n, k) + Raised(spread, k)
  }

  function CloseOf(root: nat, t: seq<nat>, inv: nat, octave: nat): seq<int>
    requires WellFormed(t) && inv < |t|
  {
    seq(|t|, k requires 0 <= k < |t| => CloseVoice(root, t, inv, octave, k))
  }

  function SpreadOf(close: seq<int>, spread: nat): seq<int> {
    seq(|close|, k requires 0 <= k < |close| => close[k] + 12 * Octaves(spread, |close|, k))
  }

  ghost predicate IsLowest(v: seq<int>, b: nat) {
    && b < |v|
    && (forall k | 0 <= k < |v| :: v[b] <= v[k])
    && (forall k | 0 <= k < b :: v[b] < v[k])
  }

  /** `v` is `plain`, or for BASS `plain` with its lowest voice an octave down. */
  ghost predicate BassLowered(spread: nat, plain: seq<int>, v: seq<int>) {
    if spread == BASS then exists b | 0 <= b < |plain| :: IsLowest(plain, b) && v == plain[b := plain[b] - 12]
    else v == plain
  }

  /** The spread voices of the close position. */
  ghost predicate IsSpread(root: nat, t: seq<nat>, inv: nat, octave: nat, spread: nat, v: seq<int>)
    requires WellFormed(t) && inv < |t|
  {
    BassLowered(spread, SpreadOf(CloseOf(root, t, inv, octave), spread), v)
  }

  /** The octaves that bring a span into 0..127: up only as far as the lowest
      needs, then down only as far as the highest needs. */
  ghost predicate IsShift(lo: int, hi: int, shift: int) {
    exists up: int, down: int ::
      && shift == 12 * up - 12 * down && up >= 0 && down >= 0
      && lo + 12 * up >= 0 && (up > 0 ==> lo + 12 * (up - 1) < 0)
      && hi + shift <= NOTE_MAX && (down > 0 ==> hi + shift + 12 > NOTE_MAX)
  }

  // ---- the steps ----------------------------------------------------------------

  /** Insertion sort of the first n, in place. */
  method Sort(a: array<int>, n: nat)
    requires n <= a.Length
    modifies a
    ensures forall i, j | 0 <= i < j < n :: a[i] <= a[j]
    ensures multiset(a[..n]) == multiset(old(a[..n]))
    ensures forall k | n <= k < a.Length :: a[k] == old(a[k])
  {
    for i := 0 to n
      invariant forall p, r | 0 <= p < r < i :: a[p] <= a[r]
      invariant multiset(a[..n]) == multiset(old(a[..n])) && forall k | n <= k < a.Length :: a[k] == old(a[k])
    {
      var j := i;
      while j > 0 && a[j - 1] > a[j]
        invariant 0 <= j <= i
        invariant forall p, r | 0 <= p < r <= i && r != j :: a[p] <= a[r]
        invariant multiset(a[..n]) == multiset(old(a[..n])) && forall k | n <= k < a.Length :: a[k] == old(a[k])
      {
        SwapDown(a, n, j);
        j := j - 1;
      }
    }
  }

  method SwapDown(a: array<int>, n: nat, j: nat)
    requires 0 < j < n <= a.Length
    modifies a
    ensures a[j] == old(a[j - 1]) && a[j - 1] == old(a[j])
    ensures forall i | 0 <= i < a.Length && i != j && i != j - 1 :: a[i] == old(a[i])
    ensures forall k | n <= k < a.Length :: a[k] == old(a[k])
    ensures multiset(a[..n]) == multiset(old(a[..n]))
  {
    ghost var was := a[..n];
    a[j], a[j - 1] := a[j - 1], a[j];
    assert a[..n] == was[j := was[j - 1]][j - 1 := was[j]];
  }

  // ---- the build ---------------------------------------------------------------

  const NONE := 255

  function TypeOf(kind: nat): seq<nat> {
    TYPES[if kind < |TYPES| then kind else 0]
  }

  /** An inversion past the last is the last. */
  function InversionOf(t: seq<nat>, inversion: nat): nat
    requires t != []
  {
    if inversion < |t| then inversion else |t| - 1
  }

  function MovedBy(v: seq<int>, shift: int): seq<int> {
    seq(|v|, k requires 0 <= k < |v| => v[k] + shift)
  }

  /** `v` moved by `shift` lies in 0..127, its lowest and highest as near as octaves allow. */
  ghost predicate Shifted(v: seq<int>, shift: int) {
    exists lo: int, hi: int :: lo in v && hi in v && (forall x | x in v :: lo <= x <= hi) && IsShift(lo, hi, shift)
  }

  /** The voicing the parameters ask for: the spread voices, shifted and sorted. */
  ghost predicate IsBuilt(root: nat, kind: nat, inversion: nat, spread: nat, octave: nat, notes: seq<int>) {
    TypesWellFormed(if kind < |TYPES| then kind else 0);
    var t := TypeOf(kind);
    exists v: seq<int>, shift: int ::
      && IsSpread(root % 12, t, InversionOf(t, inversion), octave, spread, v) && Shifted(v, shift)
      && multiset(notes) == multiset(MovedBy(v, shift))
      && forall i, j | 0 <= i < j < |notes| :: notes[i] <= notes[j]
  }

  method NearestAbove(below: int, pc: nat) returns (x: int)
    requires below >= 0 && pc < 12
    ensures x == NextAbove(below, pc)
  {
    x := below - below % 12 + pc;
    while x <= below
      invariant x % 12 == pc && below - 12 < x <= below + 12
      decreases below + 12 - x
    {
      x := x + 12;
    }
    IsNextAbove(below, x, pc);
  }

  lemma IsNextAbove(x: int, y: int, pc: int)
    requires x < y <= x + 12 && y % 12 == pc
    ensures y == NextAbove(x, pc)
  {
  }

  lemma Wraps(i: nat, n: nat)
    requires 0 < n && i < 2 * n
    ensures i % n == if i < n then i else i - n
  {
    if i >= n {
      assert i == n + (i - n);
    }
  }

  method CloseVoices(root: nat, t: seq<nat>, inv: nat, octave: nat, v: array<int>)
    requires WellFormed(t) && inv < |t| && v.Length == VOICES
    modifies v
    ensures forall k | 0 <= k < |t| :: v[k] == CloseVoice(root, t, inv, octave, k)
  {
    v[0] := octave * 12 + (root + t[inv]) % 12;
    for k := 1 to |t|
      invariant forall i | 0 <= i < k :: v[i] == CloseVoice(root, t, inv, octave, i) >= 0
    {
      Wraps(inv + k, |t|);
      var pc := (root + t[(inv + k) % |t|]) % 12;
      assert pc == VoiceClass(root, t, inv, k);
      var x := NearestAbove(v[k - 1], pc);
      assert x == CloseVoice(root, t, inv, octave, k);
      v[k] := x;
    }
  }

  /** The first lowest voice an octave down. */
  method LowestDown(n: nat, v: array<int>)
    requires 1 <= n <= v.Length
    modifies v
    ensures exists b | 0 <= b < n :: IsLowest(old(v[..n]), b) && v[..n] == old(v[..n])[b := old(v[..n])[b] - 12]
  {
    ghost var was := v[..n];
    var b := 0;
    for k := 1 to n
      invariant 0 <= b < k && (forall i | 0 <= i < k :: v[b] <= v[i]) && forall i | 0 <= i < b :: v[b] < v[i]
    {
      if v[k] < v[b] { b := k; }
    }
    assert IsLowest(was, b);
    v[b] := v[b] - 12;
    assert v[..n] == was[b := was[b] - 12];
  }

  method DropVoices(spread: nat, n: nat, v: array<int>)
    requires 1 <= n <= VOICES == v.Length
    modifies v
    ensures forall k | 0 <= k < n :: v[k] == old(v[k]) + 12 * Dropped(spread, n, k)
  {
    if spread == DROP2 && n >= 3 { v[n - 2] := v[n - 2] - 12; }
    if spread == DROP3 && n >= 4 { v[n - 3] := v[n - 3] - 12; }
    if (spread == OPEN || spread == BASS || (spread == DROP3 && n < 4)) && n >= 3 {
      if n == 4 {
        v[2] := v[2] - 12;
        v[0] := v[0] - 12;
      } else {
        v[1] := v[1] + 12;
      }
    }
  }

  method RaiseVoices(spread: nat, n: nat, v: array<int>)
    requires 1 <= n <= VOICES == v.Length
    modifies v
    ensures forall k | 0 <= k < n :: v[k] == old(v[k]) + 12 * Raised(spread, k)
  {
    if spread == TENTH {
      for k := 1 to n
        invariant forall i | 0 <= i < n :: v[i] == old(v[i]) + if 0 < i < k then 12 else 0
      {
        v[k] := v[k] + 12;
      }
    }
    if spread == WIDE {
      for k := 1 to n
        invariant forall i | 0 <= i < n :: v[i] == old(v[i]) + if 0 < i < k then 12 * i else 0
      {
        v[k] := v[k] + 12 * k;
      }
    }
  }

  method SpreadVoices(spread: nat, n: nat, v: array<int>)
    requires 1 <= n <= VOICES == v.Length
    modifies v
    ensures BassLowered(spread, SpreadOf(old(v[..n]), spread), v[..n])
  {
    ghost var close := v[..n];
    DropVoices(spread, n, v);
    ghost var dropped := v[..n];
    if spread == BASS {
      OnlyDropped(close, dropped, spread);
      LowestDown(n, v);
      return;                                   // the wide spreads are not BASS
    }
    RaiseVoices(spread, n, v);
    DroppedAndRaised(close, dropped, v[..n], spread);
  }

  lemma OnlyDropped(close: seq<int>, dropped: seq<int>, spread: nat)
    requires spread == BASS && |dropped| == |close|
    requires forall k | 0 <= k < |close| :: dropped[k] == close[k] + 12 * Dropped(spread, |close|, k)
    ensures dropped == SpreadOf(close, spread)
  {
  }

  lemma DroppedAndRaised(close: seq<int>, dropped: seq<int>, raised: seq<int>, spread: nat)
    requires |raised| == |dropped| == |close|
    requires forall k | 0 <= k < |close| :: dropped[k] == close[k] + 12 * Dropped(spread, |close|, k)
    requires forall k | 0 <= k < |close| :: raised[k] == dropped[k] + 12 * Raised(spread, k)
    ensures raised == SpreadOf(close, spread)
  {
  }

  lemma CloseRange(root: nat, t: seq<nat>, inv: nat, octave: nat, k: nat)
    requires WellFormed(t) && inv < |t| && k < |t|
    ensures 12 * octave <= CloseVoice(root, t, inv, octave, k) <= 12 * octave + 11 + 12 * k
    ensures CloseVoice(root, t, inv, octave, k) % 12 == VoiceClass(root, t, inv, k)
  {
    if k > 0 {
      CloseRange(root, t, inv, octave, k - 1);
    } else {
      OctaveClass(VoiceClass(root, t, inv, 0), octave);
    }
  }

  lemma OctaveClass(x: int, k: int)
    ensures (x + 12 * k) % 12 == x % 12
  {
  }

  lemma OctavesBound(spread: nat, n: nat, k: nat)
    requires k < n <= VOICES
    ensures -1 <= Octaves(spread, n, k) <= 3
  {
  }

  lemma SpreadVoice(close: int, octaves: int, lowered: bool, x: int)
    requires x == close + 12 * octaves - if lowered then 12 else 0
    ensures x % 12 == close % 12
  {
    OctaveClass(close, octaves - if lowered then 1 else 0);
  }

  /** Every spread keeps the voices within nine octaves and their pitch classes. */
  lemma SpreadRange(root: nat, t: seq<nat>, inv: nat, octave: nat, spread: nat, v: seq<int>)
    requires WellFormed(t) && inv < |t| && IsSpread(root, t, inv, octave, spread, v)
    ensures forall k | 0 <= k < |v| ::
      12 * octave - 24 <= v[k] <= 12 * octave + 83 && v[k] % 12 == VoiceClass(root, t, inv, k)
  {
    forall k | 0 <= k < |v|
      ensures 12 * octave - 24 <= v[k] <= 12 * octave + 83 && v[k] % 12 == VoiceClass(root, t, inv, k)
    {
      CloseRange(root, t, inv, octave, k);
      var close, octaves := CloseVoice(root, t, inv, octave, k), Octaves(spread, |t|, k);
      OctavesBound(spread, |t|, k);
      assert v[k] == close + 12 * octaves || v[k] == close + 12 * octaves - 12;
      SpreadVoice(close, octaves, v[k] != close + 12 * octaves, v[k]);
    }
  }

  /** Up until the lowest is in range, then down until the highest is. */
  method OctaveShift(lo: int, hi: int) returns (shift: int)
    requires lo <= hi
    ensures IsShift(lo, hi, shift)
    ensures lo + shift <= hi + shift <= NOTE_MAX
  {
    shift := 0;
    ghost var up, down := 0, 0;
    while lo + shift < 0
      invariant shift == 12 * up && up >= 0 && (up > 0 ==> lo + 12 * (up - 1) < 0)
      decreases -(lo + shift)
    {
      shift := shift + 12;
      up := up + 1;
    }
    while hi + shift > NOTE_MAX
      invariant shift == 12 * up - 12 * down && down >= 0 && (down > 0 ==> hi + shift + 12 > NOTE_MAX)
      decreases hi + shift
    {
      shift := shift - 12;
      down := down + 1;
    }
  }

  /** A span of at most nine octaves is brought wholly into range. */
  lemma ShiftInRange(lo: int, hi: int, shift: int)
    requires IsShift(lo, hi, shift) && lo <= hi <= lo + 116
    ensures 0 <= lo + shift && hi + shift <= NOTE_MAX && shift % 12 == 0
  {
    var up: int, down: int :| shift == 12 * up - 12 * down && up >= 0 && down >= 0
      && lo + 12 * up >= 0 && (up > 0 ==> lo + 12 * (up - 1) < 0)
      && hi + shift <= NOTE_MAX && (down > 0 ==> hi + shift + 12 > NOTE_MAX);
    OctaveClass(0, up - down);
  }

  method Extent(v: array<int>, n: nat) returns (lo: int, hi: int)
    requires 1 <= n <= v.Length
    ensures lo in v[..n] && hi in v[..n] && forall x | x in v[..n] :: lo <= x <= hi
  {
    lo, hi := v[0], v[0];
    for k := 1 to n
      invariant lo in v[..k] && hi in v[..k] && forall x | x in v[..k] :: lo <= x <= hi
    {
      assert v[..k + 1] == v[..k] + [v[k]];
      if v[k] < lo { lo := v[k]; }
      if v[k] > hi { hi := v[k]; }
    }
  }

  method PlaceVoices(v: array<int>, n: nat, shift: int, note: array<int>)
    requires n <= VOICES == v.Length == note.Length && v != note
    modifies note
    ensures note[..n] == MovedBy(v[..n], shift)
    ensures forall k | n <= k < VOICES :: note[k] == NONE
  {
    for k := 0 to VOICES
      invariant forall i | 0 <= i < k :: note[i] == if i < n then v[i] + shift else NONE
    {
      note[k] := if k < n then v[k] + shift else NONE;
    }
  }

  /** `ch_build`: `note` holds the voicing, its empty places NONE. */
  method Build(root: nat, kind: nat, inversion: nat, spread: nat, octave: nat, note: array<int>) returns (n: nat)
    requires note.Length == VOICES
    modifies note
    ensures n == |TypeOf(kind)| <= VOICES
    ensures IsBuilt(root, kind, inversion, spread, octave, note[..n])
    ensures forall k | n <= k < VOICES :: note[k] == NONE
  {
    TypesWellFormed(if kind < |TYPES| then kind else 0);
    var t := TypeOf(kind);
    n := |t|;
    var v := new int[VOICES];
    VoicesFor(root % 12, t, InversionOf(t, inversion), spread, octave, v);
    ghost var voices := v[..n];
    var lo, hi := Extent(v, n);
    var shift := OctaveShift(lo, hi);
    assert Shifted(voices, shift);
    PlaceVoices(v, n, shift, note);
    Sort(note, n);
    ghost var sorted := note[..n];
    assert forall i | 0 <= i < n :: sorted[i] == note[i];
    BuiltOf(root, kind, inversion, spread, octave, voices, shift, sorted);
  }

  lemma BuiltOf(root: nat, kind: nat, inversion: nat, spread: nat, octave: nat, v: seq<int>, shift: int,
                notes: seq<int>)
    requires WellFormed(TypeOf(kind))
    requires IsSpread(root % 12, TypeOf(kind), InversionOf(TypeOf(kind), inversion), octave, spread, v)
    requires Shifted(v, shift)
    requires multiset(notes) == multiset(MovedBy(v, shift))
    requires forall i, j | 0 <= i < j < |notes| :: notes[i] <= notes[j]
    ensures IsBuilt(root, kind, inversion, spread, octave, notes)
  {
  }

  method VoicesFor(root: nat, t: seq<nat>, inv: nat, spread: nat, octave: nat, v: array<int>)
    requires WellFormed(t) && inv < |t| && v.Length == VOICES
    modifies v
    ensures IsSpread(root, t, inv, octave, spread, v[..|t|])
  {
    CloseVoices(root, t, inv, octave, v);
    assert v[..|t|] == CloseOf(root, t, inv, octave);
    SpreadVoices(spread, |t|, v);
  }

  // ---- what a built chord is ---------------------------------------------------

  lemma DistinctClasses(root: nat, t: seq<nat>, inv: nat, i: nat, j: nat)
    requires WellFormed(t) && inv < |t| && i < |t| && j < |t| && i != j
    ensures VoiceClass(root, t, inv, i) != VoiceClass(root, t, inv, j)
  {
    var a, b := t[if inv + i < |t| then inv + i else inv + i - |t|],
      t[if inv + j < |t| then inv + j else inv + j - |t|];
    ClassInjective(root, a, b);
  }

  lemma ClassInjective(root: nat, a: nat, b: nat)
    requires a < 12 && b < 12 && a != b
    ensures (root + a) % 12 != (root + b) % 12
  {
  }

  /** The sorted notes are the others, in another order. */
  lemma SameNotes(notes: seq<int>, m: seq<int>)
    requires multiset(notes) == multiset(m)
    ensures |notes| == |m| && forall x :: x in notes <==> x in m
  {
    assert |multiset(notes)| == |notes| && |multiset(m)| == |m|;
    forall x ensures x in notes <==> x in m {
      assert x in notes <==> x in multiset(notes);
      assert x in multiset(m) <==> x in m;
    }
  }

  /** A multiset of distinct elements, sorted, is strictly ascending. */
  lemma SortedDistinct(notes: seq<int>, m: seq<int>)
    requires multiset(notes) == multiset(m)
    requires forall i, j | 0 <= i < j < |notes| :: notes[i] <= notes[j]
    requires forall i, j | 0 <= i < j < |m| :: m[i] != m[j]
    ensures forall i, j | 0 <= i < j < |notes| :: notes[i] < notes[j]
  {
    forall i, j | 0 <= i < j < |notes| ensures notes[i] < notes[j] {
      OnceEach(m, notes[i]);
      if notes[i] == notes[j] { Twice(notes, i, j); }
    }
  }

  lemma Twice(notes: seq<int>, i: nat, j: nat)
    requires i < j < |notes| && notes[i] == notes[j]
    ensures multiset(notes)[notes[i]] >= 2
  {
    var x := notes[i];
    assert notes == notes[..i] + [x] + notes[i + 1..j] + [x] + notes[j + 1..];
  }

  lemma {:induction false} OnceEach(m: seq<int>, x: int)
    requires forall i, j | 0 <= i < j < |m| :: m[i] != m[j]
    ensures multiset(m)[x] <= 1
  {
    if m != [] {
      var init := m[..|m| - 1];
      OnceEach(init, x);
      assert m == init + [m[|m| - 1]];
      assert m[|m| - 1] !in init;
    }
  }

  /** Every built chord is a proper voicing: strictly ascending notes of
      0..127, with exactly the type's pitch classes on the root. */
  lemma BuiltIsVoicing(root: nat, kind: nat, inversion: nat, spread: nat, octave: nat, notes: seq<int>)
    requires IsBuilt(root, kind, inversion, spread, octave, notes)
    ensures |notes| == |TypeOf(kind)| <= VOICES
    ensures forall i, j | 0 <= i < j < |notes| :: notes[i] < notes[j]
    ensures forall x | x in notes :: 0 <= x <= NOTE_MAX
    ensures (set x | x in notes :: x % 12) == set p: nat | p in Classes(root % 12, TypeOf(kind)) :: p as int
  {
    TypesWellFormed(if kind < |TYPES| then kind else 0);
    var t := TypeOf(kind);
    var inv := InversionOf(t, inversion);
    var v: seq<int>, shift: int :|
      && IsSpread(root % 12, t, inv, octave, spread, v) && Shifted(v, shift)
      && multiset(notes) == multiset(MovedBy(v, shift))
      && forall i, j | 0 <= i < j < |notes| :: notes[i] <= notes[j];
    BuiltFrom(root % 12, t, inv, octave, spread, v, shift, notes);
  }

  lemma SpanBounded(v: seq<int>, lo: int, hi: int, least: int, most: int)
    requires lo in v && hi in v && (forall x | x in v :: lo <= x <= hi) && forall k | 0 <= k < |v| ::
      least <= v[k] <= most
    ensures least <= lo <= hi <= most
  {
  }

  lemma BuiltFrom(root: nat, t: seq<nat>, inv: nat, octave: nat, spread: nat, v: seq<int>, shift: int, notes: seq<int>)
    requires WellFormed(t) && inv < |t| && IsSpread(root, t, inv, octave, spread, v) && Shifted(v, shift)
    requires multiset(notes) == multiset(MovedBy(v, shift))
    requires forall i, j | 0 <= i < j < |notes| :: notes[i] <= notes[j]
    ensures |notes| == |t|
    ensures forall i, j | 0 <= i < j < |notes| :: notes[i] < notes[j]
    ensures forall x | x in notes :: 0 <= x <= NOTE_MAX
    ensures (set x | x in notes :: x % 12) == set p: nat | p in Classes(root, t) :: p as int
  {
    SpreadRange(root, t, inv, octave, spread, v);
    var lo: int, hi: int :| lo in v && hi in v && (forall x | x in v :: lo <= x <= hi) && IsShift(lo, hi, shift);
    SpanBounded(v, lo, hi, 12 * octave - 24, 12 * octave + 83);
    ShiftInRange(lo, hi, shift);
    var m := MovedBy(v, shift);
    SameNotes(notes, m);
    forall k | 0 <= k < |m| ensures 0 <= m[k] <= NOTE_MAX { assert v[k] in v; }
    MovedClasses(root, t, inv, v, shift);
    SortedDistinct(notes, m);
    SameClasses(root, t, inv, m, notes);
  }

  lemma ClassMoved(x: int, shift: int)
    requires shift % 12 == 0
    ensures (x + shift) % 12 == x % 12
  {
  }

  lemma MovedClasses(root: nat, t: seq<nat>, inv: nat, v: seq<int>, shift: int)
    requires WellFormed(t) && inv < |t| == |v| && shift % 12 == 0
    requires forall k | 0 <= k < |v| :: v[k] % 12 == VoiceClass(root, t, inv, k)
    ensures var m := MovedBy(v, shift);
      && (forall k | 0 <= k < |m| :: m[k] % 12 == VoiceClass(root, t, inv, k))
      && (forall i, j | 0 <= i < j < |m| :: m[i] != m[j])
  {
    var m := MovedBy(v, shift);
    forall k | 0 <= k < |m| ensures m[k] % 12 == VoiceClass(root, t, inv, k) {
      ClassMoved(v[k], shift);
    }
    forall i, j | 0 <= i < j < |m| ensures m[i] != m[j] {
      DistinctClasses(root, t, inv, i, j);
    }
  }

  lemma SameClasses(root: nat, t: seq<nat>, inv: nat, m: seq<int>, notes: seq<int>)
    requires WellFormed(t) && inv < |t| == |m|
    requires forall k | 0 <= k < |m| :: m[k] % 12 == VoiceClass(root, t, inv, k)
    requires forall x :: x in notes <==> x in m
    ensures (set x | x in notes :: x % 12) == set p: nat | p in Classes(root, t) :: p as int
  {
    forall p: nat | p in Classes(root, t) ensures exists x :: x in notes && x % 12 == p {
      var c :| c in t && (root + c) % 12 == p;
      var i :| 0 <= i < |t| && t[i] == c;
      var k := if i >= inv then i - inv else i + |t| - inv;
      assert m[k] % 12 == p && m[k] in notes;
    }
    forall x | x in notes ensures x % 12 in Classes(root, t) {
      var k :| 0 <= k < |m| && m[k] == x;
      assert t[if inv + k < |t| then inv + k else inv + k - |t|] in t;
    }
  }
}
