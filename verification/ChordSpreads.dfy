/** CHORDS FACTORY's voicings spelled out (chords.c, `ch_build`): the close position note
    by note, and what each spread does to three, four and two voices. */
module ChordSpreads {
  import opened ChordTypes
  import opened ChordBuild

  /** Close position from an inversion of a type: the first voice in the octave, and each
      next one the nearest note above it of the type's next pitch class. */
  ghost predicate ClosePosition(root: nat, t: seq<nat>, inv: nat, octave: nat, v: seq<int>)
    requires inv < |t|
  {
    |v| == |t| && forall k | 0 <= k < |v| :: CloseNote(root, t, inv, octave, v, k)
  }

  /** Voice k of it: of its pitch class, and the first such note above the voice below, or
      in the octave. */
  predicate CloseNote(root: nat, t: seq<nat>, inv: nat, octave: nat, v: seq<int>, k: nat)
    requires t != [] && k < |v|
  {
    && v[k] % 12 == (root + t[(inv + k) % |t|]) % 12
    && if k == 0 then 12 * octave <= v[k] < 12 * octave + 12 else v[k - 1] < v[k] <= v[k - 1] + 12
  }

  /** Where each spread puts the voices of a close position, lowest first: DROP2, DROP3,
      OPEN, BASS, TENTH and WIDE. */
  function Plain(spread: nat, v: seq<int>): (w: seq<int>)
    ensures |w| == |v|
  {
    match spread
    case 1 => if |v| == 4 then [v[0], v[1], v[2] - 12, v[3]] else if |v| == 3 then [v[0], v[1] - 12, v[2]] else v
    case 2 => if |v| == 4 then [v[0], v[1] - 12, v[2], v[3]] else if |v| == 3 then [v[0], v[1] + 12, v[2]] else v
    case 3 => if |v| == 4 then [v[0] - 12, v[1], v[2] - 12, v[3]] else if |v| == 3 then [v[0], v[1] + 12, v[2]] else v
    case 4 => if |v| == 4 then [v[0] - 12, v[1], v[2] - 12, v[3]] else if |v| == 3 then [v[0], v[1] + 12, v[2]] else v
    case 5 =>
      if |v| == 4 then [v[0], v[1] + 12, v[2] + 12, v[3] + 12] else if |v| == 3 then [v[0], v[1] + 12, v[2] + 12]
      else if |v| == 2 then [v[0], v[1] + 12] else v
    case 6 =>
      if |v| == 4 then [v[0], v[1] + 12, v[2] + 24, v[3] + 36] else if |v| == 3 then [v[0], v[1] + 12, v[2] + 24]
      else if |v| == 2 then [v[0], v[1] + 12] else v
    case _ => v
  }

  /** BASS is OPEN with its lowest voice an octave down. */
  ghost predicate SpreadsTo(spread: nat, v: seq<int>, w: seq<int>) {
    if spread == 4 then exists b: nat :: LowestOf(Plain(3, v), b) && w == Plain(3, v)[b := Plain(3, v)[b] - 12]
    else w == Plain(spread, v)
  }

  ghost predicate LowestOf(v: seq<int>, b: nat) {
    b < |v| && (forall k | 0 <= k < |v| :: v[b] <= v[k]) && forall k | 0 <= k < b :: v[b] < v[k]
  }

  lemma ClassInOrder(root: nat, t: seq<nat>, inv: nat, k: nat)
    requires WellFormed(t) && inv < |t| && k < |t|
    ensures VoiceClass(root % 12, t, inv, k) == (root + t[(inv + k) % |t|]) % 12
  {
    assert (inv + k) % |t| == if inv + k < |t| then inv + k else inv + k - |t| by {
      if inv + k >= |t| { assert (inv + k - |t|) % |t| == inv + k - |t|; }
    }
    var c := t[if inv + k < |t| then inv + k else inv + k - |t|];
    assert (root % 12 + c) % 12 == (root + c) % 12;
  }

  lemma CloseAt(root: nat, t: seq<nat>, inv: nat, octave: nat, k: nat)
    requires WellFormed(t) && inv < |t| && k < |t|
    ensures CloseNote(root, t, inv, octave, CloseOf(root % 12, t, inv, octave), k)
  {
    CloseRange(root % 12, t, inv, octave, k);
    ClassInOrder(root, t, inv, k);
  }

  lemma CloseIs(root: nat, t: seq<nat>, inv: nat, octave: nat)
    requires WellFormed(t) && inv < |t|
    ensures ClosePosition(root, t, inv, octave, CloseOf(root % 12, t, inv, octave))
  {
    var v := CloseOf(root % 12, t, inv, octave);
    forall k | 0 <= k < |v| ensures CloseNote(root, t, inv, octave, v, k) {
      CloseAt(root, t, inv, octave, k);
    }
  }

  lemma PlainAt(spread: nat, v: seq<int>, k: nat)
    requires 2 <= |v| <= VOICES && k < |v|
    ensures Plain(spread, v)[k] == v[k] + 12 * Octaves(spread, |v|, k)
  {
  }

  lemma PlainIs(spread: nat, v: seq<int>)
    requires 2 <= |v| <= VOICES
    ensures SpreadOf(v, spread) == Plain(spread, v)
  {
    forall k | 0 <= k < |v| ensures SpreadOf(v, spread)[k] == Plain(spread, v)[k] { PlainAt(spread, v, k); }
  }

  lemma SpreadIs(spread: nat, close: seq<int>, v: seq<int>)
    requires 2 <= |close| <= VOICES && BassLowered(spread, SpreadOf(close, spread), v)
    ensures SpreadsTo(spread, close, v)
  {
    var plain := Plain(spread, close);
    PlainIs(spread, close);
    if spread == BASS {
      assert plain == Plain(3, close);
      BassIs(plain, v);
    }
  }

  lemma BassIs(plain: seq<int>, v: seq<int>)
    requires BassLowered(BASS, plain, v)
    ensures exists b: nat :: LowestOf(plain, b) && v == plain[b := plain[b] - 12]
  {
    var b: nat :| b < |plain| && IsLowest(plain, b) && v == plain[b := plain[b] - 12];
    assert LowestOf(plain, b);
  }

  /** Up an octave at a time while the lowest is below 0, then down while the highest is
      above 127; nothing when neither is. */
  ghost predicate Octaved(v: seq<int>, shift: int) {
    && shift % 12 == 0 && (forall x | x in v :: x + shift <= 127)
    && ((forall x | x in v :: 0 <= x <= 127) ==> shift == 0)
    && (shift > 0 ==> exists x :: x in v && x + shift - 12 < 0)
    && (shift < 0 ==> exists x :: x in v && x + shift + 12 > 127)
  }

  lemma ShiftArith(lo: int, hi: int, shift: int)
    requires lo <= hi && IsShift(lo, hi, shift)
    ensures shift % 12 == 0 && hi + shift <= 127 && (lo >= 0 && hi <= 127 ==> shift == 0)
    ensures shift > 0 ==> lo + shift - 12 < 0
    ensures shift < 0 ==> hi + shift + 12 > 127
  {
  }

  lemma ShiftIs(v: seq<int>, shift: int)
    requires Shifted(v, shift)
    ensures Octaved(v, shift)
  {
    var lo: int, hi: int :| lo in v && hi in v && (forall x | x in v :: lo <= x <= hi) && IsShift(lo, hi, shift);
    ShiftArith(lo, hi, shift);
  }

  /** A built chord is a close position of its type from the inversion, spread as asked,
      moved by octaves into the range and sorted. An unknown type is the first and an
      inversion past the last the last. */
  lemma BuiltIs(root: nat, kind: nat, inversion: nat, spread: nat, octave: nat, notes: seq<int>)
    requires IsBuilt(root, kind, inversion, spread, octave, notes)
    ensures var t := TYPES[if kind < 21 then kind else 0];
      var inv := if inversion < |t| then inversion else |t| - 1;
      exists close, v, shift ::
        && ClosePosition(root, t, inv, octave, close) && SpreadsTo(spread, close, v) && Octaved(v, shift)
        && multiset(notes) == multiset(MovedBy(v, shift))
    ensures forall i, j | 0 <= i < j < |notes| :: notes[i] <= notes[j]
  {
    TypesWellFormed(if kind < |TYPES| then kind else 0);
    var t := TypeOf(kind);
    var inv := InversionOf(t, inversion);
    var v: seq<int>, shift: int :|
      && IsSpread(root % 12, t, inv, octave, spread, v) && Shifted(v, shift)
      && multiset(notes) == multiset(MovedBy(v, shift))
      && forall i, j | 0 <= i < j < |notes| :: notes[i] <= notes[j];
    var close := CloseOf(root % 12, t, inv, octave);
    CloseIs(root, t, inv, octave);
    SpreadIs(spread, close, v);
    ShiftIs(v, shift);
    assert ClosePosition(root, t, inv, octave, close) && SpreadsTo(spread, close, v) && Octaved(v, shift);
  }
}
