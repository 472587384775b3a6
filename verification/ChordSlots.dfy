/** CHORDS FACTORY's slots: the chord edits, the slot's notes from its
    parameters, and chords.work's payload (chords.c, `ch_toggle` .. `ch_unpack`). */
module ChordSlots {
  import opened Words
  import opened VoiceCost
  import opened ChordTypes
  import opened ChordBuild
  import opened VoiceLead

  const OCT_MAX := 9
  const BUILT := 0
  const LEAD := 1
  const EDIT := 2
  const MODES := 3
  const SLOTS := 16
  const BANKS := 16
  const SLOT_B := 14

  /** A chord in its four places, the empty ones NONE. */
  datatype ChVoicing = ChVoicing(n: nat, note: seq<nat>) {
    ghost predicate Valid() {
      && n <= VOICES == |note|
      && (forall k | 0 <= k < n :: note[k] <= NOTE_MAX)
      && (forall i, j | 0 <= i < j < n :: note[i] < note[j])
      && (forall k | n <= k < VOICES :: note[k] == NONE)
    }

    function Notes(): Voicing
      requires n <= |note|
    {
      note[..n]
    }
  }

  datatype ChSlot = ChSlot(v: ChVoicing, root: nat, kind: nat, inv: nat, spread: nat, oct: nat, lead: nat,
                           mode: nat, degree: nat, flags: nat) {
    ghost predicate Parameters() {
      && root < 12 && kind < |TYPES| && inv < VOICES && spread < SPREADS && oct <= OCT_MAX && lead < LEAD_MAX
      && mode < MODES && (degree < 7 || degree == NONE) && flags <= 1
    }

    ghost predicate Valid() {
      v.Valid() && Parameters()
    }
  }

  const EMPTY := ChVoicing(0, [NONE, NONE, NONE, NONE])
  const CLEARED := ChSlot(EMPTY, 0, 0, 0, CLOSE, 4, 0, BUILT, NONE, 0)

  function Padded(notes: Voicing): ChVoicing
    requires |notes| <= VOICES
  {
    ChVoicing(|notes|, notes + seq(VOICES - |notes|, _ => NONE))
  }

  lemma PaddedValid(notes: Voicing)
    requires |notes| <= VOICES && Ascending(notes) && forall x | x in notes :: x <= NOTE_MAX
    ensures Padded(notes).Valid() && Padded(notes).Notes() == notes
  {
    forall k | 0 <= k < |notes| ensures Padded(notes).note[k] <= NOTE_MAX { assert notes[k] in notes; }
  }

  // ---- the edits -------------------------------------------------------------------

  /** A key: its note out of the chord when there, else in, kept in order;
      nothing when the chord is full or the note past 127. */
  method Toggle(v: ChVoicing, note: nat) returns (w: ChVoicing, changed: bool)
    requires v.Valid()
    ensures w.Valid()
    ensures changed <==> note in v.Notes() || (v.n < VOICES && note <= NOTE_MAX)
    ensures !changed ==> w == v
    ensures changed && note in v.Notes() ==> forall x :: x in w.Notes() <==> x in v.Notes() && x != note
    ensures changed && note !in v.Notes() ==> forall x :: x in w.Notes() <==> x in v.Notes() || x == note
  {
    for k := 0 to v.n
      invariant forall i | 0 <= i < k :: v.note[i] != note
    {
      if v.note[k] == note {
        w := TakeOut(v, k);
        RemovedValid(v, k);
        RemovedNotes(v, k);
        return w, true;
      }
    }
    assert note !in v.Notes();
    if v.n >= VOICES || note > NOTE_MAX { return v, false; }
    w := PutIn(v, note);
    return w, true;
  }

  function Removed(v: ChVoicing, k: nat): ChVoicing
    requires k < v.n <= |v.note|
  {
    ChVoicing(v.n - 1, v.note[..k] + v.note[k + 1..v.n] + [NONE] + v.note[v.n..])
  }

  lemma RemovedValid(v: ChVoicing, k: nat)
    requires v.Valid() && k < v.n
    ensures Removed(v, k).Valid()
  {
    var w := Removed(v, k);
    forall i | 0 <= i < VOICES
      ensures w.note[i] == if i < k then v.note[i] else if i < v.n - 1 then v.note[i + 1] else NONE
    {
      if k <= i < v.n - 1 {
        assert w.note[i] == v.note[k + 1..v.n][i - k];
      } else if i >= v.n {
        assert w.note[i] == v.note[v.n..][i - v.n];
      }
    }
  }

  lemma RemovedNotes(v: ChVoicing, k: nat)
    requires v.Valid() && k < v.n
    ensures forall x :: x in Removed(v, k).Notes() <==> x in v.Notes() && x != v.note[k]
  {
    var w, was := Removed(v, k), v.Notes();
    assert w.Notes() == was[..k] + was[k + 1..];
    assert was == was[..k] + [was[k]] + was[k + 1..];
    assert forall i | 0 <= i < |was| && i != k :: was[i] != was[k];
  }

  /** The places with voice k overwritten and those up to j moved down. */
  function MovedDown(note: seq<nat>, k: nat, j: nat): seq<nat>
    requires k < j <= |note|
  {
    note[..k] + note[k + 1..j] + note[j - 1..]
  }

  lemma MoveOneDown(note: seq<nat>, k: nat, j: nat)
    requires k < j < |note|
    ensures MovedDown(note, k, j)[j] == note[j]
    ensures MovedDown(note, k, j)[j - 1 := note[j]] == MovedDown(note, k, j + 1)
  {
  }

  lemma NothingMoved(note: seq<nat>, k: nat)
    requires k < |note|
    ensures MovedDown(note, k, k + 1) == note
  {
  }

  lemma LastEmptied(v: ChVoicing, k: nat)
    requires v.Valid() && k < v.n
    ensures MovedDown(v.note, k, v.n)[v.n - 1 := NONE] == Removed(v, k).note
  {
  }

  method ShiftDown(was: seq<nat>, k: nat, n: nat) returns (note: seq<nat>)
    requires k < n <= |was|
    ensures note == MovedDown(was, k, n)
  {
    note := was;
    NothingMoved(was, k);
    for j := k + 1 to n
      invariant note == MovedDown(was, k, j)
    {
      MoveOneDown(was, k, j);
      note := note[j - 1 := note[j]];
    }
  }

  /** Voice k out, the ones above it moved down. */
  method TakeOut(v: ChVoicing, k: nat) returns (w: ChVoicing)
    requires v.Valid() && k < v.n
    ensures w == Removed(v, k)
  {
    var note := ShiftDown(v.note, k, v.n);
    LastEmptied(v, k);
    w := ChVoicing(v.n - 1, note[v.n - 1 := NONE]);
  }

  /** A chord's notes and one more, sorted, are a chord's notes again. */
  lemma SortedPush(v: ChVoicing, note: nat, was: seq<int>, sorted: seq<int>)
    requires v.Valid() && note <= NOTE_MAX && note !in v.Notes()
    requires was == Ints(v.Notes() + [note]) && multiset(sorted) == multiset(was)
    requires forall i, j | 0 <= i < j < |sorted| :: sorted[i] <= sorted[j]
    ensures forall x | x in sorted :: 0 <= x <= NOTE_MAX
    ensures forall i, j | 0 <= i < j < |sorted| :: sorted[i] < sorted[j]
  {
    SameNotes(sorted, was);
    assert forall i | 0 <= i < |was| :: was[i] == (v.Notes() + [note])[i];
    assert forall i, j | 0 <= i < j < |was| :: was[i] != was[j];
    SortedDistinct(sorted, was);
  }

  lemma PushedNotes(v: Voicing, note: nat, w: Voicing)
    requires multiset(Ints(w)) == multiset(Ints(v + [note]))
    ensures forall x :: x in w <==> x in v || x == note
  {
    SameNotes(Ints(w), Ints(v + [note]));
    IntsHave(w);
    IntsHave(v + [note]);
  }

  method PutIn(v: ChVoicing, note: nat) returns (w: ChVoicing)
    requires v.Valid() && v.n < VOICES && note <= NOTE_MAX && note !in v.Notes()
    ensures w.Valid() && w.n == v.n + 1
    ensures forall x :: x in w.Notes() <==> x in v.Notes() || x == note
  {
    var n := v.n + 1;
    var a := NotesAnd(v, note);
    ghost var was := a[..n];
    Sort(a, n);
    ghost var sorted := a[..n];
    assert forall i | 0 <= i < n :: sorted[i] == a[i];
    SortedPush(v, note, was, sorted);
    w := Voiced(a, n);
    PushedNotes(v.Notes(), note, w.Notes());
  }

  method NotesAnd(v: ChVoicing, note: nat) returns (a: array<int>)
    requires v.Valid() && v.n < VOICES
    ensures fresh(a) && a.Length == VOICES && a[..v.n + 1] == Ints(v.Notes() + [note])
  {
    a := new int[VOICES](i requires 0 <= i < VOICES && |v.note| == VOICES => v.note[i]);
    a[v.n] := note;
  }

  /** The first n places of the array as a chord. */
  method Voiced(a: array<int>, n: nat) returns (w: ChVoicing)
    requires n <= VOICES == a.Length
    requires forall x | x in a[..n] :: 0 <= x <= NOTE_MAX
    requires forall i, j | 0 <= i < j < n :: a[..n][i] < a[..n][j]
    ensures w.Valid() && w.n == n && Ints(w.Notes()) == a[..n]
  {
    var notes: seq<nat> := [];
    for k := 0 to n
      invariant |notes| == k && forall i | 0 <= i < k :: notes[i] == a[i]
    {
      assert a[..n][k] == a[k] && a[k] in a[..n];
      notes := notes + [a[k]];
    }
    assert forall i | 0 <= i < n :: a[..n][i] == notes[i] && a[..n][i] in a[..n];
    PaddedValid(notes);
    w := Padded(notes);
  }

  lemma IntsHave(v: Voicing)
    ensures forall x: nat :: x in v <==> x in Ints(v)
    ensures forall x | x in Ints(v) :: x >= 0
  {
    forall x: nat ensures x in v <==> x in Ints(v) {
      if x in v {
        var i :| 0 <= i < |v| && v[i] == x;
        assert Ints(v)[i] == x;
      }
    }
  }

  function Clamp(x: int, lo: int, hi: int): int {
    if x < lo then lo else if x > hi then hi else x
  }

  /** Voice i moved, between its neighbours: it never crosses or meets one. */
  method MoveVoice(v: ChVoicing, i: nat, delta: int) returns (w: ChVoicing, moved: bool)
    requires v.Valid()
    ensures w.Valid() && w.n == v.n
    ensures i >= v.n ==> !moved && w == v
    ensures i < v.n ==>
      var lo, hi := if i > 0 then v.note[i - 1] + 1 else 0, if i + 1 < v.n then v.note[i + 1] - 1 else NOTE_MAX;
      && lo <= v.note[i] <= hi
      && w.note == v.note[i := w.note[i]] && w.note[i] == Clamp(v.note[i] + delta, lo, hi)
      && (moved <==> w.note[i] != v.note[i])
  {
    if i >= v.n { return v, false; }
    var lo: int := if i > 0 then v.note[i - 1] + 1 else 0;
    var hi: int := if i + 1 < v.n then v.note[i + 1] - 1 else NOTE_MAX;
    var x: int := v.note[i] + delta;
    if x < lo { x := lo; }
    if x > hi { x := hi; }
    if x == v.note[i] { return v, false; }
    return v.(note := v.note[i := x]), true;
  }

  // ---- the slot's notes -------------------------------------------------------------

  /** The slot asks for a LEAD answer, and there is a chord to lead from. */
  predicate Asks(s: ChSlot, prev: Option<ChVoicing>) {
    s.mode == LEAD && prev.Some? && prev.value.n > 0
  }

  function Question(s: ChSlot, prev: ChVoicing): Query
    requires 0 < prev.n <= |prev.note| && s.kind < |TYPES|
  {
    QueryOf(prev.Notes(), s.root, s.kind, s.flags % 2 == 1)
  }

  /** What `ch_slot_apply` leaves in the slot, `answers` being LEAD's. */
  ghost predicate Applied(s: ChSlot, prev: Option<ChVoicing>, answers: seq<Voicing>, t: ChSlot, n: nat)
    requires s.kind < |TYPES| && (prev.Some? ==> prev.value.Valid())
  {
    && (Asks(s, prev) ==> TopChoices(Question(s, prev.value), LEAD_MAX, answers))
    && if s.mode == EDIT then t == s && n == 0
       else if Asks(s, prev) && answers != [] then
         && n == |answers|
         && var lead := if s.lead >= n then n - 1 else s.lead;
            |answers[lead]| <= VOICES && t == s.(lead := lead, v := Padded(answers[lead]))
       else
         n == 0 && t == s.(mode := BUILT, v := t.v) && t.v.Valid()
         && IsBuilt(s.root, s.kind, s.inv, s.spread, s.oct, Ints(t.v.Notes()))
  }

  function Ints(v: Voicing): seq<int> {
    seq(|v|, i requires 0 <= i < |v| => v[i] as int)
  }

  method SlotApply(s: ChSlot, prev: Option<ChVoicing>) returns (t: ChSlot, n: nat, ghost answers: seq<Voicing>)
    requires s.Parameters() && (prev.Some? ==> prev.value.Valid())
    ensures Applied(s, prev, answers, t, n) && t.Parameters() && n <= LEAD_MAX
    ensures s.mode != EDIT ==> t.v.Valid()
    ensures s.mode == LEAD && prev.Some? && prev.value.n > 0 ==>
      FirstAnswers(prev.value.Notes(), s.root, s.kind, s.flags % 2 == 1, LEAD_MAX, answers)
  {
    answers := [];
    if s.mode == EDIT {
      t, n := s, 0;
      return;
    }
    if s.mode == LEAD && prev.Some? && prev.value.n > 0 {
      var out := new Voicing[LEAD_MAX];
      n := Lead(prev.value.Notes(), s.root, s.kind, s.flags % 2 == 1, out, LEAD_MAX);
      answers := out[..n];
      if n > 0 {
        var lead := if s.lead >= n then n - 1 else s.lead;
        ChoiceValid(s, prev.value, answers[lead]);
        t := s.(lead := lead, v := Padded(out[lead]));
        return;
      }
    }
    var v := BuildVoicing(s.root, s.kind, s.inv, s.spread, s.oct);
    t, n := s.(mode := BUILT, v := v), 0;
  }

  /** An answer fits a slot. */
  lemma ChoiceValid(s: ChSlot, prev: ChVoicing, w: Voicing)
    requires s.kind < |TYPES| && prev.Valid() && prev.n > 0 && IsChoice(Question(s, prev), w)
    ensures |w| <= VOICES && Padded(w).Valid()
  {
    TypesWellFormed(s.kind);
    PaddedValid(w);
  }

  method BuildVoicing(root: nat, kind: nat, inv: nat, spread: nat, oct: nat) returns (v: ChVoicing)
    ensures v.Valid() && IsBuilt(root, kind, inv, spread, oct, Ints(v.Notes()))
  {
    var note := new int[VOICES];
    var n := Build(root, kind, inv, spread, oct, note);
    BuiltIsVoicing(root, kind, inv, spread, oct, note[..n]);
    v := Voiced(note, n);
  }

  // ---- chords.work --------------------------------------------------------------------

  /** A slot's record: n, the four places, the nine parameters. */
  function SlotBytes(s: ChSlot): (r: seq<nat>)
    requires |s.v.note| == VOICES
    ensures |r| == SLOT_B
  {
    [s.v.n] + s.v.note + [s.root, s.kind, s.inv, s.spread, s.oct, s.lead, s.mode, s.degree, s.flags]
  }

  /** The record's bytes, in their order, and where in the file each slot's are. */
  lemma SlotLayout(s: ChSlot, b: nat, i: nat)
    requires |s.v.note| == 4
    ensures var r := SlotBytes(s);
      && |r| == 14 && r[0] == s.v.n && r[1..5] == s.v.note && r[5] == s.root && r[6] == s.kind && r[7] == s.inv
      && r[8] == s.spread && r[9] == s.oct && r[10] == s.lead && r[11] == s.mode && r[12] == s.degree
      && r[13] == s.flags
    ensures Offset(b, i) == 14 * (16 * b + i)
  {
  }

  predicate ParametersFit(r: seq<nat>)
    requires |r| == SLOT_B
  {
    && r[0] <= VOICES && r[5] < 12 && r[6] < |TYPES| && r[7] < VOICES && r[8] < SPREADS && r[9] <= OCT_MAX
    && r[10] < LEAD_MAX && r[11] < MODES && (r[12] < 7 || r[12] == NONE) && r[13] <= 1
  }

  /** The reader's check of a record. */
  predicate Readable(r: seq<nat>)
    requires |r| == SLOT_B
  {
    ParametersFit(r) && StepsUp(r[1..1 + r[0]])
  }

  predicate StepsUp(v: Voicing) {
    forall k | 0 <= k < |v| :: v[k] <= NOTE_MAX && (k > 0 ==> v[k] > v[k - 1])
  }

  function ReadSlot(r: seq<nat>): ChSlot
    requires |r| == SLOT_B
  {
    if !Readable(r) then CLEARED
    else ChSlot(Padded(r[1..1 + r[0]]), r[5], r[6], r[7], r[8], r[9], r[10], r[11], r[12], r[13])
  }

  /** Ascending from neighbour to neighbour is ascending throughout. */
  lemma {:induction false} StepsAscend(v: Voicing, i: nat, j: nat)
    requires i < j < |v| && StepsUp(v)
    ensures v[i] < v[j]
  {
    if i < j - 1 { StepsAscend(v, i, j - 1); }
  }

  /** Whatever bytes it is given, the reader yields a well-formed slot. */
  lemma ReadIsValid(r: seq<nat>)
    requires |r| == SLOT_B
    ensures ReadSlot(r).Valid()
  {
    if Readable(r) {
      var v := r[1..1 + r[0]];
      forall i, j | 0 <= i < j < |v| ensures v[i] < v[j] { StepsAscend(v, i, j); }
      PaddedValid(v);
    }
  }

  /** A written slot is read back as it was, exactly when it is well formed. */
  lemma SlotRoundTrip(s: ChSlot)
    requires |s.v.note| == VOICES
    ensures ReadSlot(SlotBytes(s)) == s <==> s.Valid()
  {
    var r := SlotBytes(s);
    ReadIsValid(r);
    if s.Valid() {
      assert r[1..1 + s.v.n] == s.v.Notes();
      assert Padded(s.v.Notes()).note == s.v.note;
    }
  }

  function Offset(b: nat, i: nat): nat {
    (b * SLOTS + i) * SLOT_B
  }

  /** The slot's record at an offset. */
  ghost predicate RecordAt(bytes: seq<nat>, s: ChSlot, at: nat) {
    |s.v.note| == VOICES && at + SLOT_B <= |bytes| && bytes[at..at + SLOT_B] == SlotBytes(s)
  }

  /** Bytes outside a record do not matter to it. */
  lemma RecordFrame(was: seq<nat>, now: seq<nat>, s: ChSlot, at: nat, changed: nat)
    requires RecordAt(was, s, at) && |now| == |was| && (changed + SLOT_B <= at || at + SLOT_B <= changed)
    requires forall k | 0 <= k < |was| && !(changed <= k < changed + SLOT_B) :: now[k] == was[k]
    ensures RecordAt(now, s, at)
  {
    assert now[at..at + SLOT_B] == was[at..at + SLOT_B];
  }

  predicate Earlier(c: nat, j: nat, b: nat, i: nat) {
    c < b || (c == b && j < i)
  }

  lemma EarlierFrame(bank: array2<ChSlot>, was: seq<nat>, now: seq<nat>, b: nat, i: nat)
    requires bank.Length0 == BANKS && bank.Length1 == SLOTS && b < BANKS && i < SLOTS && |now| == |was|
    requires forall c: nat, j: nat | c < BANKS && j < SLOTS && Earlier(c, j, b, i) ::
      RecordAt(was, bank[c, j], Offset(c, j))
    requires forall k | 0 <= k < |was| && !(Offset(b, i) <= k < Offset(b, i) + SLOT_B) :: now[k] == was[k]
    ensures forall c: nat, j: nat | c < BANKS && j < SLOTS && Earlier(c, j, b, i) ::
      RecordAt(now, bank[c, j], Offset(c, j))
  {
    forall c: nat, j: nat | c < BANKS && j < SLOTS && Earlier(c, j, b, i)
      ensures RecordAt(now, bank[c, j], Offset(c, j))
    {
      RecordFrame(was, now, bank[c, j], Offset(c, j), Offset(b, i));
    }
  }

  method Pack(bank: array2<ChSlot>, out: array<nat>)
    requires bank.Length0 == BANKS && bank.Length1 == SLOTS && out.Length == BANKS * SLOTS * SLOT_B
    requires forall b, i | 0 <= b < BANKS && 0 <= i < SLOTS :: |bank[b, i].v.note| == VOICES
    modifies out
    ensures forall b, i | 0 <= b < BANKS && 0 <= i < SLOTS :: RecordAt(out[..], bank[b, i], Offset(b, i))
  {
    for b := 0 to BANKS
      invariant forall c: nat, j: nat | c < BANKS && j < SLOTS && Earlier(c, j, b, 0) ::
        RecordAt(out[..], bank[c, j], Offset(c, j))
    {
      for i := 0 to SLOTS
        invariant forall c: nat, j: nat | c < BANKS && j < SLOTS && Earlier(c, j, b, i) ::
          RecordAt(out[..], bank[c, j], Offset(c, j))
      {
        ghost var was := out[..];
        PackSlot(bank[b, i], out, Offset(b, i));
        EarlierFrame(bank, was, out[..], b, i);
      }
    }
  }

  method PackSlot(s: ChSlot, out: array<nat>, at: nat)
    requires |s.v.note| == VOICES && at + SLOT_B <= out.Length
    modifies out
    ensures out[at..at + SLOT_B] == SlotBytes(s)
    ensures forall k | 0 <= k < out.Length && !(at <= k < at + SLOT_B) :: out[k] == old(out[k])
  {
    PackVoicing(s.v, out, at);
    var o := at + 1 + VOICES;
    ghost var head := out[at..o];
    out[o], out[o + 1], out[o + 2], out[o + 3], out[o + 4] := s.root, s.kind, s.inv, s.spread, s.oct;
    out[o + 5], out[o + 6], out[o + 7], out[o + 8] := s.lead, s.mode, s.degree, s.flags;
    assert out[at..o] == head;
    assert out[at..at + SLOT_B] == out[at..o] + out[o..o + 9];
  }

  method PackVoicing(v: ChVoicing, out: array<nat>, at: nat)
    requires |v.note| == VOICES && at + SLOT_B <= out.Length
    modifies out
    ensures out[at..at + 1 + VOICES] == [v.n] + v.note
    ensures forall k | 0 <= k < out.Length && !(at <= k < at + 1 + VOICES) :: out[k] == old(out[k])
  {
    out[at] := v.n;
    for k := 0 to VOICES
      invariant out[at] == v.n && forall i | 0 <= i < k :: out[at + 1 + i] == v.note[i]
      invariant forall i | 0 <= i < out.Length && !(at <= i < at + 1 + VOICES) :: out[i] == old(out[i])
    {
      out[at + 1 + k] := v.note[k];
    }
  }

  ghost predicate IsRead(bytes: seq<nat>, s: ChSlot, at: nat)
    requires at + SLOT_B <= |bytes|
  {
    s.Valid() && s == ReadSlot(bytes[at..at + SLOT_B])
  }

  lemma ReadHere(bytes: seq<nat>, s: ChSlot, at: nat)
    requires at + SLOT_B <= |bytes| && s == ReadSlot(bytes[at..at + SLOT_B])
    ensures IsRead(bytes, s, at)
  {
    ReadIsValid(bytes[at..at + SLOT_B]);
  }

  method Unpack(bytes: array<nat>, bank: array2<ChSlot>)
    requires bank.Length0 == BANKS && bank.Length1 == SLOTS && bytes.Length == BANKS * SLOTS * SLOT_B
    modifies bank
    ensures forall b, i | 0 <= b < BANKS && 0 <= i < SLOTS :: IsRead(bytes[..], bank[b, i], Offset(b, i))
  {
    ghost var all := bytes[..];
    for b := 0 to BANKS
      invariant forall c, i | 0 <= c < b && 0 <= i < SLOTS :: IsRead(all, bank[c, i], Offset(c, i))
    {
      for i := 0 to SLOTS
        invariant forall c, j | 0 <= c < b && 0 <= j < SLOTS :: IsRead(all, bank[c, j], Offset(c, j))
        invariant forall j | 0 <= j < i :: IsRead(all, bank[b, j], Offset(b, j))
      {
        var s := UnpackSlot(bytes, Offset(b, i));
        ReadHere(bytes[..], s, Offset(b, i));
        bank[b, i] := s;
      }
    }
  }

  method UnpackSlot(bytes: array<nat>, at: nat) returns (s: ChSlot)
    requires at + SLOT_B <= bytes.Length
    ensures s == ReadSlot(bytes[..][at..at + SLOT_B])
  {
    assert bytes[at..at + SLOT_B] == bytes[..][at..at + SLOT_B];
    var r: seq<nat> := bytes[at..at + SLOT_B];
    var ok := r[0] <= VOICES && r[5] < 12 && r[6] < |TYPES| && r[7] < VOICES && r[8] < SPREADS && r[9] <= OCT_MAX
      && r[10] < LEAD_MAX && r[11] < MODES && (r[12] < 7 || r[12] == NONE) && r[13] <= 1;
    var k := 0;
    ghost var v := if r[0] <= VOICES then r[1..1 + r[0]] else [];
    while ok && k < r[0]
      invariant ok ==> r[0] <= VOICES && k <= r[0]
      invariant !ok ==> !Readable(r)
      invariant ok ==> forall i | 0 <= i < k :: v[i] <= NOTE_MAX && (i > 0 ==> v[i] > v[i - 1])
      decreases if ok then 1 + r[0] - k else 0
    {
      assert v[k] == r[1 + k] && (k > 0 ==> v[k - 1] == r[k]);
      ok := r[1 + k] <= NOTE_MAX && (k == 0 || r[1 + k] > r[k]);
      k := k + 1;
    }
    s := CLEARED;
    if !ok { return; }
    var notes: seq<nat> := r[1..][..r[0]];
    assert notes == r[1..1 + r[0]];
    s := ChSlot(Padded(notes), r[5], r[6], r[7], r[8], r[9], r[10], r[11], r[12], r[13]);
  }

  /** A bank packed and unpacked is the same bank, slot by slot, exactly where
      its slots are well formed. */
  lemma BankRoundTrip(bank: array2<ChSlot>, bytes: seq<nat>, b: nat, i: nat)
    requires bank.Length0 == BANKS && bank.Length1 == SLOTS && b < BANKS && i < SLOTS
    requires RecordAt(bytes, bank[b, i], Offset(b, i))
    ensures ReadSlot(bytes[Offset(b, i)..Offset(b, i) + SLOT_B]) == bank[b, i] <==> bank[b, i].Valid()
  {
    SlotRoundTrip(bank[b, i]);
  }
}
