/** Storing a scope's settings and loading the file again gives the values back. */
module SettingsRoundTrip {
  import opened Words
  import opened Bytes
  import opened RecordFile
  import opened Fields
  import opened Settings

  // ---- one field -----------------------------------------------------------------

  ghost predicate Fits(e: Setting, v: int) {
    && e.key < 0x1_0000 && 1 <= e.form <= 3
    && ValueOk(e, v) && if e.form == 3 then -0x8000 <= v < 0x8000 else 0 <= v < 0x100
  }

  lemma SettingFieldHead(e: Setting, v: int)
    requires e.key < 0x1_0000
    ensures var x := SettingField(e, v);
      IsField(x) && Key(x) == e.key && x[2] == e.form && LengthOf(x) == (if e.form == 3 then 2 else 1)
    ensures Data(SettingField(e, v)) == if e.form == 3 then Enc16(v % 0x1_0000) else [v % 0x100]
  {
    var x := SettingField(e, v);
    assert x[0..2] == Enc16(e.key);
    Read16(x, 0, e.key);
    if e.form == 3 { assert x[4..6] == Enc16(v % 0x1_0000); } else { assert x[4..5] == [v % 0x100]; }
  }

  lemma SettingFieldReads(e: Setting, v: int)
    requires e.key < 0x1_0000 && 1 <= e.form <= 3
    ensures IsField(SettingField(e, v)) && Key(SettingField(e, v)) == e.key
    ensures Fits(e, v) ==> ReadValue(e, SettingField(e, v)) == Some(v)
  {
    SettingFieldHead(e, v);
    if Fits(e, v) {
      NumberReads(e, v);
      ValueReads(e, SettingField(e, v), v);
    }
  }

  function Decoded(e: Setting, x: Field): int
    requires IsField(x) && LengthOf(x) == (if e.form == 3 then 2 else 1)
  {
    if e.form == 3 then Short(Be16(Data(x), 0)) else Data(x)[0]
  }

  /** Signed numbers read back, from either end of their range. */
  lemma NumberReads(e: Setting, v: int)
    requires e.key < 0x1_0000 && if e.form == 3 then -0x8000 <= v < 0x8000 else 0 <= v < 0x100
    ensures IsField(SettingField(e, v)) && LengthOf(SettingField(e, v)) == (if e.form == 3 then 2 else 1)
    ensures Decoded(e, SettingField(e, v)) == v
  {
    SettingFieldHead(e, v);
    var data := Data(SettingField(e, v));
    if e.form == 3 {
      assert data[0..2] == data;
      Read16(data, 0, v % 0x1_0000);
    }
  }

  lemma ValueReads(e: Setting, x: Field, v: int)
    requires IsField(x) && x[2] == e.form && LengthOf(x) == (if e.form == 3 then 2 else 1)
    requires Decoded(e, x) == v && ValueOk(e, v)
    ensures ReadValue(e, x) == Some(v)
  {
  }

  // ---- one record -------------------------------------------------------------------

  lemma {:induction false} AfterFieldsJoin(t: Table, vals: seq<int>, scope: nat, id: seq<byte>, a: seq<Field>,
                                           b: seq<Field>)
    requires |vals| == |t| && AllFields(a) && AllFields(b)
    ensures AllFields(a + b)
    ensures AfterFields(t, vals, scope, id, a + b) == AfterFields(t, AfterFields(t, vals, scope, id, a), scope, id, b)
    decreases |b|
  {
    if b == [] {
      assert a + b == a;
    } else {
      var n := |b| - 1;
      AfterFieldsJoin(t, vals, scope, id, a, b[..n]);
      assert (a + b)[..|a + b| - 1] == a + b[..n];
    }
  }

  lemma AfterFieldsPush(t: Table, vals: seq<int>, scope: nat, id: seq<byte>, done: seq<Field>, x: Field)
    requires |vals| == |t| && AllFields(done) && IsField(x)
    ensures AllFields(done + [x])
    ensures AfterFields(t, vals, scope, id, done + [x])
      == AfterField(t, AfterFields(t, vals, scope, id, done), scope, id, x)
  {
    assert (done + [x])[..|done|] == done;
  }

  /** The value a store's fields give an entry: the last under its key that fits. */
  function LastFit(e: Setting, fs: seq<Field>): Option<int>
    requires AllFields(fs)
  {
    if fs == [] then None
    else
      var x := fs[|fs| - 1];
      if e.key == Key(x) && ReadValue(e, x).Some? then ReadValue(e, x) else LastFit(e, fs[..|fs| - 1])
  }

  /** A value that fits is in bounds and on a step. */
  lemma FittingValue(e: Setting, x: Field)
    requires IsField(x)
    ensures ReadValue(e, x).Some? ==> ValueOk(e, ReadValue(e, x).value)
  {
  }

  lemma {:induction false} FieldsApply(t: Table, vals: seq<int>, scope: nat, id: seq<byte>, fs: seq<Field>, i: nat)
    requires |vals| == |t| && AllFields(fs) && i < |t|
    ensures AfterFields(t, vals, scope, id, fs)[i]
         == if InStore(t[i], scope, id) && LastFit(t[i], fs).Some? then LastFit(t[i], fs).value else vals[i]
    decreases |fs|
  {
    if fs != [] { FieldsApply(t, vals, scope, id, fs[..|fs| - 1], i); }
  }

  /** One settings record, entry by entry: of its store and scope only, and of a schema
      it knows, each takes the last value under its key that fits, or keeps its own. */
  lemma RecordApplies(t: Table, vals: seq<int>, scope: nat, r: Rec, i: nat)
    requires |vals| == |t| && IsRecord(r) && AllFields(FieldsOf(Payload(r))) && i < |t|
    ensures var fit := LastFit(t[i], FieldsOf(Payload(r)));
      AfterRecord(t, vals, scope, r)[i]
      == if Schema(r) == 1 && InStore(t[i], scope, Id(r)) && fit.Some? then fit.value else vals[i]
  {
    FieldsApply(t, vals, scope, Id(r), FieldsOf(Payload(r)), i);
  }

  lemma {:induction false} FitIsOk(e: Setting, fs: seq<Field>)
    requires AllFields(fs) && LastFit(e, fs).Some?
    ensures ValueOk(e, LastFit(e, fs).value)
  {
    var x := fs[|fs| - 1];
    FittingValue(e, x);
    if !(e.key == Key(x) && ReadValue(e, x).Some?) { FitIsOk(e, fs[..|fs| - 1]); }
  }

  ghost predicate InBounds(t: Table, vals: seq<int>) {
    |vals| == |t| && forall i | 0 <= i < |t| :: ValueOk(t[i], vals[i])
  }

  lemma RecordInBounds(t: Table, vals: seq<int>, scope: nat, r: Rec)
    requires InBounds(t, vals) && IsRecord(r)
    ensures InBounds(t, AfterRecord(t, vals, scope, r))
  {
    var fs := FieldsOf(Payload(r));
    FieldsAreFields(Payload(r));
    forall i | 0 <= i < |t| ensures ValueOk(t[i], AfterRecord(t, vals, scope, r)[i]) {
      RecordApplies(t, vals, scope, r, i);
      if LastFit(t[i], fs).Some? { FitIsOk(t[i], fs); }
    }
  }

  /** Whatever a file holds, loading it keeps every value in bounds and on its step. */
  lemma {:induction false} LoadInBounds(t: Table, vals: seq<int>, scope: nat, rs: seq<Rec>, k: nat, crc: Crc)
    requires InBounds(t, vals) && AllRecords(rs) && k <= |rs|
    ensures InBounds(t, Loaded(t, vals, scope, rs, k, crc))
    decreases k
  {
    if k > 0 {
      LoadInBounds(t, vals, scope, rs, k - 1, crc);
      RecordInBounds(t, Loaded(t, vals, scope, rs, k - 1, crc), scope, rs[k - 1]);
    }
  }

  /** The values with a store's own entries from `from` on put in. */
  function Merged(t: Table, vals: seq<int>, w: seq<int>, scope: nat, id: seq<byte>, from: nat): (m: seq<int>)
    requires |vals| == |t| == |w|
    ensures |m| == |t|
  {
    seq(|t|, i requires 0 <= i < |t| => if i >= from && InStore(t[i], scope, id) then vals[i] else w[i])
  }

  lemma OneFieldSets(t: Table, vals: seq<int>, w: seq<int>, scope: nat, id: seq<byte>, e: nat)
    requires WellFormed(t) && |vals| == |t| == |w| && e < |t| && InStore(t[e], scope, id) && Fits(t[e], vals[e])
    ensures IsField(SettingField(t[e], vals[e]))
    ensures AfterField(t, w, scope, id, SettingField(t[e], vals[e])) == w[e := vals[e]]
  {
    SettingFieldReads(t[e], vals[e]);
    forall i | 0 <= i < |t| && i != e && InStore(t[i], scope, id) ensures t[i].key != t[e].key {
      if i < e { assert InStore(t[e], t[i].scope, t[i].id); } else { assert InStore(t[i], t[e].scope, t[e].id); }
    }
  }

  lemma OneField(t: Table, w: seq<int>, scope: nat, id: seq<byte>, x: Field)
    requires |w| == |t| && IsField(x)
    ensures AfterFields(t, w, scope, id, [x]) == AfterField(t, w, scope, id, x)
  {
    var none: seq<Field> := [x][..0];
    assert none == [];
  }

  /** The known fields from `from` on set exactly their entries. */
  ghost predicate KnownSet(t: Table, vals: seq<int>, w: seq<int>, scope: nat, id: seq<byte>, from: nat)
    requires |vals| == |t| == |w| && from <= |t|
  {
    var fs := KnownFields(t, vals, scope, id, from);
    AllFields(fs) && AfterFields(t, w, scope, id, fs) == Merged(t, vals, w, scope, id, from)
  }

  lemma {:induction false} KnownFieldsSet(t: Table, vals: seq<int>, w: seq<int>, scope: nat, id: seq<byte>, from: nat)
    requires WellFormed(t) && |vals| == |t| == |w| && from <= |t| && ValuesFit(t, vals, scope)
    ensures KnownSet(t, vals, w, scope, id, from)
    decreases |t| - from
  {
    if from < |t| {
      if InStore(t[from], scope, id) {
        KnownFieldsSet(t, vals, w[from := vals[from]], scope, id, from + 1);
        OneKnown(t, vals, w, scope, id, from);
      } else {
        KnownFieldsSet(t, vals, w, scope, id, from + 1);
        NoneKnownHere(t, vals, w, scope, id, from);
      }
    }
  }

  lemma OneKnown(t: Table, vals: seq<int>, w: seq<int>, scope: nat, id: seq<byte>, from: nat)
    requires WellFormed(t) && |vals| == |t| == |w| && from < |t| && InStore(t[from], scope, id)
      && Fits(t[from], vals[from])
    requires KnownSet(t, vals, w[from := vals[from]], scope, id, from + 1)
    ensures KnownSet(t, vals, w, scope, id, from)
  {
    var x, rest := SettingField(t[from], vals[from]), KnownFields(t, vals, scope, id, from + 1);
    OneFieldSets(t, vals, w, scope, id, from);
    AfterFieldsJoin(t, w, scope, id, [x], rest);
    OneField(t, w, scope, id, x);
    assert KnownFields(t, vals, scope, id, from) == [x] + rest;
  }

  lemma NoneKnownHere(t: Table, vals: seq<int>, w: seq<int>, scope: nat, id: seq<byte>, from: nat)
    requires |vals| == |t| == |w| && from < |t| && !InStore(t[from], scope, id)
    requires KnownSet(t, vals, w, scope, id, from + 1)
    ensures KnownSet(t, vals, w, scope, id, from)
  {
    assert KnownFields(t, vals, scope, id, from) == KnownFields(t, vals, scope, id, from + 1);
  }

  ghost predicate NoneKnown(known: nat -> bool, us: seq<Field>)
    requires AllFields(us)
  {
    forall i | 0 <= i < |us| :: !known(Key(us[i]))
  }

  lemma {:induction false} UnknownFieldsSet(t: Table, w: seq<int>, scope: nat, id: seq<byte>, us: seq<Field>)
    requires |w| == |t| && AllFields(us) && NoneKnown(Known(t, scope, id), us)
    ensures AfterFields(t, w, scope, id, us) == w
    decreases |us|
  {
    if us != [] {
      UnknownFieldsSet(t, w, scope, id, us[..|us| - 1]);
      assert !Known(t, scope, id)(Key(us[|us| - 1]));
    }
  }

  lemma {:induction false} UnknownAreUnknown(known: nat -> bool, fs: seq<Field>)
    requires AllFields(fs)
    ensures NoneKnown(known, UnknownFields(known, fs))
  {
    if fs != [] { UnknownAreUnknown(known, fs[1..]); }
  }

  lemma KeptAreUnknown(t: Table, scope: nat, id: seq<byte>, rs: seq<Rec>)
    ensures NoneKnown(Known(t, scope, id), KeptFields(t, scope, id, rs))
  {
    var r := FirstOf(rs, id);
    if r.Some? {
      FieldsAreFields(Payload(r.value));
      UnknownAreUnknown(Known(t, scope, id), FieldsOf(Payload(r.value)));
    }
  }

  lemma UnknownLonger(known: nat -> bool, x: Field, rest: seq<Field>)
    requires IsField(x) && AllFields(rest)
    ensures UnknownFields(known, [x] + rest) == (if known(Key(x)) then [] else [x]) + UnknownFields(known, rest)
  {
    assert ([x] + rest)[1..] == rest;
  }

  /** The fields of a stored record: the scope's values, then every field of the
      record replaced that the table does not know. */
  lemma StoredFields(t: Table, vals: seq<int>, scope: nat, e: nat, rs: seq<Rec>)
    requires WellFormed(t) && |vals| == |t| && e < |t| && AllRecords(rs) && ValuesFit(t, vals, scope)
    ensures FieldsOf(StorePayload(t, vals, scope, e, rs))
         == KnownFields(t, vals, scope, t[e].id, e) + KeptFields(t, scope, t[e].id, rs)
  {
    var known, kept := KnownFields(t, vals, scope, t[e].id, e), KeptFields(t, scope, t[e].id, rs);
    KnownFieldsSet(t, vals, vals, scope, t[e].id, e);
    FlatJoin(known, kept);
    FieldsReadBack(known + kept, []);
    assert Flat(known + kept) + [] == StorePayload(t, vals, scope, e, rs);
    assert known + kept + FieldsOf([]) == known + kept;
  }

  /** Loading a stored record sets exactly its store's entries. */
  lemma StoredRecordSets(t: Table, vals: seq<int>, w: seq<int>, scope: nat, e: nat, rs: seq<Rec>, crc: Crc)
    requires WellFormed(t) && |vals| == |t| == |w| && e < |t| && AllRecords(rs) && ValuesFit(t, vals, scope)
    requires Leads(t, scope, e) && |StorePayload(t, vals, scope, e, rs)| < BUF_LEN
    ensures var r := StoreRecord(t, vals, scope, e, rs, crc);
      && IsRecord(r) && StoreId(r) == Some(t[e].id) && Intact(r, crc)
      && AfterRecord(t, w, scope, r) == Merged(t, vals, w, scope, t[e].id, 0)
  {
    var id := t[e].id;
    var known, kept := KnownFields(t, vals, scope, id, e), KeptFields(t, scope, id, rs);
    NewRecordReads(K_SETTINGS, id, StorePayload(t, vals, scope, e, rs), crc);
    StoredFields(t, vals, scope, e, rs);
    KnownFieldsSet(t, vals, w, scope, id, e);
    AfterFieldsJoin(t, w, scope, id, known, kept);
    KeptAreUnknown(t, scope, id, rs);
    UnknownFieldsSet(t, Merged(t, vals, w, scope, id, e), scope, id, kept);
    assert Merged(t, vals, w, scope, id, e) == Merged(t, vals, w, scope, id, 0);
  }

  // ---- a whole file -------------------------------------------------------------------

  type Ids = seq<Option<seq<byte>>>

  lemma {:induction false} OtherStoreSets(t: Table, w: seq<int>, scope: nat, id: seq<byte>, fs: seq<Field>)
    requires |w| == |t| && AllFields(fs) && forall i | 0 <= i < |t| :: !InStore(t[i], scope, id)
    ensures AfterFields(t, w, scope, id, fs) == w
    decreases |fs|
  {
    if fs != [] { OtherStoreSets(t, w, scope, id, fs[..|fs| - 1]); }
  }

  /** Entry i's store has a record among the first k. */
  ghost predicate Stored(t: Table, ls: Ids, k: nat, i: nat)
    requires i < |t| && k <= |ls|
  {
    exists j | 0 <= j < k :: ls[j] == Some(t[i].id)
  }

  /** The values once the first k records are loaded. */
  ghost function Expected(t: Table, vals: seq<int>, vals0: seq<int>, scope: nat, ls: Ids, k: nat): (w: seq<int>)
    requires |vals| == |t| == |vals0| && k <= |ls|
    ensures |w| == |t|
  {
    seq(|t|, i requires 0 <= i < |t| => if t[i].scope == scope && Stored(t, ls, k, i) then vals[i] else vals0[i])
  }

  lemma ExpectedStep(t: Table, vals: seq<int>, vals0: seq<int>, scope: nat, ls: Ids, k: nat)
    requires |vals| == |t| == |vals0| && k < |ls|
    ensures Expected(t, vals, vals0, scope, ls, k + 1)
         == if ls[k].Some? then Merged(t, vals, Expected(t, vals, vals0, scope, ls, k), scope, ls[k].value, 0)
            else Expected(t, vals, vals0, scope, ls, k)
  {
    forall i | 0 <= i < |t| ensures Stored(t, ls, k + 1, i) <==> Stored(t, ls, k, i) || ls[k] == Some(t[i].id) {
      if ls[k] == Some(t[i].id) { assert Stored(t, ls, k + 1, i); }
    }
  }

  /** Record k puts in its store's values, whatever they were. */
  ghost predicate Puts(t: Table, vals: seq<int>, scope: nat, rs: seq<Rec>, k: nat, crc: Crc)
    requires |vals| == |t| && AllRecords(rs) && k < |rs|
  {
    forall w: seq<int> | |w| == |t| ::
      AfterOne(t, w, scope, rs, k, crc)
        == if StoreId(rs[k]).Some? then Merged(t, vals, w, scope, StoreId(rs[k]).value, 0) else w
  }

  /** Loading a file whose every record puts in its store's values gives the values
      of the stores it holds. */
  lemma {:induction false} LoadedIsExpected(t: Table, vals: seq<int>, vals0: seq<int>, scope: nat, rs: seq<Rec>, k: nat,
                                            crc: Crc)
    requires |vals| == |t| == |vals0| && AllRecords(rs) && k <= |rs|
    requires forall j | 0 <= j < |rs| :: Puts(t, vals, scope, rs, j, crc)
    ensures IsExpected(t, vals, vals0, scope, rs, k, crc)
    decreases k
  {
    if k > 0 {
      LoadedIsExpected(t, vals, vals0, scope, rs, k - 1, crc);
      LoadedMore(t, vals, vals0, scope, rs, k - 1, crc);
    } else {
      NothingExpected(t, vals, vals0, scope, StoreIds(rs));
    }
  }

  ghost predicate IsExpected(t: Table, vals: seq<int>, vals0: seq<int>, scope: nat, rs: seq<Rec>, k: nat, crc: Crc)
    requires |vals| == |t| == |vals0| && AllRecords(rs) && k <= |rs|
  {
    Loaded(t, vals0, scope, rs, k, crc) == Expected(t, vals, vals0, scope, StoreIds(rs), k)
  }

  lemma LoadedMore(t: Table, vals: seq<int>, vals0: seq<int>, scope: nat, rs: seq<Rec>, k: nat, crc: Crc)
    requires |vals| == |t| == |vals0| && AllRecords(rs) && k < |rs| && Puts(t, vals, scope, rs, k, crc)
    requires IsExpected(t, vals, vals0, scope, rs, k, crc)
    ensures IsExpected(t, vals, vals0, scope, rs, k + 1, crc)
  {
    LoadedStep(t, vals, vals0, scope, rs, k, crc, Expected(t, vals, vals0, scope, StoreIds(rs), k));
  }

  lemma LoadedNext(t: Table, vals: seq<int>, scope: nat, rs: seq<Rec>, k: nat, crc: Crc)
    requires |vals| == |t| && AllRecords(rs) && k < |rs|
    ensures Loaded(t, vals, scope, rs, k + 1, crc) == AfterOne(t, Loaded(t, vals, scope, rs, k, crc), scope, rs, k, crc)
  {
  }

  lemma NothingExpected(t: Table, vals: seq<int>, vals0: seq<int>, scope: nat, ls: Ids)
    requires |vals| == |t| == |vals0|
    ensures Expected(t, vals, vals0, scope, ls, 0) == vals0
  {
  }

  lemma LoadedStep(t: Table, vals: seq<int>, vals0: seq<int>, scope: nat, rs: seq<Rec>, k: nat, crc: Crc, w: seq<int>)
    requires |vals| == |t| == |vals0| && AllRecords(rs) && k < |rs| && Puts(t, vals, scope, rs, k, crc)
    requires w == Expected(t, vals, vals0, scope, StoreIds(rs), k)
    ensures AfterOne(t, w, scope, rs, k, crc) == Expected(t, vals, vals0, scope, StoreIds(rs), k + 1)
  {
    var id := StoreId(rs[k]);
    assert StoreIds(rs)[k] == id;
    assert AfterOne(t, w, scope, rs, k, crc) == if id.Some? then Merged(t, vals, w, scope, id.value, 0) else w;
    ExpectedStep(t, vals, vals0, scope, StoreIds(rs), k);
  }

  /** A record of a store outside the scope puts nothing in. */
  lemma OtherPuts(t: Table, vals: seq<int>, scope: nat, rs: seq<Rec>, k: nat, crc: Crc)
    requires |vals| == |t| && AllRecords(rs) && k < |rs|
    requires forall i | 0 <= i < |t| && t[i].scope == scope :: StoreId(rs[k]) != Some(t[i].id)
    ensures Puts(t, vals, scope, rs, k, crc)
  {
    var r := rs[k];
    if StoreId(r).Some? {
      var id := StoreId(r).value;
      forall w: seq<int> | |w| == |t|
        ensures AfterOne(t, w, scope, rs, k, crc) == w == Merged(t, vals, w, scope, id, 0)
      {
        FieldsAreFields(Payload(r));
        OtherStoreSets(t, w, scope, id, FieldsOf(Payload(r)));
      }
    }
  }

  // ---- the file that storing writes ----------------------------------------------------

  /** A scope's leaders are of different stores, and each of its stores has one. */
  lemma {:induction false} LeadersLead(t: Table, scope: nat, e: nat)
    requires e <= |t|
    ensures forall j | 0 <= j < |Leaders(t, scope, e)| :: Leads(t, scope, Leaders(t, scope, e)[j])
    ensures forall j, k | 0 <= j < k < |Leaders(t, scope, e)| ::
      t[Leaders(t, scope, e)[j]].id != t[Leaders(t, scope, e)[k]].id
  {
    if e > 0 {
      LeadersLead(t, scope, e - 1);
      var before := Leaders(t, scope, e - 1);
      if Leads(t, scope, e - 1) {
        assert forall j | 0 <= j < |before| :: !InStore(t[before[j]], scope, t[e - 1].id);
      }
    }
  }

  function LeaderIds(t: Table, scope: nat, e: nat): (ids: seq<seq<byte>>)
    requires e <= |t|
    ensures |ids| == |Leaders(t, scope, e)|
    ensures forall j | 0 <= j < |ids| :: ids[j] == t[Leaders(t, scope, e)[j]].id
  {
    if e == 0 then [] else LeaderIds(t, scope, e - 1) + if Leads(t, scope, e - 1) then [t[e - 1].id] else []
  }

  lemma {:induction false} LeaderIdsGrow(t: Table, scope: nat, d: nat, e: nat, id: seq<byte>)
    requires d <= e <= |t| && id in LeaderIds(t, scope, d)
    ensures id in LeaderIds(t, scope, e)
    decreases e
  {
    if d < e { LeaderIdsGrow(t, scope, d, e - 1, id); }
  }

  lemma {:induction false} EveryStoreLed(t: Table, scope: nat, e: nat, i: nat)
    requires i < e <= |t| && t[i].scope == scope
    ensures t[i].id in LeaderIds(t, scope, e)
    decreases i
  {
    if Leads(t, scope, i) {
      assert t[i].id in LeaderIds(t, scope, i + 1);
      LeaderIdsGrow(t, scope, i + 1, e, t[i].id);
    } else {
      var f :| 0 <= f < i && InStore(t[f], scope, t[i].id);
      EveryStoreLed(t, scope, e, f);
    }
  }

  /** Where the records of a file's stores of this scope are: those at `at` on, one
      for each leader, and no others. */
  ghost predicate OnlyLeaders(t: Table, scope: nat, ls: Ids, at: nat, leaders: seq<nat>)
    requires at + |leaders| <= |ls| && forall j | 0 <= j < |leaders| :: leaders[j] < |t|
  {
    && (forall j | 0 <= j < |leaders| :: ls[at + j] == Some(t[leaders[j]].id))
    && (forall k, i | 0 <= k < |ls| && 0 <= i < |t| && t[i].scope == scope && ls[k] == Some(t[i].id) ::
      at <= k < at + |leaders|)
  }

  lemma LeadersOnce(t: Table, scope: nat, ls: Ids, at: nat, k: nat)
    requires at + |Leaders(t, scope, |t|)| <= |ls| && OnlyLeaders(t, scope, ls, at, Leaders(t, scope, |t|))
    requires at <= k < at + |Leaders(t, scope, |t|)|
    ensures !Twice(ls, k)
  {
    LeadersLead(t, scope, |t|);
    var leaders := Leaders(t, scope, |t|);
    forall j | 0 <= j < |ls| && ls[j] == ls[k] ensures j == k {
      var l := leaders[k - at];
      assert t[l].scope == scope && ls[at + (k - at)] == Some(t[l].id);
      var m := j - at;
      assert ls[at + m] == Some(t[leaders[m]].id);
    }
  }

  lemma LeadersAllStored(t: Table, scope: nat, ls: Ids, at: nat)
    requires at + |Leaders(t, scope, |t|)| <= |ls| && OnlyLeaders(t, scope, ls, at, Leaders(t, scope, |t|))
    ensures forall i | 0 <= i < |t| && t[i].scope == scope :: Stored(t, ls, |ls|, i)
  {
    var leaders := Leaders(t, scope, |t|);
    forall i | 0 <= i < |t| && t[i].scope == scope ensures Stored(t, ls, |ls|, i) {
      EveryStoreLed(t, scope, |t|, i);
      var ids := LeaderIds(t, scope, |t|);
      var j :| 0 <= j < |ids| && ids[j] == t[i].id;
      assert ls[at + j] == Some(t[i].id);
    }
  }

  // ---- the round trip ------------------------------------------------------------------

  /** None of these is a settings record of the scope's stores. */
  ghost predicate NotOurs(t: Table, scope: nat, rs: seq<Rec>) {
    forall k, i | 0 <= k < |rs| && 0 <= i < |t| && t[i].scope == scope :: StoreId(rs[k]) != Some(t[i].id)
  }

  lemma OneNotOurs(t: Table, scope: nat, project: bool, k: nat, r: Rec)
    requires IsRecord(r)
    ensures NotOurs(t, scope, Outcome(OursChoice(t, scope, project), k, r))
  {
    if !Ours(t, scope, project, r) {
      forall i | 0 <= i < |t| && t[i].scope == scope ensures StoreId(r) != Some(t[i].id) {
        assert StoreId(r).Some? ==> !InStore(t[i], scope, StoreId(r).value);
      }
    }
  }

  lemma NotOursJoin(t: Table, scope: nat, a: seq<Rec>, b: seq<Rec>)
    requires NotOurs(t, scope, a) && NotOurs(t, scope, b)
    ensures NotOurs(t, scope, a + b)
  {
  }

  lemma {:induction false} SurvivorsNotOurs(t: Table, scope: nat, project: bool, rs: seq<Rec>)
    requires AllRecords(rs)
    ensures NotOurs(t, scope, Survivors(rs, OursChoice(t, scope, project)))
  {
    if rs != [] {
      var n := |rs| - 1;
      SurvivorsNotOurs(t, scope, project, rs[..n]);
      OneNotOurs(t, scope, project, n, rs[n]);
      NotOursJoin(t, scope, Survivors(rs[..n], OursChoice(t, scope, project)),
                  Outcome(OursChoice(t, scope, project), n, rs[n]));
    }
  }

  /** A record written for leader l: its store's, intact, and setting it. */
  ghost predicate Right(t: Table, vals: seq<int>, scope: nat, r: Rec, l: nat, crc: Crc)
    requires |vals| == |t| && l < |t|
  {
    && IsRecord(r) && StoreId(r) == Some(t[l].id) && Intact(r, crc)
    && forall w: seq<int> | |w| == |t| :: AfterRecord(t, w, scope, r) == Merged(t, vals, w, scope, t[l].id, 0)
  }

  lemma StoreRecordRight(t: Table, vals: seq<int>, scope: nat, l: nat, rs: seq<Rec>, crc: Crc)
    requires WellFormed(t) && |vals| == |t| && l < |t| && AllRecords(rs) && ValuesFit(t, vals, scope)
    requires Leads(t, scope, l) && |StoreRecord(t, vals, scope, l, rs, crc)| <= BUF_LEN
    ensures Right(t, vals, scope, StoreRecord(t, vals, scope, l, rs, crc), l, crc)
  {
    StoredRecordSets(t, vals, vals, scope, l, rs, crc);
    forall w: seq<int> | |w| == |t|
      ensures AfterRecord(t, w, scope, StoreRecord(t, vals, scope, l, rs, crc)) == Merged(t, vals, w, scope, t[l].id, 0)
    {
      StoredRecordSets(t, vals, w, scope, l, rs, crc);
    }
  }

  lemma {:induction false} StoreRecordAt(t: Table, vals: seq<int>, scope: nat, rs: seq<Rec>, crc: Crc, e: nat, j: nat)
    requires WellFormed(t) && |vals| == |t| && e <= |t| && AllRecords(rs) && j < |Leaders(t, scope, e)|
    ensures StoreRecords(t, vals, scope, rs, crc, e)[j] == StoreRecord(t, vals, scope, Leaders(t, scope, e)[j], rs, crc)
  {
    if j < |Leaders(t, scope, e - 1)| {
      StoreRecordAt(t, vals, scope, rs, crc, e - 1, j);
    }
  }

  lemma StoreRecordsRight(t: Table, vals: seq<int>, scope: nat, rs: seq<Rec>, crc: Crc)
    requires WellFormed(t) && |vals| == |t| && AllRecords(rs) && ValuesFit(t, vals, scope)
    requires |Flat(StoreRecords(t, vals, scope, rs, crc, |t|))| <= BUF_LEN
    ensures var ns, ls := StoreRecords(t, vals, scope, rs, crc, |t|), Leaders(t, scope, |t|);
      forall j | 0 <= j < |ls| :: Right(t, vals, scope, ns[j], ls[j], crc)
  {
    var ns, ls := StoreRecords(t, vals, scope, rs, crc, |t|), Leaders(t, scope, |t|);
    LeadersLead(t, scope, |t|);
    forall j | 0 <= j < |ls| ensures Right(t, vals, scope, ns[j], ls[j], crc) {
      MemberFits(ns, j);
      StoreRecordAt(t, vals, scope, rs, crc, |t|, j);
      StoreRecordRight(t, vals, scope, ls[j], rs, crc);
    }
  }

  /** A leader's record, the only one of its store, puts in its values. */
  lemma RightPuts(t: Table, vals: seq<int>, scope: nat, out: seq<Rec>, k: nat, l: nat, crc: Crc)
    requires |vals| == |t| && AllRecords(out) && k < |out| && l < |t|
    requires Right(t, vals, scope, out[k], l, crc) && !Twice(StoreIds(out), k)
    ensures Puts(t, vals, scope, out, k, crc)
  {
  }

  /** The leaders' records `ns` in a file, between others' records. */
  ghost predicate Middle(t: Table, vals: seq<int>, scope: nat, s: seq<Rec>, ns: seq<Rec>, ps: seq<Rec>, crc: Crc)
    requires |vals| == |t|
  {
    && AllRecords(s) && AllRecords(ns) && AllRecords(ps)
    && NotOurs(t, scope, s) && NotOurs(t, scope, ps) && |ns| == |Leaders(t, scope, |t|)|
    && forall j | 0 <= j < |ns| :: Right(t, vals, scope, ns[j], Leaders(t, scope, |t|)[j], crc)
  }

  lemma LeadersPlaced(t: Table, vals: seq<int>, scope: nat, s: seq<Rec>, ns: seq<Rec>, ps: seq<Rec>, crc: Crc)
    requires |vals| == |t| && Middle(t, vals, scope, s, ns, ps, crc)
    ensures OnlyLeaders(t, scope, StoreIds(s + ns + ps), |s|, Leaders(t, scope, |t|))
  {
    StoreIdsJoin(s, ns);
    StoreIdsJoin(s + ns, ps);
    OthersIds(t, scope, s);
    OthersIds(t, scope, ps);
    LeadersIds(t, vals, scope, ns, Leaders(t, scope, |t|), crc);
    IdsPlaced(t, scope, StoreIds(s), StoreIds(ns), StoreIds(ps), Leaders(t, scope, |t|));
  }

  lemma StoreIdsJoin(a: seq<Rec>, b: seq<Rec>)
    ensures StoreIds(a + b) == StoreIds(a) + StoreIds(b)
  {
  }

  lemma OthersIds(t: Table, scope: nat, s: seq<Rec>)
    requires NotOurs(t, scope, s)
    ensures NoneOf(t, scope, StoreIds(s))
  {
  }

  ghost predicate NoneOf(t: Table, scope: nat, ls: Ids) {
    forall k, i | 0 <= k < |ls| && 0 <= i < |t| && t[i].scope == scope :: ls[k] != Some(t[i].id)
  }

  lemma LeadersIds(t: Table, vals: seq<int>, scope: nat, ns: seq<Rec>, leaders: seq<nat>, crc: Crc)
    requires |vals| == |t| && |ns| == |leaders| && forall j | 0 <= j < |leaders| :: leaders[j] < |t|
    requires forall j | 0 <= j < |ns| :: Right(t, vals, scope, ns[j], leaders[j], crc)
    ensures forall j | 0 <= j < |ns| :: StoreIds(ns)[j] == Some(t[leaders[j]].id)
  {
    forall j | 0 <= j < |ns| ensures StoreIds(ns)[j] == Some(t[leaders[j]].id) {
      assert Right(t, vals, scope, ns[j], leaders[j], crc);
    }
  }

  lemma IdsPlaced(t: Table, scope: nat, a: Ids, b: Ids, c: Ids, leaders: seq<nat>)
    requires |b| == |leaders| && forall j | 0 <= j < |leaders| :: leaders[j] < |t|
    requires forall j | 0 <= j < |b| :: b[j] == Some(t[leaders[j]].id)
    requires NoneOf(t, scope, a) && NoneOf(t, scope, c)
    ensures OnlyLeaders(t, scope, a + b + c, |a|, leaders)
  {
  }

  lemma OutPuts(t: Table, vals: seq<int>, scope: nat, s: seq<Rec>, ns: seq<Rec>, ps: seq<Rec>, crc: Crc, out: seq<Rec>,
                k: nat)
    requires |vals| == |t| && Middle(t, vals, scope, s, ns, ps, crc) && AllRecords(out) && out == s + ns + ps
      && k < |out|
    requires OnlyLeaders(t, scope, StoreIds(out), |s|, Leaders(t, scope, |t|))
    ensures Puts(t, vals, scope, out, k, crc)
  {
    if |s| <= k < |s| + |ns| {
      var l := Leaders(t, scope, |t|)[k - |s|];
      assert Right(t, vals, scope, ns[k - |s|], l, crc);
      LeadersOnce(t, scope, StoreIds(out), |s|, k);
      RightPuts(t, vals, scope, out, k, l, crc);
    } else {
      assert out[k] == if k < |s| then s[k] else ps[k - |s| - |ns|];
      OtherPuts(t, vals, scope, out, k, crc);
    }
  }

  /** A file of others' records, then the leaders', then more of others' puts every
      value of the scope back. */
  lemma OutRestores(t: Table, vals: seq<int>, vals0: seq<int>, scope: nat, s: seq<Rec>, ns: seq<Rec>, ps: seq<Rec>,
                    crc: Crc, out: seq<Rec>)
    requires |vals| == |t| == |vals0| && Middle(t, vals, scope, s, ns, ps, crc) && out == s + ns + ps
    ensures AllRecords(out)
    ensures Loaded(t, vals0, scope, out, |out|, crc) == Put(t, vals, vals0, scope)
  {
    JoinRecords(s, ns);
    JoinRecords(s + ns, ps);
    LeadersPlaced(t, vals, scope, s, ns, ps, crc);
    forall k | 0 <= k < |out| ensures Puts(t, vals, scope, out, k, crc) {
      OutPuts(t, vals, scope, s, ns, ps, crc, out, k);
    }
    LoadedIsExpected(t, vals, vals0, scope, out, |out|, crc);
    AllPut(t, vals, vals0, scope, StoreIds(out), |s|);
  }

  /** A table with a scope's values put in. */
  function Put(t: Table, vals: seq<int>, vals0: seq<int>, scope: nat): (w: seq<int>)
    requires |vals| == |t| == |vals0|
    ensures |w| == |t| && forall i | 0 <= i < |t| :: w[i] == if t[i].scope == scope then vals[i] else vals0[i]
  {
    seq(|t|, i requires 0 <= i < |t| => if t[i].scope == scope then vals[i] else vals0[i])
  }

  lemma AllPut(t: Table, vals: seq<int>, vals0: seq<int>, scope: nat, ls: Ids, at: nat)
    requires |vals| == |t| == |vals0| && at + |Leaders(t, scope, |t|)| <= |ls|
    requires OnlyLeaders(t, scope, ls, at, Leaders(t, scope, |t|))
    ensures Expected(t, vals, vals0, scope, ls, |ls|) == Put(t, vals, vals0, scope)
  {
    LeadersAllStored(t, scope, ls, at);
  }

  /** The records that storing a scope writes. */
  function Out(t: Table, vals: seq<int>, scope: nat, rs: seq<Rec>, project: Option<seq<Effect>>, crc: Crc): seq<Rec>
    requires |vals| == |t| && AllRecords(rs) && WellFormed(t) && (project.Some? ==> EffectsFit(project.value))
  {
    Survivors(rs, OursChoice(t, scope, project.Some?)) + Added(t, vals, scope, rs, project, crc)
  }

  ghost predicate Storable(t: Table, vals: seq<int>, scope: nat, rs: seq<Rec>, project: Option<seq<Effect>>, crc: Crc) {
    && WellFormed(t) && |vals| == |t| && AllRecords(rs) && ValuesFit(t, vals, scope)
    && (project.Some? ==> EffectsFit(project.value))
    && HDR + |Flat(Out(t, vals, scope, rs, project, crc))| <= BUF_LEN
  }

  lemma OutIsMiddle(t: Table, vals: seq<int>, scope: nat, rs: seq<Rec>, project: Option<seq<Effect>>, crc: Crc)
    requires Storable(t, vals, scope, rs, project, crc)
    ensures var s, ns := Survivors(rs, OursChoice(t, scope, project.Some?)), StoreRecords(t, vals, scope, rs, crc, |t|);
      var ps := ProjectRecords(project, crc);
      Middle(t, vals, scope, s, ns, ps, crc) && Out(t, vals, scope, rs, project, crc) == s + ns + ps
  {
    var choice := OursChoice(t, scope, project.Some?);
    OutParts(Survivors(rs, choice), StoreRecords(t, vals, scope, rs, crc, |t|), ProjectRecords(project, crc));
    SurvivorsFit(rs, choice);
    SurvivorsNotOurs(t, scope, project.Some?, rs);
    StoreRecordsRight(t, vals, scope, rs, crc);
    RightAreRecords(t, vals, scope, StoreRecords(t, vals, scope, rs, crc, |t|), Leaders(t, scope, |t|), crc);
    ProjectNotOurs(t, scope, project, crc);
  }

  lemma OutParts(s: seq<Rec>, ns: seq<Rec>, ps: seq<Rec>)
    ensures s + (ns + ps) == s + ns + ps
    ensures |Flat(ns)| <= |Flat(s + (ns + ps))| && |Flat(ps)| <= |Flat(s + (ns + ps))|
  {
    FlatJoin(s, ns + ps);
    FlatJoin(ns, ps);
  }

  lemma RightAreRecords(t: Table, vals: seq<int>, scope: nat, ns: seq<Rec>, leaders: seq<nat>, crc: Crc)
    requires |vals| == |t| && |ns| == |leaders| && forall j | 0 <= j < |leaders| :: leaders[j] < |t|
    requires forall j | 0 <= j < |ns| :: Right(t, vals, scope, ns[j], leaders[j], crc)
    ensures AllRecords(ns)
  {
    forall j | 0 <= j < |ns| ensures IsRecord(ns[j]) {
      assert Right(t, vals, scope, ns[j], leaders[j], crc);
    }
  }

  /** Storing a scope and loading the file again restores exactly that scope's
      values, whatever the table held before, whatever else the file holds. */
  lemma RoundTrip(t: Table, vals: seq<int>, vals0: seq<int>, scope: nat, rs: seq<Rec>, project: Option<seq<Effect>>,
                  crc: Crc)
    requires Storable(t, vals, scope, rs, project, crc) && |vals0| == |t|
    ensures var out := Out(t, vals, scope, rs, project, crc);
      AllRecords(out) && Loaded(t, vals0, scope, out, |out|, crc) == Put(t, vals, vals0, scope)
  {
    OutIsMiddle(t, vals, scope, rs, project, crc);
    OutRestores(t, vals, vals0, scope, Survivors(rs, OursChoice(t, scope, project.Some?)),
                StoreRecords(t, vals, scope, rs, crc, |t|),
                ProjectRecords(project, crc), crc, Out(t, vals, scope, rs, project, crc));
  }

  /** The file then holds exactly one record of each of the scope's stores. */
  lemma OneRecordPerStore(t: Table, vals: seq<int>, scope: nat, rs: seq<Rec>, project: Option<seq<Effect>>, crc: Crc,
                          i: nat)
    requires Storable(t, vals, scope, rs, project, crc) && i < |t| && t[i].scope == scope
    ensures var ids := StoreIds(Out(t, vals, scope, rs, project, crc));
      exists k | 0 <= k < |ids| :: ids[k] == Some(t[i].id) && !Twice(ids, k)
  {
    OutIsMiddle(t, vals, scope, rs, project, crc);
    OnceInMiddle(t, vals, scope, Survivors(rs, OursChoice(t, scope, project.Some?)),
                 StoreRecords(t, vals, scope, rs, crc, |t|),
                 ProjectRecords(project, crc), crc, Out(t, vals, scope, rs, project, crc), i);
  }

  lemma OnceInMiddle(t: Table, vals: seq<int>, scope: nat, s: seq<Rec>, ns: seq<Rec>, ps: seq<Rec>, crc: Crc,
                     out: seq<Rec>, i: nat)
    requires |vals| == |t| && Middle(t, vals, scope, s, ns, ps, crc) && out == s + ns + ps && i < |t|
      && t[i].scope == scope
    ensures exists k | 0 <= k < |out| :: StoreIds(out)[k] == Some(t[i].id) && !Twice(StoreIds(out), k)
  {
    var ids := StoreIds(out);
    LeadersPlaced(t, vals, scope, s, ns, ps, crc);
    LeadersAllStored(t, scope, ids, |s|);
    var k :| 0 <= k < |ids| && ids[k] == Some(t[i].id);
    LeadersOnce(t, scope, ids, |s|, k);
  }

  lemma ProjectNotOurs(t: Table, scope: nat, project: Option<seq<Effect>>, crc: Crc)
    requires project.Some? ==> EffectsFit(project.value)
    requires |Flat(ProjectRecords(project, crc))| <= BUF_LEN
    ensures AllRecords(ProjectRecords(project, crc)) && NotOurs(t, scope, ProjectRecords(project, crc))
  {
    if project.Some? {
      MemberFits(ProjectRecords(project, crc), 0);
      NewRecordReads(K_PROJECT, OWN_STORE, ProjectPayload(project.value), crc);
    }
  }
}
