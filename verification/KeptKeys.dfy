/** BRAIN's rule for keys it does not know (brain.c, `write_set_file`): a store's record
    is written anew, and every field of the record it replaces for which the table has no
    entry goes along. */
module KeptKeys {
  import opened Words
  import opened Bytes
  import opened RecordFile
  import opened Fields
  import opened Settings
  import opened SettingsRoundTrip
  import opened Sequences

  /** The table has no entry for the field's key in the store. */
  ghost function Strange(t: Table, scope: nat, id: seq<byte>): Field -> bool {
    (x: Field) => IsField(x) && forall f | 0 <= f < |t| && InStore(t[f], scope, id) :: t[f].key != Key(x)
  }

  ghost function StrangeIn(t: Table, scope: nat, id: seq<byte>, r: Rec): seq<Field>
    requires IsRecord(r)
  {
    Filter(FieldsOf(Payload(r)), Strange(t, scope, id))
  }

  /** Record k is the first of the store. */
  ghost predicate IsFirst(rs: seq<Rec>, id: seq<byte>, k: nat) {
    k < |rs| && StoreId(rs[k]) == Some(id) && forall j | 0 <= j < k :: StoreId(rs[j]) != Some(id)
  }

  ghost predicate HasNone(rs: seq<Rec>, id: seq<byte>) {
    forall j | 0 <= j < |rs| :: StoreId(rs[j]) != Some(id)
  }

  /** The fields without an entry in a new record of the store are those of the first
      old one, in order, and none when there was no old one. */
  ghost predicate KeepsStrange(t: Table, scope: nat, id: seq<byte>, rs: seq<Rec>, r: Rec)
    requires IsRecord(r) && AllRecords(rs)
  {
    && (forall k: nat | IsFirst(rs, id, k) :: StrangeIn(t, scope, id, r) == StrangeIn(t, scope, id, rs[k]))
    && (HasNone(rs, id) ==> StrangeIn(t, scope, id, r) == [])
  }

  /** The store has a record, and each it has keeps those fields. */
  ghost predicate StoreKept(t: Table, scope: nat, id: seq<byte>, rs: seq<Rec>, out: seq<Rec>)
    requires AllRecords(rs) && AllRecords(out)
  {
    && (exists j | 0 <= j < |out| :: StoreId(out[j]) == Some(id))
    && (forall j | 0 <= j < |out| && StoreId(out[j]) == Some(id) :: KeepsStrange(t, scope, id, rs, out[j]))
  }

  /** So it is for every store of the scope. */
  ghost predicate UnknownKept(t: Table, scope: nat, rs: seq<Rec>, out: seq<Rec>)
    requires AllRecords(rs) && AllRecords(out)
  {
    forall e | 0 <= e < |t| && t[e].scope == scope :: StoreKept(t, scope, t[e].id, rs, out)
  }

  // ---- one record -------------------------------------------------------------------

  lemma {:induction false} UnknownAreStrange(t: Table, scope: nat, id: seq<byte>, fs: seq<Field>)
    requires AllFields(fs)
    ensures UnknownFields(Known(t, scope, id), fs) == Filter(fs, Strange(t, scope, id))
  {
    if fs != [] {
      var x, rest, p := fs[0], fs[1..], Strange(t, scope, id);
      UnknownAreStrange(t, scope, id, rest);
      FilterJoin([x], rest, p);
      FilterOne(x, p);
      assert fs == [x] + rest;
      assert p(x) <==> !Known(t, scope, id)(Key(x));
    }
  }

  lemma {:induction false} KnownHaveEntries(t: Table, vals: seq<int>, scope: nat, id: seq<byte>, from: nat)
    requires WellFormed(t) && |vals| == |t| && from <= |t|
    ensures var fs := KnownFields(t, vals, scope, id, from);
      AllFields(fs) && forall x | x in fs :: !Strange(t, scope, id)(x)
    decreases |t| - from
  {
    if from < |t| {
      KnownHaveEntries(t, vals, scope, id, from + 1);
      SettingFieldHead(t[from], vals[from]);
    }
  }

  lemma {:induction false} FirstOfIs(rs: seq<Rec>, id: seq<byte>, k: nat)
    requires IsFirst(rs, id, k)
    ensures FirstOf(rs, id) == Some(rs[k])
  {
    if k > 0 {
      assert StoreId(rs[0]) != Some(id);
      forall j | 0 <= j < k - 1 ensures StoreId(rs[1..][j]) != Some(id) { assert rs[1..][j] == rs[j + 1]; }
      FirstOfIs(rs[1..], id, k - 1);
    }
  }

  lemma {:induction false} FirstOfNone(rs: seq<Rec>, id: seq<byte>)
    requires HasNone(rs, id)
    ensures FirstOf(rs, id) == None
  {
    if rs != [] {
      assert StoreId(rs[0]) != Some(id);
      forall j | 0 <= j < |rs[1..]| ensures StoreId(rs[1..][j]) != Some(id) { assert rs[1..][j] == rs[j + 1]; }
      FirstOfNone(rs[1..], id);
    }
  }

  lemma {:induction false} StrangeTwice(t: Table, scope: nat, id: seq<byte>, fs: seq<Field>)
    ensures var p := Strange(t, scope, id); Filter(Filter(fs, p), p) == Filter(fs, p)
  {
    var p := Strange(t, scope, id);
    if fs != [] {
      var init, x := fs[..|fs| - 1], fs[|fs| - 1];
      StrangeTwice(t, scope, id, init);
      FilterOne(x, p);
      FilterJoin(Filter(init, p), if p(x) then [x] else [], p);
    }
  }

  /** The fields of a record made for a store, whatever the values. */
  lemma StoredStrange(t: Table, vals: seq<int>, scope: nat, e: nat, rs: seq<Rec>)
    requires WellFormed(t) && |vals| == |t| && e < |t| && AllRecords(rs)
    ensures Filter(FieldsOf(StorePayload(t, vals, scope, e, rs)), Strange(t, scope, t[e].id))
         == Filter(KeptFields(t, scope, t[e].id, rs), Strange(t, scope, t[e].id))
  {
    var id, p := t[e].id, Strange(t, scope, t[e].id);
    var known, kept := KnownFields(t, vals, scope, id, e), KeptFields(t, scope, id, rs);
    KnownHaveEntries(t, vals, scope, id, e);
    FlatJoin(known, kept);
    FieldsReadBack(known + kept, []);
    assert Flat(known + kept) + [] == StorePayload(t, vals, scope, e, rs);
    assert known + kept + FieldsOf([]) == known + kept;
    FilterJoin(known, kept, p);
    FilterNone(known, p);
  }

  lemma KeptAreStrange(t: Table, scope: nat, id: seq<byte>, rs: seq<Rec>, k: nat)
    requires AllRecords(rs) && IsFirst(rs, id, k)
    ensures Filter(KeptFields(t, scope, id, rs), Strange(t, scope, id)) == StrangeIn(t, scope, id, rs[k])
  {
    FirstOfIs(rs, id, k);
    FieldsAreFields(Payload(rs[k]));
    UnknownAreStrange(t, scope, id, FieldsOf(Payload(rs[k])));
    StrangeTwice(t, scope, id, FieldsOf(Payload(rs[k])));
  }

  lemma RecordKeepsStrange(t: Table, vals: seq<int>, scope: nat, e: nat, rs: seq<Rec>, crc: Crc)
    requires WellFormed(t) && |vals| == |t| && e < |t| && AllRecords(rs)
    requires |StoreRecord(t, vals, scope, e, rs, crc)| <= BUF_LEN
    ensures var r := StoreRecord(t, vals, scope, e, rs, crc);
      IsRecord(r) && StoreId(r) == Some(t[e].id) && KeepsStrange(t, scope, t[e].id, rs, r)
  {
    var id, r := t[e].id, StoreRecord(t, vals, scope, e, rs, crc);
    NewRecordReads(K_SETTINGS, id, StorePayload(t, vals, scope, e, rs), crc);
    StoredStrange(t, vals, scope, e, rs);
    forall k: nat | IsFirst(rs, id, k) ensures StrangeIn(t, scope, id, r) == StrangeIn(t, scope, id, rs[k]) {
      KeptAreStrange(t, scope, id, rs, k);
    }
    if HasNone(rs, id) { FirstOfNone(rs, id); }
  }

  // ---- the file ---------------------------------------------------------------------------

  /** Storing a scope keeps, in each of its stores' records, every field the table does
      not know of the record it replaces. */
  lemma StoringKeepsUnknown(t: Table, vals: seq<int>, scope: nat, rs: seq<Rec>, project: Option<seq<Effect>>, crc: Crc)
    requires WellFormed(t) && |vals| == |t| && AllRecords(rs) && (project.Some? ==> EffectsFit(project.value))
    requires AllRecords(Out(t, vals, scope, rs, project, crc))
    requires HDR + |Flat(Out(t, vals, scope, rs, project, crc))| <= BUF_LEN
    ensures UnknownKept(t, scope, rs, Out(t, vals, scope, rs, project, crc))
  {
    var s, ns := Survivors(rs, OursChoice(t, scope, project.Some?)), StoreRecords(t, vals, scope, rs, crc, |t|);
    var ps, out := ProjectRecords(project, crc), Out(t, vals, scope, rs, project, crc);
    OutParts(s, ns, ps);
    SurvivorsNotOurs(t, scope, project.Some?, rs);
    ProjectNotOurs(t, scope, project, crc);
    forall e | 0 <= e < |t| && t[e].scope == scope ensures StoreKept(t, scope, t[e].id, rs, out) {
      StoreKeeps(t, vals, scope, rs, s, ns, ps, e, crc);
    }
  }

  lemma StoreKeeps(t: Table, vals: seq<int>, scope: nat, rs: seq<Rec>, s: seq<Rec>, ns: seq<Rec>, ps: seq<Rec>, e: nat,
                   crc: Crc)
    requires WellFormed(t) && |vals| == |t| && AllRecords(rs) && AllRecords(s + ns + ps)
    requires ns == StoreRecords(t, vals, scope, rs, crc, |t|) && |Flat(ns)| <= BUF_LEN
    requires NotOurs(t, scope, s) && NotOurs(t, scope, ps) && e < |t| && t[e].scope == scope
    ensures StoreKept(t, scope, t[e].id, rs, s + ns + ps)
  {
    var out, id := s + ns + ps, t[e].id;
    var m := StoreIsWritten(t, vals, scope, rs, ns, e, crc);
    assert out[|s| + m] == ns[m];
    forall j | 0 <= j < |out| && StoreId(out[j]) == Some(id) ensures KeepsStrange(t, scope, id, rs, out[j]) {
      OnlyNew(t, scope, s, ns, ps, e, j);
      NewKeepsStrange(t, vals, scope, rs, ns, e, j - |s|, crc);
    }
  }

  /** Among others' records, only the new ones are of the scope's stores. */
  lemma OnlyNew(t: Table, scope: nat, s: seq<Rec>, ns: seq<Rec>, ps: seq<Rec>, e: nat, j: nat)
    requires NotOurs(t, scope, s) && NotOurs(t, scope, ps) && e < |t| && t[e].scope == scope
    requires j < |s + ns + ps| && StoreId((s + ns + ps)[j]) == Some(t[e].id)
    ensures |s| <= j < |s| + |ns| && (s + ns + ps)[j] == ns[j - |s|]
  {
  }

  lemma StoreIsWritten(t: Table, vals: seq<int>, scope: nat, rs: seq<Rec>, ns: seq<Rec>, e: nat, crc: Crc)
    returns (m: nat)
    requires WellFormed(t) && |vals| == |t| && AllRecords(rs) && e < |t| && t[e].scope == scope
    requires ns == StoreRecords(t, vals, scope, rs, crc, |t|) && |Flat(ns)| <= BUF_LEN
    ensures m < |ns| && StoreId(ns[m]) == Some(t[e].id)
  {
    EveryStoreLed(t, scope, |t|, e);
    var ids := LeaderIds(t, scope, |t|);
    m :| 0 <= m < |ids| && ids[m] == t[e].id;
    MemberFits(ns, m);
    StoreRecordAt(t, vals, scope, rs, crc, |t|, m);
    RecordKeepsStrange(t, vals, scope, Leaders(t, scope, |t|)[m], rs, crc);
  }

  lemma NewKeepsStrange(t: Table, vals: seq<int>, scope: nat, rs: seq<Rec>, ns: seq<Rec>, e: nat, m: nat, crc: Crc)
    requires WellFormed(t) && |vals| == |t| && AllRecords(rs) && e < |t| && m < |ns|
    requires ns == StoreRecords(t, vals, scope, rs, crc, |t|) && |Flat(ns)| <= BUF_LEN
      && StoreId(ns[m]) == Some(t[e].id)
    ensures IsRecord(ns[m]) && KeepsStrange(t, scope, t[e].id, rs, ns[m])
  {
    MemberFits(ns, m);
    StoreRecordAt(t, vals, scope, rs, crc, |t|, m);
    RecordKeepsStrange(t, vals, scope, Leaders(t, scope, |t|)[m], rs, crc);
  }
}
