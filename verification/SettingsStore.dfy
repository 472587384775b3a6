/** BRAIN's value table and the two loops over a file that fill it and store it
    (brain.c, `apply_settings`, `load_settings`, `write_set_file`). */
module SettingsStore {
  import opened Words
  import opened Bytes
  import opened RecordFile
  import opened Fields
  import opened Settings
  import opened CardStore
  import opened SettingsRoundTrip
  import StoreWriters
  import KeptKeys

  class Values {
    const table: Table
    const values: array<int>

    constructor (table: Table)
      ensures this.table == table && fresh(values) && values.Length == |table|
    {
      this.table := table;
      values := new int[|table|](_ => 0);
    }

    ghost predicate Valid() {
      values.Length == |table| && WellFormed(table)
    }

    /** The fields of one settings record into the table. */
    method ApplySettings(r: Rec, scope: nat)
      requires Valid() && IsRecord(r)
      modifies values
      ensures values[..] == AfterRecord(table, old(values[..]), scope, r)
    {
      var pay := Payload(r);
      FieldsAreFields(pay);
      ghost var read := (b: seq<byte>) => FieldsOf(b);
      forall at: nat | at <= |pay| ensures ReadsAt(read, pay, at) { FieldsOfReads(pay, at); }
      if Schema(r) == 1 { ApplyPayload(pay, scope, Id(r), read); }
    }

    method ApplyPayload(pay: seq<byte>, scope: nat, id: seq<byte>, ghost read: seq<byte> -> seq<Field>)
      requires Valid() && ReadsThrough(read, pay)
      modifies values
      ensures values[..] == AfterFields(table, old(values[..]), scope, id, read(pay))
    {
      ghost var done: seq<Field>, rest, all := [], read(pay), read(pay);
      assert pay[0..] == pay;
      var at, x := 0, [];
      x := NextRead(pay, 0, read);
      while x != []
        invariant 0 <= at <= |pay| && rest == read(pay[at..])
        invariant if x == [] then rest == [] else at + |x| <= |pay| && IsField(x) && rest == [x] + read(pay[at + |x|..])
        invariant AllFields(done) && done + rest == all
        invariant values[..] == AfterFields(table, old(values[..]), scope, id, done)
        decreases |pay| - at, |x|
      {
        ApplyField(x, scope, id);
        AfterFieldsPush(table, old(values[..]), scope, id, done, x);
        ghost var tail := read(pay[at + |x|..]);
        OneDone(done, x, tail);
        done, rest, at := done + [x], tail, at + |x|;
        x := NextRead(pay, at, read);
      }
      assert done == all;
    }

    /** One field into every entry it fits. */
    method ApplyField(x: Field, scope: nat, id: seq<byte>)
      requires Valid() && IsField(x)
      modifies values
      ensures values[..] == AfterField(table, old(values[..]), scope, id, x)
    {
      var i := 0;
      ghost var was := values[..];
      while i < |table|
        invariant 0 <= i <= |table|
        invariant forall k | 0 <= k < |table| :: values[k] == if k < i then AfterField(table, was, scope, id, x)[k]
          else was[k]
      {
        if InStore(table[i], scope, id) && table[i].key == Key(x) {
          var v := ReadValue(table[i], x);
          if v.Some? { values[i] := v.value; }
        }
        i := i + 1;
      }
    }

    /** The file in buf loaded into a scope: its settings records one after the other,
        but none of a store that has more than one. */
    method LoadSettings(store: Store, n: nat, scope: nat, ghost rs: seq<Rec>)
      requires Valid() && store.Valid() && store.Opened(n, rs) && AllRecords(rs)
      modifies values
      ensures values[..] == Loaded(table, old(values[..]), scope, rs, |rs|, store.crc)
    {
      if n == 0 { return; }
      ghost var was := values[..];
      ghost var loaded := (k: nat) => if k <= |rs| then Loaded(table, was, scope, rs, k, store.crc) else was;
      forall k: nat | k < |rs| ensures loaded(k + 1) == AfterOne(table, loaded(k), scope, rs, k, store.crc) {
        LoadedNext(table, was, scope, rs, k, store.crc);
      }
      LoadRecords(store, n, scope, rs, loaded);
    }

    method LoadRecords(store: Store, n: nat, scope: nat, ghost rs: seq<Rec>, ghost loaded: nat -> seq<int>)
      requires Valid() && store.Valid() && n > 0 && store.Opened(n, rs) && AllRecords(rs)
      requires loaded(0) == values[..] && forall k: nat | k <= |rs| :: |loaded(k)| == |table|
      requires forall k: nat | k < |rs| :: loaded(k + 1) == AfterOne(table, loaded(k), scope, rs, k, store.crc)
      modifies values
      ensures values[..] == loaded(|rs|)
    {
      var count, at, r := Be16(store.buf[..n], 10), HDR, 0;
      while r < count
        invariant 0 <= r <= count && at == HDR + |Flat(rs[..r])| && values[..] == loaded(r)
      {
        var p := store.Record(at, n, rs, r);
        LoadOne(store, n, scope, rs, r, p);
        assert loaded(r + 1) == values[..];
        at, r := at + |p|, r + 1;
      }
    }

    method LoadOne(store: Store, n: nat, scope: nat, ghost rs: seq<Rec>, r: nat, p: Rec)
      requires Valid() && store.Valid() && n > 0 && store.Opened(n, rs) && AllRecords(rs) && r < |rs| && p == rs[r]
      modifies values
      ensures values[..] == AfterOne(table, old(values[..]), scope, rs, r, store.crc)
    {
      if Kind(p) != K_SETTINGS || !Intact(p, store.crc) { return; }
      var twice := IsTwice(store, n, rs, r, p);
      if !twice { ApplySettings(p, scope); }
    }

    /** Store one scope: card.work for scope 0, the project's pair for scope 1. */
    method StoreSettings(store: Store, p: Pair, scope: nat, named: bool, project: Option<seq<Effect>>, w: Write)
      returns (q: Pair, err: nat)
      requires Valid() && store.Valid() && (project.Some? ==> EffectsFit(project.value))
      modifies store.buf, store.out
      ensures if scope != 0 && !named then err == 5 && q == p
        else Wrote(p, q, if scope == 0 then 0 else 2, OursChoice(table, scope, project.Some?),
                   Added(table, values[..], scope, Records(p, store.crc), project, store.crc), w, err, store.crc)
      ensures err == 0 ==> KeptKeys.UnknownKept(table, scope, Records(p, store.crc), Records(q, store.crc))
    {
      if scope != 0 && !named { return p, 5; }
      var n := store.Open(p);
      if n < 0 { return p, 2; }
      ghost var rs := Records(p, store.crc);
      var choice := OursChoice(table, scope, project.Some?);
      var at, kept := store.Rewrite(n, choice, rs);
      var added := AllAdded(store, n, scope, project, rs);
      q, err := store.Finish(p, if scope == 0 then 0 else 2, at, kept, added, w, Survivors(rs, choice));
      if err == 0 {
        UnknownStored(table, values[..], p, q, scope, project, if scope == 0 then 0 else 2, w, store.crc);
      }
    }

    /** SAVE PROJECT: a good card.work becomes card.strd; then the project's settings
        and its effects are stored, and that becomes the project's .strd. */
    method SaveProject(store: Store, card: Pair, project: Pair, named: bool, fx: seq<Effect>, w: Write, copyCard: Write,
                       copyProject: Write)
      returns (card': Pair, project': Pair, err: nat)
      requires Valid() && store.Valid() && EffectsFit(fx)
      modifies store.buf, store.out
      ensures card' == Copied(card, 1, copyCard, store.crc)
      ensures !named ==> err == 5 && project' == project
      ensures named ==> ProjectSaved(project, project', table, values[..], fx, w, copyProject, err, store.crc)
    {
      card' := store.KeepCopy(card, 1, copyCard);
      project', err := StoreSettings(store, project, 1, named, Some(fx), w);
      if err == 0 { project' := store.KeepCopy(project', 3, copyProject); }
    }

    method AllAdded(store: Store, n: nat, scope: nat, project: Option<seq<Effect>>, ghost rs: seq<Rec>)
      returns (added: seq<Rec>)
      requires Valid() && store.Valid() && store.Opened(n, rs) && AllRecords(rs)
        && (project.Some? ==> EffectsFit(project.value))
      ensures added == Added(table, values[..], scope, rs, project, store.crc)
    {
      added := NewRecords(store, n, scope, rs);
      added := added + ProjectRecords(project, store.crc);
    }

    /** The records of all the scope's stores. */
    method NewRecords(store: Store, n: nat, scope: nat, ghost rs: seq<Rec>) returns (added: seq<Rec>)
      requires Valid() && store.Valid() && store.Opened(n, rs) && AllRecords(rs)
      ensures added == StoreRecords(table, values[..], scope, rs, store.crc, |table|)
    {
      added := [];
      var e := 0;
      while e < |table|
        invariant 0 <= e <= |table| && added == StoreRecords(table, values[..], scope, rs, store.crc, e)
      {
        if Leads(table, scope, e) {
          var r := OneRecord(store, n, scope, e, rs);
          added := added + [r];
        }
        e := e + 1;
      }
    }

    method OneRecord(store: Store, n: nat, scope: nat, e: nat, ghost rs: seq<Rec>) returns (r: Rec)
      requires Valid() && store.Valid() && store.Opened(n, rs) && AllRecords(rs) && e < |table|
      ensures r == StoreRecord(table, values[..], scope, e, rs, store.crc)
    {
      var pay := KnownPayload(scope, e);
      var kept := KeptPayload(store, n, scope, table[e].id, rs);
      return NewRecord(K_SETTINGS, table[e].id, pay + kept, store.crc);
    }

    /** The values of the entries of entry e's store. */
    method KnownPayload(scope: nat, e: nat) returns (pay: seq<byte>)
      requires Valid() && e < |table|
      ensures pay == Flat(KnownFields(table, values[..], scope, table[e].id, e))
    {
      pay := [];
      var f := e;
      ghost var done: seq<Field>, all := [], KnownFields(table, values[..], scope, table[e].id, e);
      while f < |table|
        invariant e <= f <= |table| && pay == Flat(done)
        invariant done + KnownFields(table, values[..], scope, table[e].id, f) == all
      {
        ghost var rest := KnownFields(table, values[..], scope, table[e].id, f + 1);
        if InStore(table[f], scope, table[e].id) {
          var x := SettingField(table[f], values[f]);
          FlatPush(done, x);
          assert done + ([x] + rest) == done + [x] + rest;
          pay, done := pay + x, done + [x];
        } else {
          assert [] + rest == rest;
        }
        f := f + 1;
      }
      assert done + [] == done;
    }

    /** The fields the first old record of a store holds that the table does not know. */
    method KeptPayload(store: Store, n: nat, scope: nat, id: seq<byte>, ghost rs: seq<Rec>) returns (pay: seq<byte>)
      requires Valid() && store.Valid() && store.Opened(n, rs) && AllRecords(rs)
      ensures pay == Flat(KeptFields(table, scope, id, rs))
    {
      var p := Find(store, n, id, rs);
      if p.None? { return []; }
      pay := UnknownPayload(Payload(p.value), scope, id);
    }

    method Find(store: Store, n: nat, id: seq<byte>, ghost rs: seq<Rec>) returns (p: Option<Rec>)
      requires store.Valid() && store.Opened(n, rs) && AllRecords(rs)
      ensures p == FirstOf(rs, id)
    {
      if n == 0 { return None; }
      var count, at, r := Be16(store.buf[..n], 10), HDR, 0;
      assert rs[0..] == rs;
      while r < count
        invariant 0 <= r <= count && at == HDR + |Flat(rs[..r])| && FirstOf(rs, id) == FirstOf(rs[r..], id)
      {
        var q := store.Record(at, n, rs, r);
        assert rs[r..][0] == q && rs[r..][1..] == rs[r + 1..];
        if StoreId(q) == Some(id) { return Some(q); }
        at, r := at + |q|, r + 1;
      }
      return None;
    }

    method UnknownPayload(pay: seq<byte>, scope: nat, id: seq<byte>) returns (kept: seq<byte>)
      requires Valid()
      ensures kept == Flat(UnknownIn(table, scope, id, pay))
    {
      ghost var read := (b: seq<byte>) => FieldsOf(b);
      FieldsAreFields(pay);
      forall at: nat | at <= |pay| ensures ReadsAt(read, pay, at) { FieldsOfReads(pay, at); }
      kept := UnknownOf(pay, Known(table, scope, id), read);
    }
  }

  lemma OneDone(done: seq<Field>, x: Field, tail: seq<Field>)
    ensures done + ([x] + tail) == done + [x] + tail
  {
  }

  /** The fields of unknown keys, one after the other. */
  method UnknownOf(pay: seq<byte>, known: nat -> bool, ghost read: seq<byte> -> seq<Field>) returns (kept: seq<byte>)
    requires ReadsThrough(read, pay)
    ensures kept == Flat(UnknownFields(known, read(pay)))
  {
    kept := [];
    var at := 0;
    ghost var done: seq<Field>, rest := [], read(pay);
    ghost var all := UnknownFields(known, rest);
    assert pay[0..] == pay && done + all == all;
    var x := NextRead(pay, 0, read);
    while x != []
      invariant 0 <= at <= |pay| && AllFields(rest) && kept == Flat(done)
      invariant if x == [] then rest == [] else at + |x| <= |pay| && rest == [x] + read(pay[at + |x|..])
      invariant done + UnknownFields(known, rest) == all
      decreases |pay| - at, |x|
    {
      done := KeepStep(kept, x, known, done, rest, read(pay[at + |x|..]), all);
      rest := read(pay[at + |x|..]);
      if !known(Key(x)) { kept := kept + x; }
      at := at + |x|;
      x := NextRead(pay, at, read);
    }
    assert done + [] == done;
  }

  /** One field on: it is among the kept when its key is unknown. */
  lemma KeepStep(kept: seq<byte>, x: Field, known: nat -> bool, done: seq<Field>, from: seq<Field>, rest: seq<Field>,
                 all: seq<Field>)
    returns (done': seq<Field>)
    requires from == [x] + rest && AllFields(from) && kept == Flat(done) && done + UnknownFields(known, from) == all
    ensures AllFields(rest) && done' + UnknownFields(known, rest) == all
    ensures Flat(done') == if known(Key(x)) then kept else kept + x
  {
    assert x == from[0] && forall i | 0 <= i < |rest| :: rest[i] == from[i + 1];
    UnknownLonger(known, x, rest);
    if known(Key(x)) {
      assert [] + UnknownFields(known, rest) == UnknownFields(known, rest);
      return done;
    }
    FlatPush(done, x);
    assert done + ([x] + UnknownFields(known, rest)) == done + [x] + UnknownFields(known, rest);
    return done + [x];
  }

  /** Whether another record of the file in buf is of record r's store. */
  method IsTwice(store: Store, n: nat, ghost rs: seq<Rec>, r: nat, p: Rec) returns (twice: bool)
    requires store.Valid() && n > 0 && store.Opened(n, rs) && AllRecords(rs) && r < |rs| && p == rs[r]
      && Kind(p) == K_SETTINGS
    ensures twice <==> Twice(StoreIds(rs), r)
  {
    twice := false;
    ghost var ids := StoreIds(rs);
    assert ids[r] == Some(Id(p));
    var count, at, j := Be16(store.buf[..n], 10), HDR, 0;
    while j < count
      invariant 0 <= j <= count && at == HDR + |Flat(rs[..j])|
      invariant twice <==> exists i | 0 <= i < j && i != r :: ids[i] == ids[r]
    {
      var q := store.Record(at, n, rs, j);
      assert ids[j] == StoreId(q);
      if j != r && StoreId(q) == Some(Id(p)) { twice := true; }
      at, j := at + |q|, j + 1;
    }
  }

  /** The project's half of a save: written, and copied when that succeeded. */
  ghost predicate ProjectSaved(was: Pair, p: Pair, t: Table, vals: seq<int>, fx: seq<Effect>, w: Write, copy: Write,
                               err: nat, crc: Crc) {
    && |vals| == |t| && WellFormed(t) && EffectsFit(fx)
    && exists q ::
         && Wrote(was, q, 2, OursChoice(t, 1, true), Added(t, vals, 1, Records(was, crc), Some(fx), crc), w, err, crc)
         && p == if err == 0 then Copied(q, 3, copy, crc) else q
  }

  /** After a project save that succeeds both its copies are good, and loading either
      restores its settings. */
  lemma SavedProjectLoads(was: Pair, p: Pair, t: Table, vals: seq<int>, vals0: seq<int>, fx: seq<Effect>, w: Write,
                          crc: Crc)
    requires ProjectSaved(was, p, t, vals, fx, w, Completed, 0, crc) && |vals0| == |t| && ValuesFit(t, vals, 1)
    ensures Good(p.work, crc) && Good(p.strd, crc)
    ensures RecordsOf(Readable(p.strd).value, crc) == RecordsOf(Readable(p.work).value, crc)
    ensures Loaded(t, vals0, 1, Records(p, crc), |Records(p, crc)|, crc) == Put(t, vals, vals0, 1)
  {
    var q :| Wrote(was, q, 2, OursChoice(t, 1, true), Added(t, vals, 1, Records(was, crc), Some(fx), crc), w, 0, crc)
      && p == Copied(q, 3, Completed, crc);
    StoredSettingsLoad(t, vals, vals0, was, q, 1, Some(fx), 2, w, crc);
    CopyIsGood(q, 3, crc);
  }

  /** A store that succeeds, then a load of what it wrote: the file is valid and
      the scope's values are back. */
  lemma StoredSettingsLoad(t: Table, vals: seq<int>, vals0: seq<int>, was: Pair, p: Pair, scope: nat,
                           project: Option<seq<Effect>>, kind: byte, w: Write, crc: Crc)
    requires |vals| == |t| == |vals0| && WellFormed(t) && ValuesFit(t, vals, scope)
      && (project.Some? ==> EffectsFit(project.value))
    requires var added := Added(t, vals, scope, Records(was, crc), project, crc);
      Wrote(was, p, kind, OursChoice(t, scope, project.Some?), added, w, 0, crc)
    ensures Good(p.work, crc)
    ensures Loaded(t, vals0, scope, Records(p, crc), |Records(p, crc)|, crc) == Put(t, vals, vals0, scope)
  {
    var rs := Records(was, crc);
    RoundTrip(t, vals, vals0, scope, rs, project, crc);
    TailRecords(Survivors(rs, OursChoice(t, scope, project.Some?)), Added(t, vals, scope, rs, project, crc));
    WriterKeepsContainer(was, p, kind, OursChoice(t, scope, project.Some?), Added(t, vals, scope, rs, project, crc), w,
                         0, crc);
  }

  lemma TailRecords(a: seq<Rec>, b: seq<Rec>)
    requires AllRecords(a + b)
    ensures AllRecords(b)
  {
    assert forall i | 0 <= i < |b| :: b[i] == (a + b)[|a| + i];
  }

  // ---- what a store of a scope leaves -----------------------------------------------

  lemma StoreRecordIs(t: Table, vals: seq<int>, scope: nat, e: nat, rs: seq<Rec>, crc: Crc)
    requires WellFormed(t) && |vals| == |t| && e < |t| && AllRecords(rs)
    requires Leads(t, scope, e) && |StoreRecord(t, vals, scope, e, rs, crc)| <= BUF_LEN
    ensures OwnedBy(t, scope, false)(StoreRecord(t, vals, scope, e, rs, crc))
  {
    NewRecordReads(K_SETTINGS, t[e].id, StorePayload(t, vals, scope, e, rs), crc);
    assert InStore(t[e], scope, t[e].id);
  }

  /** The records made are records, of the scope's stores. */
  lemma StoreRecordsAre(t: Table, vals: seq<int>, scope: nat, rs: seq<Rec>, crc: Crc)
    requires WellFormed(t) && |vals| == |t| && AllRecords(rs)
    requires |Flat(StoreRecords(t, vals, scope, rs, crc, |t|))| <= BUF_LEN
    ensures forall j | 0 <= j < |StoreRecords(t, vals, scope, rs, crc, |t|)| ::
      OwnedBy(t, scope, false)(StoreRecords(t, vals, scope, rs, crc, |t|)[j])
  {
    var ns, ls := StoreRecords(t, vals, scope, rs, crc, |t|), Leaders(t, scope, |t|);
    LeadersLead(t, scope, |t|);
    forall j | 0 <= j < |ns| ensures OwnedBy(t, scope, false)(ns[j]) {
      MemberFits(ns, j);
      StoreRecordAt(t, vals, scope, rs, crc, |t|, j);
      StoreRecordIs(t, vals, scope, ls[j], rs, crc);
    }
  }

  lemma AddedAre(t: Table, vals: seq<int>, scope: nat, rs: seq<Rec>, project: Option<seq<Effect>>, crc: Crc)
    requires WellFormed(t) && |vals| == |t| && AllRecords(rs) && (project.Some? ==> EffectsFit(project.value))
    requires |Flat(Added(t, vals, scope, rs, project, crc))| <= BUF_LEN
    ensures forall j | 0 <= j < |Added(t, vals, scope, rs, project, crc)| ::
      OwnedBy(t, scope, project.Some?)(Added(t, vals, scope, rs, project, crc)[j])
  {
    var ns, ps := StoreRecords(t, vals, scope, rs, crc, |t|), ProjectRecords(project, crc);
    FlatJoin(ns, ps);
    StoreRecordsAre(t, vals, scope, rs, crc);
    if project.Some? {
      MemberFits(ps, 0);
      NewRecordReads(K_PROJECT, OWN_STORE, ProjectPayload(project.value), crc);
    }
  }

  /** After a store that succeeds each of the scope's stores has its record, and in it
      every field the table does not know of the first record it had. */
  lemma UnknownStored(t: Table, vals: seq<int>, was: Pair, p: Pair, scope: nat, project: Option<seq<Effect>>,
                      kind: byte, w: Write, crc: Crc)
    requires |vals| == |t| && WellFormed(t) && (project.Some? ==> EffectsFit(project.value))
    requires var added := Added(t, vals, scope, Records(was, crc), project, crc);
      Wrote(was, p, kind, OursChoice(t, scope, project.Some?), added, w, 0, crc)
    ensures KeptKeys.UnknownKept(t, scope, Records(was, crc), Records(p, crc))
  {
    var rs, choice := Records(was, crc), OursChoice(t, scope, project.Some?);
    var added, owned := Added(t, vals, scope, rs, project, crc), OwnedBy(t, scope, project.Some?);
    AddedFits(was, p, kind, choice, added, w, 0, crc);
    AddedAre(t, vals, scope, rs, project, crc);
    DropIsSized(owned);
    WriterKeepsContainer(was, p, kind, choice, added, w, 0, crc);
    KeptKeys.StoringKeepsUnknown(t, vals, scope, rs, project, crc);
  }

  /** After a store that succeeds, whatever the values, the file holds exactly the new
      records of the scope's stores, and every other record is as it was. */
  lemma SettingsWritten(t: Table, vals: seq<int>, was: Pair, p: Pair, scope: nat, project: Option<seq<Effect>>,
                        kind: byte, w: Write, crc: Crc)
    requires |vals| == |t| && WellFormed(t) && (project.Some? ==> EffectsFit(project.value))
    requires var added := Added(t, vals, scope, Records(was, crc), project, crc);
      Wrote(was, p, kind, OursChoice(t, scope, project.Some?), added, w, 0, crc)
    ensures var added := Added(t, vals, scope, Records(was, crc), project, crc);
      StoreWriters.Replaced(was, p, OwnedBy(t, scope, project.Some?), added, crc)
  {
    var added, owned := Added(t, vals, scope, Records(was, crc), project, crc), OwnedBy(t, scope, project.Some?);
    AddedFits(was, p, kind, DropOwned(owned), added, w, 0, crc);
    AddedAre(t, vals, scope, Records(was, crc), project, crc);
    StoreWriters.OthersKept(was, p, kind, owned, added, w, crc);
  }
}
