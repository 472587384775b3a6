/** BRAIN's settings (brain.c, `apply_settings`, `load_settings`, `write_set_file`):
    what loading a file's records does to the value table, and the records that
    storing the table writes. */
module Settings {
  import opened Words
  import opened Bytes
  import opened RecordFile
  import opened Fields

  const K_SETTINGS := 1
  const K_PROJECT := 4
  const MAX_SET := 48
  /** "octabam.brain" */
  const OWN_STORE: seq<byte> := [111, 99, 116, 97, 98, 97, 109, 46, 98, 114, 97, 105, 110]

  /** One entry of the table; form 1 is Binary, 2 an Option and 3 a Number. */
  datatype Setting = Setting(scope: nat, id: seq<byte>, key: nat, form: byte, min: int, max: int, step: nat)

  type Table = seq<Setting>

  predicate ValueOk(e: Setting, v: int) {
    e.min <= v <= e.max && (e.step <= 1 || (v - e.min) % e.step == 0)
  }

  /** The entry is this store's in this scope. */
  predicate InStore(e: Setting, scope: nat, id: seq<byte>) {
    e.scope == scope && e.id == id
  }

  // ---- loading -------------------------------------------------------------------

  /** A sixteen-bit word as a signed number. */
  function Short(w: nat): int {
    if w % 0x1_0000 < 0x8000 then w % 0x1_0000 else w % 0x1_0000 - 0x1_0000
  }

  /** The value a field holds for an entry: none when its type, length, bounds or
      step do not fit. */
  function ReadValue(e: Setting, x: Field): Option<int>
    requires IsField(x)
  {
    if x[2] != e.form || LengthOf(x) != (if e.form == 3 then 2 else 1) then None
    else
      var v := if e.form == 3 then Short(Be16(Data(x), 0)) else Data(x)[0];
      if ValueOk(e, v) then Some(v) else None
  }

  function AfterField(t: Table, vals: seq<int>, scope: nat, id: seq<byte>, x: Field): (w: seq<int>)
    requires |vals| == |t| && IsField(x)
    ensures |w| == |t|
  {
    seq(|t|, i requires 0 <= i < |t| =>
      if InStore(t[i], scope, id) && t[i].key == Key(x) && ReadValue(t[i], x).Some? then ReadValue(t[i], x).value
        else vals[i])
  }

  function AfterFields(t: Table, vals: seq<int>, scope: nat, id: seq<byte>, fs: seq<Field>): (w: seq<int>)
    requires |vals| == |t| && AllFields(fs)
    ensures |w| == |t|
  {
    if fs == [] then vals
    else AfterField(t, AfterFields(t, vals, scope, id, fs[..|fs| - 1]), scope, id, fs[|fs| - 1])
  }

  function AfterRecord(t: Table, vals: seq<int>, scope: nat, r: Rec): (w: seq<int>)
    requires |vals| == |t| && IsRecord(r)
    ensures |w| == |t|
  {
    FieldsAreFields(Payload(r));
    if Schema(r) != 1 then vals else AfterFields(t, vals, scope, Id(r), FieldsOf(Payload(r)))
  }

  /** The store a settings record is of. */
  function StoreId(r: Rec): Option<seq<byte>> {
    if IsRecord(r) && Kind(r) == K_SETTINGS then Some(Id(r)) else None
  }

  function StoreIds(rs: seq<Rec>): (ls: seq<Option<seq<byte>>>)
    ensures |ls| == |rs|
  {
    seq(|rs|, i requires 0 <= i < |rs| => StoreId(rs[i]))
  }

  /** Another record is of the same store as record k. */
  ghost predicate Twice(ls: seq<Option<seq<byte>>>, k: nat)
    requires k < |ls|
  {
    exists j | 0 <= j < |ls| && j != k :: ls[j] == ls[k]
  }

  /** The table after one of a file's records: a settings record with an intact
      payload, the only one of its store, applies. */
  ghost function AfterOne(t: Table, w: seq<int>, scope: nat, rs: seq<Rec>, k: nat, crc: Crc): (u: seq<int>)
    requires |w| == |t| && AllRecords(rs) && k < |rs|
    ensures |u| == |t|
  {
    if StoreId(rs[k]).Some? && Intact(rs[k], crc) && !Twice(StoreIds(rs), k) then AfterRecord(t, w, scope, rs[k]) else w
  }

  /** The table after the first k of a file's records. */
  ghost function Loaded(t: Table, vals: seq<int>, scope: nat, rs: seq<Rec>, k: nat, crc: Crc): (w: seq<int>)
    requires |vals| == |t| && AllRecords(rs) && k <= |rs|
    ensures |w| == |t|
  {
    if k == 0 then vals else AfterOne(t, Loaded(t, vals, scope, rs, k - 1, crc), scope, rs, k - 1, crc)
  }

  // ---- storing --------------------------------------------------------------------

  function SettingField(e: Setting, v: int): (x: Field)
    ensures |x| == 8
  {
    Enc16(e.key) + [e.form, if e.form == 3 then 2 else 1]
      + if e.form == 3 then Enc16(v % 0x1_0000) + [0, 0] else [v % 0x100, 0, 0, 0]
  }

  /** The entries of a store from `from` on, each with its value. */
  function KnownFields(t: Table, vals: seq<int>, scope: nat, id: seq<byte>, from: nat): seq<Field>
    requires |vals| == |t| && from <= |t|
    decreases |t| - from
  {
    if from == |t| then []
    else
      (if InStore(t[from], scope, id) then [SettingField(t[from], vals[from])] else [])
        + KnownFields(t, vals, scope, id, from + 1)
  }

  /** The keys a table has entries for in a store of a scope. */
  function Known(t: Table, scope: nat, id: seq<byte>): nat -> bool {
    (key: nat) => exists f | 0 <= f < |t| :: InStore(t[f], scope, id) && t[f].key == key
  }

  /** The fields of unknown keys. */
  function UnknownFields(known: nat -> bool, fs: seq<Field>): (us: seq<Field>)
    requires AllFields(fs)
    ensures AllFields(us)
  {
    if fs == [] then [] else (if known(Key(fs[0])) then [] else [fs[0]]) + UnknownFields(known, fs[1..])
  }

  /** The first record of a store. */
  function FirstOf(rs: seq<Rec>, id: seq<byte>): (r: Option<Rec>)
    ensures r.Some? ==> IsRecord(r.value)
  {
    if rs == [] then None else if StoreId(rs[0]) == Some(id) then Some(rs[0]) else FirstOf(rs[1..], id)
  }

  function UnknownIn(t: Table, scope: nat, id: seq<byte>, pay: seq<byte>): (us: seq<Field>)
    ensures AllFields(us)
  {
    FieldsAreFields(pay);
    UnknownFields(Known(t, scope, id), FieldsOf(pay))
  }

  /** What an old file kept for a store that this table does not know: in the first
      of its records. */
  function KeptFields(t: Table, scope: nat, id: seq<byte>, rs: seq<Rec>): (us: seq<Field>)
    ensures AllFields(us)
  {
    match FirstOf(rs, id)
    case Some(r) => UnknownIn(t, scope, id, Payload(r))
    case None => []
  }

  /** Entry e is the first of its store in this scope. */
  predicate Leads(t: Table, scope: nat, e: nat)
    requires e < |t|
  {
    t[e].scope == scope && forall f | 0 <= f < e :: !InStore(t[f], scope, t[e].id)
  }

  function StorePayload(t: Table, vals: seq<int>, scope: nat, e: nat, rs: seq<Rec>): seq<byte>
    requires |vals| == |t| && e < |t| && AllRecords(rs)
  {
    Flat(KnownFields(t, vals, scope, t[e].id, e)) + Flat(KeptFields(t, scope, t[e].id, rs))
  }

  ghost predicate WellFormed(t: Table) {
    && |t| <= MAX_SET
    && (forall i | 0 <= i < |t| :: 1 <= |t[i].id| <= 63 && t[i].key < 0x1_0000 && 1 <= t[i].form <= 3)
    && (forall i, j | 0 <= i < j < |t| && InStore(t[j], t[i].scope, t[i].id) :: t[i].key != t[j].key)
  }

  function StoreRecord(t: Table, vals: seq<int>, scope: nat, e: nat, rs: seq<Rec>, crc: Crc): Rec
    requires |vals| == |t| && e < |t| && |t[e].id| <= 63 && AllRecords(rs)
  {
    NewRecord(K_SETTINGS, t[e].id, StorePayload(t, vals, scope, e, rs), crc)
  }

  /** The leading entries among the first e. */
  function Leaders(t: Table, scope: nat, e: nat): (ls: seq<nat>)
    requires e <= |t|
    ensures forall j | 0 <= j < |ls| :: ls[j] < e
  {
    if e == 0 then [] else Leaders(t, scope, e - 1) + if Leads(t, scope, e - 1) then [e - 1] else []
  }

  /** One record per store of the scope, in the order of the first e entries. */
  function StoreRecords(t: Table, vals: seq<int>, scope: nat, rs: seq<Rec>, crc: Crc, e: nat): (ns: seq<Rec>)
    requires |vals| == |t| && e <= |t| && AllRecords(rs) && WellFormed(t)
    ensures |ns| == |Leaders(t, scope, e)|
  {
    if e == 0 then []
    else
      StoreRecords(t, vals, scope, rs, crc, e - 1)
        + if Leads(t, scope, e - 1) then [StoreRecord(t, vals, scope, e - 1, rs, crc)] else []
  }

  predicate Ours(t: Table, scope: nat, project: bool, r: Rec)
    requires IsRecord(r)
  {
    || (StoreId(r).Some? && exists e | 0 <= e < |t| :: InStore(t[e], scope, StoreId(r).value))
    || (project && Owned(r, K_PROJECT, OWN_STORE))
  }

  /** What storing a scope owns: its stores, and a project's own record. */
  function OwnedBy(t: Table, scope: nat, project: bool): Rec -> bool {
    (r: Rec) => IsRecord(r) && Ours(t, scope, project, r)
  }

  function OursChoice(t: Table, scope: nat, project: bool): Choice {
    DropOwned(OwnedBy(t, scope, project))
  }

  /** The values a scope can store: in bounds, and within their bytes. */
  ghost predicate ValuesFit(t: Table, vals: seq<int>, scope: nat)
    requires |vals| == |t|
  {
    forall i | 0 <= i < |t| && t[i].scope == scope ::
      ValueOk(t[i], vals[i]) && if t[i].form == 3 then -0x8000 <= vals[i] < 0x8000 else 0 <= vals[i] < 0x100
  }

  /** One effect of the image, as the project record lists it. */
  datatype Effect = Effect(fx: byte, id: seq<byte>, layout: u32)

  function ProjectPayload(fx: seq<Effect>): seq<byte>
    requires forall i | 0 <= i < |fx| :: |fx[i].id| <= 63
  {
    if fx == [] then []
    else
      var f := fx[|fx| - 1];
      ProjectPayload(fx[..|fx| - 1]) + ([f.fx, |f.id|, 0, 0] + Enc32(f.layout) + Padded(f.id))
  }

  ghost predicate EffectsFit(fx: seq<Effect>) {
    forall i | 0 <= i < |fx| :: |fx[i].id| <= 63
  }

  /** A project's store also lists its effects. */
  function ProjectRecords(project: Option<seq<Effect>>, crc: Crc): seq<Rec>
    requires project.Some? ==> EffectsFit(project.value)
  {
    if project.None? then [] else [NewRecord(K_PROJECT, OWN_STORE, ProjectPayload(project.value), crc)]
  }

  /** The records after storing a scope: the others in order, its stores', and the
      project's. */
  function Added(t: Table, vals: seq<int>, scope: nat, rs: seq<Rec>, project: Option<seq<Effect>>, crc: Crc): seq<Rec>
    requires |vals| == |t| && AllRecords(rs) && WellFormed(t) && (project.Some? ==> EffectsFit(project.value))
  {
    StoreRecords(t, vals, scope, rs, crc, |t|) + ProjectRecords(project, crc)
  }
}
