/** BRAIN's other writers (brain.c, `write_default_e`, `write_pset`,
    `write_partdef_clear`, `write_names`): each drops the records it owns, keeps the
    rest and appends its own. */
module StoreWriters {
  import opened Words
  import opened Bytes
  import opened RecordFile
  import opened Fields
  import opened CardStore

  const K_DEFAULT := 2
  const K_FIELD := 5
  const NO_MODE := 0xffff
  const PS_LAYOUT := 0x50524a31
  /** "stock.project", "stock.part2" and "stock.midi" */
  const PS_STORE: seq<byte> := [115, 116, 111, 99, 107, 46, 112, 114, 111, 106, 101, 99, 116]
  const PART_STORE: seq<byte> := [115, 116, 111, 99, 107, 46, 112, 97, 114, 116, 50]
  const KN_STORE: seq<byte> := [115, 116, 111, 99, 107, 46, 109, 105, 100, 105]

  // ---- what a writer owns -----------------------------------------------------------

  /** The records that are owned, or those that are not. */
  function Part(rs: seq<Rec>, owned: Rec -> bool, own: bool): seq<Rec> {
    if rs == [] then []
    else Part(rs[..|rs| - 1], owned, own) + if owned(rs[|rs| - 1]) == own then [rs[|rs| - 1]] else []
  }

  lemma {:induction false} SurvivorsArePart(rs: seq<Rec>, owned: Rec -> bool)
    ensures Survivors(rs, DropOwned(owned)) == Part(rs, owned, false)
  {
    if rs != [] { SurvivorsArePart(rs[..|rs| - 1], owned); }
  }

  lemma {:induction false} PartJoin(a: seq<Rec>, b: seq<Rec>, owned: Rec -> bool, own: bool)
    ensures Part(a + b, owned, own) == Part(a, owned, own) + Part(b, owned, own)
  {
    if b == [] {
      assert a + b == a;
    } else {
      var n := |b| - 1;
      assert (a + b)[..|a + b| - 1] == a + b[..n];
      PartJoin(a, b[..n], owned, own);
    }
  }

  lemma {:induction false} PartOfPart(rs: seq<Rec>, owned: Rec -> bool)
    ensures Part(Part(rs, owned, false), owned, false) == Part(rs, owned, false)
    ensures Part(Part(rs, owned, false), owned, true) == []
  {
    if rs != [] {
      var init, r := rs[..|rs| - 1], rs[|rs| - 1];
      PartOfPart(init, owned);
      if !owned(r) {
        PartJoin(Part(init, owned, false), [r], owned, false);
        PartJoin(Part(init, owned, false), [r], owned, true);
        PartOne(r, owned);
      } else {
        assert Part(rs, owned, false) == Part(init, owned, false);
      }
    }
  }

  lemma PartOne(r: Rec, owned: Rec -> bool)
    ensures Part([r], owned, true) == if owned(r) then [r] else []
    ensures Part([r], owned, false) == if owned(r) then [] else [r]
  {
    assert [r][..0] == [];
  }

  lemma {:induction false} AllOwned(rs: seq<Rec>, owned: Rec -> bool)
    requires forall i | 0 <= i < |rs| :: owned(rs[i])
    ensures Part(rs, owned, true) == rs && Part(rs, owned, false) == []
  {
    if rs != [] { AllOwned(rs[..|rs| - 1], owned); }
  }

  /** The file of p is good and holds exactly `added` of the records owned, and every
      other record of `was`, in order and byte for byte. */
  ghost predicate Replaced(was: Pair, p: Pair, owned: Rec -> bool, added: seq<Rec>, crc: Crc) {
    && Good(p.work, crc) && p.strd == was.strd
    && Part(Records(p, crc), owned, false) == Part(Records(was, crc), owned, false)
    && Part(Records(p, crc), owned, true) == added
  }

  /** A writer's success, when what it adds is its own. */
  lemma OthersKept(was: Pair, p: Pair, kind: byte, owned: Rec -> bool, added: seq<Rec>, w: Write, crc: Crc)
    requires Wrote(was, p, kind, DropOwned(owned), added, w, 0, crc)
    requires AllRecords(added) && forall i | 0 <= i < |added| :: owned(added[i])
    ensures Replaced(was, p, owned, added, crc)
  {
    var rs := Records(was, crc);
    WriterKeepsContainer(was, p, kind, DropOwned(owned), added, w, 0, crc);
    SurvivorsArePart(rs, owned);
    PartOfPart(rs, owned);
    AllOwned(added, owned);
    PartJoin(Part(rs, owned, false), added, owned, false);
    PartJoin(Part(rs, owned, false), added, owned, true);
  }

  // ---- stored defaults ------------------------------------------------------------------

  /** An effect's stored default: of its id, for no mode. */
  predicate IsDefault(r: Rec, id: seq<byte>) {
    && IsRecord(r) && Owned(r, K_DEFAULT, id)
    && |Payload(r)| >= 4 && Be16(Payload(r), 0) == 0 && Be16(Payload(r), 2) == NO_MODE
  }

  function Default(id: seq<byte>): Rec -> bool {
    (r: Rec) => IsDefault(r, id)
  }

  /** Any default record of an id. */
  function AnyDefault(id: seq<byte>): Rec -> bool {
    (r: Rec) => IsRecord(r) && Owned(r, K_DEFAULT, id)
  }

  /** One byte under a key. */
  function ByteField(key: nat, v: byte): (x: Field)
    ensures |x| == 8
  {
    Enc16(key) + [T_BYTE, 1, v, 0, 0, 0]
  }

  /** The values under the first n keys; key 0 holds none. */
  function ByteFields(keys: seq<nat>, vals: seq<byte>, n: nat): seq<Field>
    requires n <= |keys| == |vals|
  {
    if n == 0 then []
    else ByteFields(keys, vals, n - 1) + if keys[n - 1] != 0 then [ByteField(keys[n - 1], vals[n - 1])] else []
  }

  function DefaultPrefix(layout: u32): (b: seq<byte>)
    ensures |b| == 8
  {
    Enc16(0) + Enc16(NO_MODE) + Enc32(layout)
  }

  function DefaultPayload(layout: u32, keys: seq<nat>, vals: seq<byte>): seq<byte>
    requires |keys| == |vals|
  {
    DefaultPrefix(layout) + Flat(ByteFields(keys, vals, |keys|))
  }

  /** The byte some fields hold under a key: the last of them. */
  function ByteUnder(fs: seq<Field>, key: nat): Option<byte>
    requires AllFields(fs)
  {
    if fs == [] then None
    else
      var x := fs[|fs| - 1];
      if Key(x) == key && x[2] == T_BYTE && LengthOf(x) == 1 then Some(Data(x)[0]) else ByteUnder(fs[..|fs| - 1], key)
  }

  lemma ByteFieldReads(key: nat, v: byte)
    requires key < 0x1_0000
    ensures var x := ByteField(key, v);
      IsField(x) && Key(x) == key && x[2] == T_BYTE && LengthOf(x) == 1 && Data(x) == [v]
  {
    var x := ByteField(key, v);
    assert x[0..2] == Enc16(key);
    Read16(x, 0, key);
    assert x[4..5] == [v];
  }

  ghost predicate Distinct(keys: seq<nat>) {
    && (forall i | 0 <= i < |keys| :: keys[i] < 0x1_0000)
    && (forall i, j | 0 <= i < j < |keys| && keys[j] != 0 :: keys[i] != keys[j])
  }

  lemma {:induction false} ByteFieldsAreFields(keys: seq<nat>, vals: seq<byte>, n: nat)
    requires n <= |keys| == |vals| && Distinct(keys)
    ensures AllFields(ByteFields(keys, vals, n))
  {
    if n > 0 {
      ByteFieldsAreFields(keys, vals, n - 1);
      ByteFieldReads(keys[n - 1], vals[n - 1]);
    }
  }

  lemma ByteUnderPush(fs: seq<Field>, key: nat, v: byte, other: nat)
    requires AllFields(fs) && key < 0x1_0000
    ensures AllFields(fs + [ByteField(key, v)])
    ensures ByteUnder(fs + [ByteField(key, v)], other) == if other == key then Some(v) else ByteUnder(fs, other)
  {
    ByteFieldReads(key, v);
    assert (fs + [ByteField(key, v)])[..|fs|] == fs;
  }

  /** Every key's byte is found, and no other's. */
  lemma {:induction false} ByteFieldsRead(keys: seq<nat>, vals: seq<byte>, n: nat, key: nat)
    requires n <= |keys| == |vals| && Distinct(keys) && AllFields(ByteFields(keys, vals, n))
    ensures forall i | 0 <= i < n && keys[i] == key != 0 :: ByteUnder(ByteFields(keys, vals, n), key) == Some(vals[i])
    ensures (key == 0 || forall i | 0 <= i < n :: keys[i] != key) ==> ByteUnder(ByteFields(keys, vals, n), key) == None
  {
    if n > 0 {
      var before := ByteFields(keys, vals, n - 1);
      ByteFieldsAreFields(keys, vals, n - 1);
      ByteFieldsRead(keys, vals, n - 1, key);
      if keys[n - 1] != 0 {
        ByteUnderPush(before, keys[n - 1], vals[n - 1], key);
      } else {
        assert ByteFields(keys, vals, n) == before;
      }
    }
  }

  /** A stored default reads back: each named byte, and nothing under other keys. */
  lemma DefaultReads(layout: u32, keys: seq<nat>, vals: seq<byte>, key: nat)
    requires |keys| == |vals| && Distinct(keys)
    ensures var fs := FieldsOf(DefaultPayload(layout, keys, vals)[8..]);
      && AllFields(fs)
      && (forall i | 0 <= i < |keys| && keys[i] == key != 0 :: ByteUnder(fs, key) == Some(vals[i]))
      && ((key == 0 || forall i | 0 <= i < |keys| :: keys[i] != key) ==> ByteUnder(fs, key) == None)
  {
    var fs := ByteFields(keys, vals, |keys|);
    ByteFieldsAreFields(keys, vals, |keys|);
    ByteFieldsRead(keys, vals, |keys|, key);
    FieldsReadBack(fs, []);
    assert DefaultPayload(layout, keys, vals)[8..] == Flat(fs) + [];
    assert fs + FieldsOf([]) == fs;
  }

  /** It is a default of its id. */
  lemma DefaultIsDefault(id: seq<byte>, layout: u32, keys: seq<nat>, vals: seq<byte>, crc: Crc)
    requires 1 <= |id| <= 63 && |keys| == |vals| && |DefaultPayload(layout, keys, vals)| < BUF_LEN
    ensures var r := NewRecord(K_DEFAULT, id, DefaultPayload(layout, keys, vals), crc);
      IsRecord(r) && IsDefault(r, id) && Payload(r) == DefaultPayload(layout, keys, vals) && Intact(r, crc)
  {
    var pay := DefaultPayload(layout, keys, vals);
    NewRecordReads(K_DEFAULT, id, pay, crc);
    assert pay[0..2] == Enc16(0) && pay[2..4] == Enc16(NO_MODE);
    Read16(pay, 0, 0);
    Read16(pay, 2, NO_MODE);
  }

  lemma {:induction false} ByteFieldsSize(keys: seq<nat>, vals: seq<byte>, n: nat)
    requires n <= |keys| == |vals|
    ensures |Flat(ByteFields(keys, vals, n))| <= 8 * n
  {
    if n > 0 {
      ByteFieldsSize(keys, vals, n - 1);
      var before := ByteFields(keys, vals, n - 1);
      if keys[n - 1] != 0 {
        FlatPush(before, ByteField(keys[n - 1], vals[n - 1]));
      } else {
        assert ByteFields(keys, vals, n) == before;
      }
    }
  }

  // ---- the writers --------------------------------------------------------------------------

  /** The payload of a default: each named byte. */
  method MakeDefault(layout: u32, keys: seq<nat>, vals: seq<byte>) returns (pay: seq<byte>)
    requires |keys| == |vals|
    ensures pay == DefaultPayload(layout, keys, vals)
  {
    pay := DefaultPrefix(layout);
    var s := 0;
    while s < |keys|
      invariant 0 <= s <= |keys| && pay == DefaultPrefix(layout) + Flat(ByteFields(keys, vals, s))
    {
      if keys[s] != 0 {
        FlatPush(ByteFields(keys, vals, s), ByteField(keys[s], vals[s]));
        pay := pay + ByteField(keys[s], vals[s]);
      } else {
        assert ByteFields(keys, vals, s + 1) == ByteFields(keys, vals, s);
      }
      s := s + 1;
    }
  }

  /** The record a save appends, or none to clear. */
  function Defaults(id: seq<byte>, layout: u32, keys: seq<nat>, vals: seq<byte>, clear: bool, crc: Crc): seq<Rec>
    requires |keys| == |vals| && |id| <= 63
  {
    if clear then [] else [NewRecord(K_DEFAULT, id, DefaultPayload(layout, keys, vals), crc)]
  }

  method MakeDefaults(id: seq<byte>, layout: u32, keys: seq<nat>, vals: seq<byte>, clear: bool, crc: Crc)
    returns (added: seq<Rec>)
    requires |keys| == |vals| && |id| <= 63
    ensures added == Defaults(id, layout, keys, vals, clear, crc)
  {
    if clear { return []; }
    var pay := MakeDefault(layout, keys, vals);
    return [NewRecord(K_DEFAULT, id, pay, crc)];
  }

  /** The file without what a writer owns, then its new records. */
  method WriteOwned(store: Store, p: Pair, kind: byte, owned: Rec -> bool, added: seq<Rec>, w: Write)
    returns (q: Pair, err: nat)
    requires store.Valid()
    modifies store.buf, store.out
    ensures Wrote(p, q, kind, DropOwned(owned), added, w, err, store.crc)
  {
    DropIsSized(owned);
    q, err := store.Replace(p, kind, DropOwned(owned), added, w);
  }

  /** An effect's entry: its id, its layout and the keys of its twelve slots. */
  datatype Entry = Entry(id: seq<byte>, layout: u32, keys: seq<nat>) {
    predicate Valid() {
      1 <= |id| <= 63 && |keys| == 12
    }
  }

  function DefaultRecords(e: Entry, vals: seq<byte>, clear: bool, crc: Crc): seq<Rec>
    requires e.Valid() && |vals| == 12
  {
    Defaults(e.id, e.layout, e.keys, vals, clear, crc)
  }

  /** SAVE FX DEFAULT and its clearing: an effect's default replaced or removed. */
  method WriteDefault(store: Store, p: Pair, entry: Option<Entry>, vals: seq<byte>, clear: bool, w: Write)
    returns (q: Pair, err: nat)
    requires store.Valid() && |vals| == 12 && (entry.Some? ==> entry.value.Valid())
    modifies store.buf, store.out
    ensures entry.None? ==> err == 1 && q == p
    ensures entry.Some? ==>
      Wrote(p, q, 0, DropOwned(Default(entry.value.id)), DefaultRecords(entry.value, vals, clear, store.crc), w, err,
            store.crc)
  {
    if entry.None? { return p, 1; }
    var e := entry.value;
    var added := MakeDefaults(e.id, e.layout, e.keys, vals, clear, store.crc);
    q, err := WriteOwned(store, p, 0, Default(e.id), added, w);
  }

  /** A byte of the project settings that a new project takes. */
  predicate SettingsByte(off: nat) {
    off == 0x24 || 0x28 <= off <= 0x37 || 0x3f <= off <= 0x54 || 0x56 <= off <= 0x6a
  }

  function ProjectKeys(): (keys: seq<nat>)
    ensures |keys| == 0x70
  {
    seq(0x70, (off: nat) => if SettingsByte(off) then 1 + off else 0)
  }

  function ProjectDefaults(ram: seq<byte>, clear: bool, crc: Crc): seq<Rec>
    requires |ram| == 0x70
  {
    Defaults(PS_STORE, PS_LAYOUT, ProjectKeys(), ram, clear, crc)
  }

  /** SAVE NEW PROJECT and its clearing. */
  method WriteProjectDefaults(store: Store, p: Pair, ram: seq<byte>, clear: bool, w: Write) returns (q: Pair, err: nat)
    requires store.Valid() && |ram| == 0x70
    modifies store.buf, store.out
    ensures Wrote(p, q, 0, DropOwned(AnyDefault(PS_STORE)), ProjectDefaults(ram, clear, store.crc), w, err, store.crc)
  {
    var added := MakeDefaults(PS_STORE, PS_LAYOUT, ProjectKeys(), ram, clear, store.crc);
    q, err := WriteOwned(store, p, 0, AnyDefault(PS_STORE), added, w);
  }

  /** CLEAR DEFAULT of the Part default. */
  method ClearPartDefault(store: Store, p: Pair, w: Write) returns (q: Pair, err: nat)
    requires store.Valid()
    modifies store.buf, store.out
    ensures Wrote(p, q, 0, DropOwned(AnyDefault(PART_STORE)), [], w, err, store.crc)
  {
    q, err := WriteOwned(store, p, 0, AnyDefault(PART_STORE), [], w);
  }

  /** After a save the effect has exactly one default, the new one, and every other
      record is as it was; after a clear it has none. */
  lemma DefaultWritten(was: Pair, p: Pair, e: Entry, vals: seq<byte>, clear: bool, w: Write, crc: Crc)
    requires e.Valid() && |vals| == 12
    requires Wrote(was, p, 0, DropOwned(Default(e.id)), DefaultRecords(e, vals, clear, crc), w, 0, crc)
    ensures Replaced(was, p, Default(e.id), DefaultRecords(e, vals, clear, crc), crc)
  {
    DefaultsAre(e.id, e.layout, e.keys, vals, clear, crc);
    OthersKept(was, p, 0, Default(e.id), DefaultRecords(e, vals, clear, crc), w, crc);
  }

  /** The records a default's save appends, or its clearing does not, are defaults. */
  lemma DefaultsAre(id: seq<byte>, layout: u32, keys: seq<nat>, vals: seq<byte>, clear: bool, crc: Crc)
    requires 1 <= |id| <= 63 && |keys| == |vals| <= 0x70
    ensures forall i | 0 <= i < |Defaults(id, layout, keys, vals, clear, crc)| ::
      var r := Defaults(id, layout, keys, vals, clear, crc)[i];
      IsRecord(r) && IsDefault(r, id)
  {
    ByteFieldsSize(keys, vals, |keys|);
    if !clear { DefaultIsDefault(id, layout, keys, vals, crc); }
  }

  /** After SAVE NEW PROJECT the card has exactly the new project default, after its
      clearing none, and every other record is as it was. */
  lemma ProjectDefaultsWritten(was: Pair, p: Pair, ram: seq<byte>, clear: bool, w: Write, crc: Crc)
    requires |ram| == 0x70
    requires Wrote(was, p, 0, DropOwned(AnyDefault(PS_STORE)), ProjectDefaults(ram, clear, crc), w, 0, crc)
    ensures Replaced(was, p, AnyDefault(PS_STORE), ProjectDefaults(ram, clear, crc), crc)
  {
    DefaultsAre(PS_STORE, PS_LAYOUT, ProjectKeys(), ram, clear, crc);
    OthersKept(was, p, 0, AnyDefault(PS_STORE), ProjectDefaults(ram, clear, crc), w, crc);
  }

  /** After CLEAR DEFAULT no Part default is left, and every other record is. */
  lemma PartDefaultCleared(was: Pair, p: Pair, w: Write, crc: Crc)
    requires Wrote(was, p, 0, DropOwned(AnyDefault(PART_STORE)), [], w, 0, crc)
    ensures Replaced(was, p, AnyDefault(PART_STORE), [], crc)
  {
    OthersKept(was, p, 0, AnyDefault(PART_STORE), [], w, crc);
  }

  // ---- knob names ---------------------------------------------------------------------------

  const T_NAME := 6
  const KN_LEN := 6
  const KN_PARTS := 64
  const KN_KNOBS := 80

  /** A Part's knob names, in order; one that starts with a zero is unset. */
  type PartNames = seq<seq<byte>>

  ghost predicate SixBytes(part: PartNames) {
    |part| == KN_KNOBS && forall i | 0 <= i < |part| :: |part[i]| == KN_LEN
  }

  ghost predicate AllNames(parts: seq<PartNames>) {
    |parts| == KN_PARTS && forall i | 0 <= i < |parts| :: SixBytes(parts[i])
  }

  predicate Named(name: seq<byte>) {
    name != [] && name[0] != 0
  }

  function NameAt(i: nat, name: seq<byte>): Field {
    Enc16(i + 1) + [T_NAME, KN_LEN] + name + [0, 0]
  }

  function NameFields(part: PartNames, n: nat): seq<Field>
    requires n <= |part|
  {
    if n == 0 then []
    else NameFields(part, n - 1) + if Named(part[n - 1]) then [NameAt(n - 1, part[n - 1])] else []
  }

  function NamesPayload(bp: nat, part: PartNames): seq<byte> {
    Enc16(bp) + [0, 0] + Flat(NameFields(part, |part|))
  }

  /** The records of the first n Parts; a Part without names has none. */
  function NamesRecords(parts: seq<PartNames>, n: nat, crc: Crc): seq<Rec>
    requires n <= |parts|
  {
    if n == 0 then [] else NamesRecords(parts, n - 1, crc) + PartRecords(n - 1, parts[n - 1], crc)
  }

  function PartRecords(bp: nat, part: PartNames, crc: Crc): seq<Rec> {
    if NameFields(part, |part|) == [] then [] else [NewRecord(K_FIELD, KN_STORE, NamesPayload(bp, part), crc)]
  }

  function IsNames(): Rec -> bool {
    (r: Rec) => IsRecord(r) && Owned(r, K_FIELD, KN_STORE)
  }

  method MakeNames(part: PartNames) returns (v: seq<byte>, nn: nat)
    ensures v == Flat(NameFields(part, |part|)) && nn == |NameFields(part, |part|)|
  {
    v, nn := [], 0;
    var i := 0;
    while i < |part|
      invariant 0 <= i <= |part| && v == Flat(NameFields(part, i)) && nn == |NameFields(part, i)|
    {
      if Named(part[i]) {
        FlatPush(NameFields(part, i), NameAt(i, part[i]));
        v, nn := v + NameAt(i, part[i]), nn + 1;
      } else {
        assert NameFields(part, i + 1) == NameFields(part, i);
      }
      i := i + 1;
    }
  }

  method MakePartRecords(bp: nat, part: PartNames, crc: Crc) returns (one: seq<Rec>)
    ensures one == PartRecords(bp, part, crc)
  {
    var v, nn := MakeNames(part);
    return if nn == 0 then [] else [NewRecord(K_FIELD, KN_STORE, Enc16(bp) + [0, 0] + v, crc)];
  }

  method AddPart(parts: seq<PartNames>, bp: nat, before: seq<Rec>, crc: Crc) returns (added: seq<Rec>)
    requires bp < |parts| && before == NamesRecords(parts, bp, crc)
    ensures added == NamesRecords(parts, bp + 1, crc)
  {
    var one := MakePartRecords(bp, parts[bp], crc);
    return before + one;
  }

  method MakeNamesRecords(parts: seq<PartNames>, crc: Crc) returns (added: seq<Rec>)
    ensures added == NamesRecords(parts, |parts|, crc)
  {
    added := [];
    var bp := 0;
    while bp < |parts|
      invariant 0 <= bp <= |parts| && added == NamesRecords(parts, bp, crc)
    {
      added := AddPart(parts, bp, added, crc);
      bp := bp + 1;
    }
  }

  /** The project's knob names, Part by Part. */
  method WriteNames(store: Store, p: Pair, named: bool, parts: seq<PartNames>, w: Write) returns (q: Pair, err: nat)
    requires store.Valid() && AllNames(parts)
    modifies store.buf, store.out
    ensures if !named then err == 5 && q == p
      else Wrote(p, q, 2, DropOwned(IsNames()), NamesRecords(parts, |parts|, store.crc), w, err, store.crc)
  {
    if !named { return p, 5; }
    var added := MakeNamesRecords(parts, store.crc);
    q, err := WriteOwned(store, p, 2, IsNames(), added, w);
  }

  lemma {:induction false} NameFieldsSize(part: PartNames, n: nat)
    requires n <= |part| && forall i | 0 <= i < |part| :: |part[i]| == KN_LEN
    ensures |Flat(NameFields(part, n))| <= 12 * n
  {
    if n > 0 {
      NameFieldsSize(part, n - 1);
      if Named(part[n - 1]) {
        FlatPush(NameFields(part, n - 1), NameAt(n - 1, part[n - 1]));
      } else {
        assert NameFields(part, n) == NameFields(part, n - 1);
      }
    }
  }

  lemma PartRecordsAre(bp: nat, part: PartNames, crc: Crc)
    requires SixBytes(part)
    ensures forall i | 0 <= i < |PartRecords(bp, part, crc)| ::
      var r := PartRecords(bp, part, crc)[i];
      IsRecord(r) && Owned(r, K_FIELD, KN_STORE)
  {
    NameFieldsSize(part, |part|);
    NewRecordReads(K_FIELD, KN_STORE, NamesPayload(bp, part), crc);
  }

  lemma {:induction false} NamesRecordsAre(parts: seq<PartNames>, n: nat, crc: Crc)
    requires n <= |parts| && forall i | 0 <= i < |parts| :: SixBytes(parts[i])
    ensures forall i | 0 <= i < |NamesRecords(parts, n, crc)| ::
      var r := NamesRecords(parts, n, crc)[i];
      IsRecord(r) && Owned(r, K_FIELD, KN_STORE)
  {
    if n > 0 {
      NamesRecordsAre(parts, n - 1, crc);
      PartRecordsAre(n - 1, parts[n - 1], crc);
    }
  }

  /** After storing the knob names the project has exactly the new blocks, and every
      other record is as it was. */
  lemma NamesWritten(was: Pair, p: Pair, parts: seq<PartNames>, w: Write, crc: Crc)
    requires AllNames(parts) && Wrote(was, p, 2, DropOwned(IsNames()), NamesRecords(parts, |parts|, crc), w, 0, crc)
    ensures Replaced(was, p, IsNames(), NamesRecords(parts, |parts|, crc), crc)
  {
    NamesRecordsAre(parts, |parts|, crc);
    OthersKept(was, p, 2, IsNames(), NamesRecords(parts, |parts|, crc), w, crc);
  }
}
