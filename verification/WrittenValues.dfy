/** What is in the records BRAIN's writers make, read back byte by byte: the defaults'
    values, the knob names, a template's values as an edit leaves them; and which template
    a place in a target's list names. */
module WrittenValues {
  import opened Words
  import opened Bytes
  import opened RecordFile
  import opened Fields
  import opened CardStore
  import opened StoreWriters
  import opened TemplateStore
  import opened TemplateEdits
  import opened Sequences
  import Settings

  // ---- defaults -------------------------------------------------------------------------

  /** A default's words: for no target, no mode, of this layout. */
  predicate Heads(pay: seq<byte>, layout: u32) {
    |pay| >= 8 && Be16(pay, 0) == 0 && Be16(pay, 2) == 0xffff && Be32(pay, 4) == layout
  }

  lemma PrefixHeads(layout: u32, rest: seq<byte>)
    ensures Heads(DefaultPrefix(layout) + rest, layout)
  {
    var pay := DefaultPrefix(layout) + rest;
    assert pay[0..2] == Enc16(0) && pay[2..4] == Enc16(NO_MODE) && pay[4..8] == Enc32(layout);
    Read16(pay, 0, 0);
    Read16(pay, 2, NO_MODE);
    Read32(pay, 4, layout);
  }

  /** A default's record holds, of the slots with a key, each one's byte under it, and
      nothing under any other key. */
  ghost predicate HoldsBytes(r: Rec, layout: u32, keys: seq<nat>, vals: seq<byte>)
    requires IsRecord(r) && |keys| == |vals|
  {
    && Heads(Payload(r), layout) && AllFields(FieldsOf(Payload(r)[8..]))
    && (forall i | 0 <= i < |keys| && keys[i] != 0 :: ByteUnder(FieldsOf(Payload(r)[8..]), keys[i]) == Some(vals[i]))
    && (forall key: nat | key == 0 || key !in keys :: ByteUnder(FieldsOf(Payload(r)[8..]), key) == None)
  }

  lemma DefaultsHold(id: seq<byte>, layout: u32, keys: seq<nat>, vals: seq<byte>, crc: Crc)
    requires 1 <= |id| <= 63 && |keys| == |vals| <= 0x70 && Distinct(keys)
    ensures var rs := Defaults(id, layout, keys, vals, false, crc);
      && |rs| == 1 && IsRecord(rs[0]) && Kind(rs[0]) == 2 && Id(rs[0]) == id && Schema(rs[0]) == 1
      && Intact(rs[0], crc) && HoldsBytes(rs[0], layout, keys, vals)
  {
    var pay := DefaultPayload(layout, keys, vals);
    ByteFieldsSize(keys, vals, |keys|);
    NewRecordReads(K_DEFAULT, id, pay, crc);
    PrefixHeads(layout, Flat(ByteFields(keys, vals, |keys|)));
    FieldsAreFields(pay[8..]);
    forall key: nat
      ensures forall i | 0 <= i < |keys| && keys[i] == key != 0 :: ByteUnder(FieldsOf(pay[8..]), key) == Some(vals[i])
      ensures key == 0 || key !in keys ==> ByteUnder(FieldsOf(pay[8..]), key) == None
    {
      DefaultReads(layout, keys, vals, key);
    }
  }

  /** The bytes 0x24, 0x28 to 0x37, 0x3f to 0x54 and 0x56 to 0x6a of the project settings,
      each under 1 + its offset. */
  function ByteAt(ram: seq<byte>, key: nat): Option<byte>
    requires |ram| == 0x70
  {
    if key == 0x25 || 0x29 <= key <= 0x38 || 0x40 <= key <= 0x55 || 0x57 <= key <= 0x6b then Some(ram[key - 1])
    else None
  }

  /** A new project takes those bytes of the settings in memory, and no others. */
  lemma ProjectDefaultHolds(ram: seq<byte>, crc: Crc)
    requires |ram| == 0x70
    ensures var rs := ProjectDefaults(ram, false, crc);
      && |rs| == 1 && IsRecord(rs[0]) && AllFields(FieldsOf(Payload(rs[0])[8..]))
      && Heads(Payload(rs[0]), 0x50524a31)
      && forall key: nat :: ByteUnder(FieldsOf(Payload(rs[0])[8..]), key) == ByteAt(ram, key)
  {
    var keys, r := ProjectKeys(), ProjectDefaults(ram, false, crc)[0];
    DefaultsHold(PS_STORE, PS_LAYOUT, keys, ram, crc);
    forall key: nat ensures ByteUnder(FieldsOf(Payload(r)[8..]), key) == ByteAt(ram, key) {
      ProjectKeyOf(key);
      if key in keys && key != 0 { assert keys[key - 1] == key; }
    }
  }

  lemma ProjectKeyOf(key: nat)
    ensures key != 0 ==> (key in ProjectKeys() <==>
      key == 0x25 || 0x29 <= key <= 0x38 || 0x40 <= key <= 0x55 || 0x57 <= key <= 0x6b)
    ensures key != 0 && key in ProjectKeys() ==> key <= 0x70 && ProjectKeys()[key - 1] == key
  {
    var keys := ProjectKeys();
    assert 1 <= key <= 0x70 ==> keys[key - 1] == if SettingsByte(key - 1) then key else 0;
  }

  // ---- knob names ---------------------------------------------------------------------------

  /** The block of Part bp, with the name under knob i's key. */
  ghost predicate HoldsName(r: Rec, bp: nat, i: nat, name: seq<byte>) {
    && IsRecord(r) && |Payload(r)| >= 4 && Be16(Payload(r), 0) == bp
    && exists x :: IsName(x, i, name) && x in FieldsOf(Payload(r)[4..])
  }

  ghost predicate IsName(x: Field, i: nat, name: seq<byte>) {
    IsField(x) && Key(x) == i + 1 && x[2] == T_NAME && Data(x) == name
  }

  lemma NameAtIs(i: nat, name: seq<byte>)
    requires |name| == KN_LEN && i < 0xffff
    ensures IsName(NameAt(i, name), i, name)
  {
    var x := NameAt(i, name);
    assert x[0..2] == Enc16(i + 1) && x[4..10] == name;
    Read16(x, 0, i + 1);
  }

  /** Some of the first n knobs' fields. */
  lemma {:induction false} NamesAre(part: PartNames, n: nat)
    requires SixBytes(part) && n <= |part|
    ensures AllFields(NameFields(part, n))
    ensures forall i | 0 <= i < n && part[i][0] != 0 :: NameAt(i, part[i]) in NameFields(part, n)
    ensures forall x | x in NameFields(part, n) :: exists i | 0 <= i < n :: part[i][0] != 0 && x == NameAt(i, part[i])
  {
    if n > 0 {
      NamesAre(part, n - 1);
      NameAtIs(n - 1, part[n - 1]);
    }
  }

  lemma PartBlock(bp: nat, part: PartNames, crc: Crc)
    requires SixBytes(part) && bp < KN_PARTS
    ensures var rs, fs := PartRecords(bp, part, crc), NameFields(part, |part|);
      && (fs == [] <==> rs == []) && |rs| <= 1
      && forall k | 0 <= k < |rs| ::
           IsRecord(rs[k]) && |Payload(rs[k])| >= 4 && Be16(Payload(rs[k]), 0) == bp
             && FieldsOf(Payload(rs[k])[4..]) == fs
  {
    var fs, pay := NameFields(part, |part|), NamesPayload(bp, part);
    NameFieldsSize(part, |part|);
    NewRecordReads(K_FIELD, KN_STORE, pay, crc);
    NamesAre(part, |part|);
    FieldsReadBack(fs, []);
    assert pay[0..2] == Enc16(bp) && pay[4..] == Flat(fs) + [] && fs + FieldsOf([]) == fs;
    Read16(pay, 0, bp);
  }

  /** A Part's block holds each of its knobs' names, */
  lemma NameIsHeld(bp: nat, part: PartNames, i: nat, crc: Crc)
    requires SixBytes(part) && bp < KN_PARTS && i < KN_KNOBS && part[i][0] != 0
    ensures var rs := PartRecords(bp, part, crc); |rs| == 1 && HoldsName(rs[0], bp, i, part[i])
  {
    PartBlock(bp, part, crc);
    NamesAre(part, |part|);
    NameAtIs(i, part[i]);
    assert NameAt(i, part[i]) in NameFields(part, |part|);
  }

  /** and no other. */
  lemma HeldIsName(bp: nat, part: PartNames, k: nat, b: nat, i: nat, name: seq<byte>, crc: Crc)
    requires SixBytes(part) && bp < KN_PARTS && i < KN_KNOBS
    requires k < |PartRecords(bp, part, crc)| && HoldsName(PartRecords(bp, part, crc)[k], b, i, name)
    ensures b == bp && part[i][0] != 0 && name == part[i]
  {
    PartBlock(bp, part, crc);
    NamesAre(part, |part|);
    var x :| IsName(x, i, name) && x in FieldsOf(Payload(PartRecords(bp, part, crc)[k])[4..]);
    var j :| 0 <= j < |part| && part[j][0] != 0 && x == NameAt(j, part[j]);
    NameAtIs(j, part[j]);
  }

  /** The records of the first blocks, block by block. It is all that the next two
      lemmas know of `NamesRecords`. */
  ghost predicate Grows(all: nat -> seq<Rec>, block: nat -> seq<Rec>, n: nat) {
    all(0) == [] && forall k: nat | k < n :: GrowsBy(all, block, k)
  }

  ghost predicate GrowsBy(all: nat -> seq<Rec>, block: nat -> seq<Rec>, k: nat) {
    all(k + 1) == all(k) + block(k)
  }

  lemma {:induction false} BlockIn(all: nat -> seq<Rec>, block: nat -> seq<Rec>, n: nat, bp: nat, k: nat)
    returns (j: nat)
    requires Grows(all, block, n) && bp < n && k < |block(bp)|
    ensures j < |all(n)| && all(n)[j] == block(bp)[k]
  {
    assert GrowsBy(all, block, n - 1);
    if bp < n - 1 { j := BlockIn(all, block, n - 1, bp, k); } else { j := |all(n - 1)| + k; }
  }

  lemma {:induction false} BlockOf(all: nat -> seq<Rec>, block: nat -> seq<Rec>, n: nat, j: nat)
    returns (bp: nat, k: nat)
    requires Grows(all, block, n) && j < |all(n)|
    ensures bp < n && k < |block(bp)| && all(n)[j] == block(bp)[k]
  {
    assert n > 0 && GrowsBy(all, block, n - 1);
    var before := |all(n - 1)|;
    if j < before { bp, k := BlockOf(all, block, n - 1, j); } else { bp, k := n - 1, j - before; }
  }

  ghost predicate Named(rs: seq<Rec>, bp: nat, i: nat, name: seq<byte>) {
    exists j | 0 <= j < |rs| :: HoldsName(rs[j], bp, i, name)
  }

  ghost function NamesUpTo(parts: seq<PartNames>, crc: Crc): nat -> seq<Rec> {
    (n: nat) => if n <= |parts| then NamesRecords(parts, n, crc) else []
  }

  ghost function BlocksOf(parts: seq<PartNames>, crc: Crc): nat -> seq<Rec> {
    (b: nat) => if b < |parts| then PartRecords(b, parts[b], crc) else []
  }

  lemma NamesGrow(parts: seq<PartNames>, crc: Crc)
    ensures Grows(NamesUpTo(parts, crc), BlocksOf(parts, crc), |parts|)
  {
    forall k: nat | k < |parts| ensures GrowsBy(NamesUpTo(parts, crc), BlocksOf(parts, crc), k) {
      NamesStep(parts, k, crc);
    }
  }

  lemma NamesStep(parts: seq<PartNames>, k: nat, crc: Crc)
    requires k < |parts|
    ensures NamesRecords(parts, k + 1, crc) == NamesRecords(parts, k, crc) + PartRecords(k, parts[k], crc)
  {
  }

  lemma NamedIn(all: nat -> seq<Rec>, block: nat -> seq<Rec>, n: nat, bp: nat, i: nat, name: seq<byte>)
    requires Grows(all, block, n) && bp < n && Named(block(bp), bp, i, name)
    ensures Named(all(n), bp, i, name)
  {
    var k :| 0 <= k < |block(bp)| && HoldsName(block(bp)[k], bp, i, name);
    var j := BlockIn(all, block, n, bp, k);
    assert HoldsName(all(n)[j], bp, i, name);
  }

  lemma NamedBy(all: nat -> seq<Rec>, block: nat -> seq<Rec>, n: nat, bp: nat, i: nat, name: seq<byte>) returns (b: nat)
    requires Grows(all, block, n) && Named(all(n), bp, i, name)
    ensures b < n && Named(block(b), bp, i, name)
  {
    var j :| 0 <= j < |all(n)| && HoldsName(all(n)[j], bp, i, name);
    var k;
    b, k := BlockOf(all, block, n, j);
    assert HoldsName(block(b)[k], bp, i, name);
  }

  lemma NamedInPart(bp: nat, part: PartNames, b: nat, i: nat, name: seq<byte>, crc: Crc)
    requires SixBytes(part) && bp < KN_PARTS && i < KN_KNOBS
    ensures Named(PartRecords(bp, part, crc), b, i, name) <==> b == bp && part[i][0] != 0 && name == part[i]
  {
    if b == bp && part[i][0] != 0 && name == part[i] { NameIsHeld(bp, part, i, crc); }
    if Named(PartRecords(bp, part, crc), b, i, name) {
      var k :| 0 <= k < |PartRecords(bp, part, crc)| && HoldsName(PartRecords(bp, part, crc)[k], b, i, name);
      HeldIsName(bp, part, k, b, i, name, crc);
    }
  }

  /** Of all the names stored, knob i of Part bp reads back its own when it has one, and
      none when it has not. */
  lemma NamesReadBack(parts: seq<PartNames>, bp: nat, i: nat, name: seq<byte>, crc: Crc)
    requires AllNames(parts) && bp < KN_PARTS && i < KN_KNOBS
    ensures Named(NamesRecords(parts, |parts|, crc), bp, i, name) <==> parts[bp][i][0] != 0 && name == parts[bp][i]
  {
    var all, block := NamesUpTo(parts, crc), BlocksOf(parts, crc);
    NamesGrow(parts, crc);
    assert SixBytes(parts[bp]);
    NamedInPart(bp, parts[bp], bp, i, name, crc);
    if Named(block(bp), bp, i, name) { NamedIn(all, block, |parts|, bp, i, name); }
    if Named(all(|parts|), bp, i, name) {
      var b := NamedBy(all, block, |parts|, bp, i, name);
      assert SixBytes(parts[b]);
      NamedInPart(b, parts[b], bp, i, name, crc);
    }
  }

  // ---- templates ------------------------------------------------------------------------------

  /** The raw marks of a template of a target. */
  predicate Marks(r: Rec, id: seq<byte>, layout: u32) {
    IsRecord(r) && Kind(r) == 3 && Id(r) == id && |Payload(r)| >= 16 && Be32(Payload(r), 4) == layout
  }

  ghost function Marked(id: seq<byte>, layout: u32): Rec -> bool {
    (r: Rec) => Marks(r, id, layout)
  }

  lemma {:induction false} PlacesCount(rs: seq<Rec>, t: Target)
    ensures |Places(rs, Of(t))| == |Filter(rs, Marked(t.id, t.layout))|
  {
    if rs != [] { PlacesCount(rs[..|rs| - 1], t); }
  }

  /** Place i of a target names the record that bears its marks and has i such before it;
      there is none when fewer bear them. */
  lemma {:induction false} NthIs(rs: seq<Rec>, t: Target, i: nat)
    ensures var k := Nth(rs, Of(t), i);
      && (k.Some? <==> i < |Filter(rs, Marked(t.id, t.layout))|)
      && (k.Some? ==> k.value < |rs| && Marks(rs[k.value], t.id, t.layout)
                      && |Filter(rs[..k.value], Marked(t.id, t.layout))| == i)
  {
    PlacesCount(rs, t);
    if rs != [] {
      var n := |rs| - 1;
      PlacesCount(rs[..n], t);
      NthIs(rs[..n], t, i);
      var k := Nth(rs[..n], Of(t), i);
      if k.Some? { assert rs[..n][..k.value] == rs[..k.value]; }
    }
  }

  lemma PlaceOf(rs: seq<Rec>, t: Target, j: nat)
    requires j < |rs| && Marks(rs[j], t.id, t.layout)
    ensures var i := |Filter(rs[..j], Marked(t.id, t.layout))|;
      i < |Places(rs, Of(t))| && Places(rs, Of(t))[i] == j
  {
    PlacesCount(rs[..j], t);
    NthFound(rs, Of(t), |Places(rs[..j], Of(t))|, j);
  }

  lemma {:induction false} FirstIs(rs: seq<Rec>, of: Rec -> bool, called: Rec -> bool, from: nat) returns (i: nat)
    ensures from <= i
    ensures FirstCalled(rs, of, called, from)
         == if i < |Places(rs, of)| && i < 64 then Some(Places(rs, of)[i]) else None
    ensures i < |Places(rs, of)| && i < 64 ==> called(rs[Places(rs, of)[i]])
    ensures forall h | from <= h < i && h < |Places(rs, of)| && h < 64 :: !called(rs[Places(rs, of)[h]])
    decreases 64 - from
  {
    var ks := Places(rs, of);
    if from >= 64 || from >= |ks| || called(rs[ks[from]]) { return from; }
    i := FirstIs(rs, of, called, from + 1);
  }

  /** Record j has the name, among the target's first 64. */
  ghost predicate Replaceable(rs: seq<Rec>, t: Target, name: seq<byte>, j: nat) {
    && j < |rs| && Marks(rs[j], t.id, t.layout) && Payload(rs[j])[8..16] == name
    && |Filter(rs[..j], Marked(t.id, t.layout))| < 64
  }

  /** The template a save replaces is the first such. */
  lemma ReplacedIs(rs: seq<Rec>, t: Target, name: seq<byte>)
    ensures var k := FirstCalled(rs, Of(t), Called(t, name), 0);
      && (k.Some? ==> Replaceable(rs, t, name, k.value))
      && (forall j: nat | Replaceable(rs, t, name, j) :: k.Some? && k.value <= j)
  {
    var k, ks := FirstCalled(rs, Of(t), Called(t, name), 0), Places(rs, Of(t));
    var i := FirstIs(rs, Of(t), Called(t, name), 0);
    if k.Some? { NthIs(rs, t, i); }
    forall j: nat | Replaceable(rs, t, name, j) ensures k.Some? && k.value <= j {
      PlaceOf(rs, t, j);
      var h := |Filter(rs[..j], Marked(t.id, t.layout))|;
      assert Called(t, name)(rs[ks[h]]);
      if k.value > j { EarlierPlace(rs, t, j, k.value); }
    }
  }

  lemma EarlierPlace(rs: seq<Rec>, t: Target, j: nat, k: nat)
    requires j < k < |rs| && Marks(rs[j], t.id, t.layout)
    ensures |Filter(rs[..j], Marked(t.id, t.layout))| < |Filter(rs[..k], Marked(t.id, t.layout))|
  {
    FilterHolds(rs[..k], Marked(t.id, t.layout), j);
    assert rs[..k][..j] == rs[..j];
  }

  /** A saved template bears its target's marks, and its name and values as given. */
  lemma TemplateHolds(t: Target, name: seq<byte>, values: seq<byte>, crc: Crc)
    requires 1 <= |t.id| <= 63 && |name| == 8 && |NewTemplate(t, name, values, crc)| <= BUF_LEN
    ensures var r := NewTemplate(t, name, values, crc);
      && Marks(r, t.id, t.layout) && Schema(r) == 1 && Intact(r, crc) && Heads(Payload(r), t.layout)
      && Payload(r)[8..16] == name && Payload(r)[16..] == values
  {
    var pay := TemplatePayload(t, name, values);
    NewRecordReads(K_TEMPLATE, t.id, pay, crc);
    assert pay == DefaultPrefix(t.layout) + (name + values);
    PrefixHeads(t.layout, name + values);
    assert pay[8..16] == name && pay[16..] == values;
  }

  /** A renamed one differs in its name, and its checksum, alone. */
  lemma RenameHolds(r: Rec, name: seq<byte>, crc: Crc)
    requires IsRecord(r) && |Payload(r)| >= 16 && |name| == 8
    ensures var s := Renamed(r, name, crc);
      && IsRecord(s) && Kind(s) == Kind(r) && Id(s) == Id(r) && Schema(s) == Schema(r) && Intact(s, crc)
      && Payload(s) == Payload(r)[..8] + name + Payload(r)[16..]
  {
    WithPayloadReads(r, Payload(r)[..8] + name + Payload(r)[16..], crc);
  }

  /** Slot q is the screen's last with that key. */
  predicate LastSlot(keys: seq<nat>, key: nat, q: nat) {
    q < |keys| && keys[q] == key && forall p | q < p < |keys| :: keys[p] != key
  }

  /** What the screen shows for a key: its last slot's value. */
  lemma {:induction false} ShownIsLast(keys: seq<nat>, vals: seq<byte>, key: nat, was: byte, q: nat)
    requires |keys| == |vals| && LastSlot(keys, key, q)
    ensures Shown(keys, vals, key, was) == vals[q]
  {
    var n := |keys| - 1;
    if q < n {
      assert keys[n] != key;
      assert LastSlot(keys[..n], key, q);
      ShownIsLast(keys[..n], vals[..n], key, was, q);
    }
  }

  lemma {:induction false} ShownIsKept(keys: seq<nat>, vals: seq<byte>, key: nat, was: byte)
    requires |keys| == |vals| && key !in keys
    ensures Shown(keys, vals, key, was) == was
  {
    if keys != [] { ShownIsKept(keys[..|keys| - 1], vals[..|vals| - 1], key, was); }
  }

  /** One value after an edit: a byte as the screen's last slot for its key has it, and
      anything else, or a byte without a slot, as it was. */
  ghost predicate EditedTo(x: Field, y: seq<byte>, keys: seq<nat>, vals: seq<byte>)
    requires IsField(x) && |keys| == |vals|
  {
    && |y| == |x| && (forall b | 0 <= b < |x| && b != 4 :: y[b] == x[b])
    && (x[2] != T_BYTE || x[3] != 1 || Key(x) !in keys ==> y == x)
    && (x[2] == T_BYTE && x[3] == 1 ==> forall q: nat | LastSlot(keys, Key(x), q) :: y[4] == vals[q])
  }

  lemma FieldEdited(x: Field, keys: seq<nat>, vals: seq<byte>)
    requires IsField(x) && |keys| == |vals|
    ensures var y := EditedField(x, keys, vals); EditedTo(x, y, keys, vals) && IsField(y)
  {
    if OneByte(x) {
      forall q: nat | LastSlot(keys, Key(x), q) ensures EditedField(x, keys, vals)[4] == vals[q] {
        ShownIsLast(keys, vals, Key(x), x[4], q);
      }
      if Key(x) !in keys { ShownIsKept(keys, vals, Key(x), x[4]); }
    }
  }

  lemma {:induction false} FieldsEdited(fs: seq<Field>, keys: seq<nat>, vals: seq<byte>)
    requires Short(fs) && |keys| == |vals|
    ensures var es := EditedFields(fs, keys, vals);
      && |es| == |fs| && AllFields(es) && forall i | 0 <= i < |fs| :: EditedTo(fs[i], es[i], keys, vals)
  {
    if fs != [] {
      FieldEdited(fs[0], keys, vals);
      FieldsEdited(fs[1..], keys, vals);
    }
  }

  /** An edited template of well-formed values has as many, each edited so; its prefix and
      name stay, and it holds a Part's image only where it held one. */
  lemma EditHolds(r: Rec, fs: seq<Field>, keys: seq<nat>, vals: seq<byte>, crc: Crc)
    requires IsRecord(r) && |Payload(r)| >= 16 && Short(fs) && Payload(r)[16..] == Flat(fs) && |keys| == |vals|
    ensures var s := WithPayload(r, EditedPayload(Payload(r), keys, vals, None), crc);
      && IsRecord(s) && Kind(s) == Kind(r) && Id(s) == Id(r) && Intact(s, crc) && Payload(s)[..16] == Payload(r)[..16]
      && |FieldsOf(Payload(s)[16..])| == |fs|
      && forall i | 0 <= i < |fs| :: EditedTo(fs[i], FieldsOf(Payload(s)[16..])[i], keys, vals)
  {
    var pay := EditedPayload(Payload(r), keys, vals, None);
    WithPayloadReads(r, pay, crc);
    EditedIsPerField(fs, keys, vals);
    FieldsEdited(fs, keys, vals);
    var es := EditedFields(fs, keys, vals);
    FieldsReadBack(es, []);
    assert pay[16..] == Flat(es) + [] && es + FieldsOf([]) == es;
  }

  /** A template that holds a Part's image holds the new one after the edit, and nothing
      else of it changes; any other is edited as if there were none. */
  lemma ImageEdited(pay: seq<byte>, keys: seq<nat>, vals: seq<byte>, image: seq<byte>)
    requires |pay| >= 16 && |keys| == |vals| && |image| == PART_LEN
    ensures var plain, e := EditedPayload(pay, keys, vals, None), EditedPayload(pay, keys, vals, Some(image));
      var holds := |plain| >= 24 + Align4(PART_LEN) && Be16(plain, 16) == 1 && plain[18] == 4 && plain[19] == 0xff
        && Be32(plain, 20) == PART_LEN;
      && |e| == |plain| && (!holds ==> e == plain)
      && (holds ==>
            && e[24..24 + PART_LEN] == image && e[..24] == plain[..24]
            && e[24 + PART_LEN..] == plain[24 + PART_LEN..])
  {
  }

  // ---- defaults made of templates -------------------------------------------------------

  /** The default made of a template: for an effect or a new project it has the template's
      bytes, and of a Part the image behind key 1. */
  lemma DefaultMade(which: Which, layout: u32, pay: seq<byte>, fs: seq<Field>, past: byte, key: nat)
    requires |pay| >= 16 && (which == OfEffect || which == OfProject) && Short(fs) && pay[16..] == Flat(fs)
    ensures var d := DefaultOf(which, layout, pay, past).value;
      && Heads(d, layout) && AllFields(FieldsOf(d[8..])) && AllFields(fs)
      && ByteUnder(FieldsOf(d[8..]), key) == ByteUnder(fs, key)
  {
    DefaultCopies(layout, pay, fs, past, key);
    PrefixHeads(layout, Flat(ByteValues(pay[16..], past)));
  }

  lemma PartDefaultMade(layout: u32, pay: seq<byte>, past: byte)
    requires |pay| >= 16
    ensures var d := DefaultOf(OfPart, layout, pay, past);
      var holds := |pay| >= 24 + Align4(PART_LEN) && Be16(pay, 16) == 1 && pay[18] == 4 && pay[19] == 0xff
        && Be32(pay, 20) == PART_LEN;
      && (d.Some? <==> holds)
      && (holds ==>
            && Heads(d.value, layout) && |d.value| == 16 + Align4(PART_LEN) && Be16(d.value, 8) == 1
            && d.value[10] == 4 && d.value[11] == 0xff && Be32(d.value, 12) == PART_LEN
            && d.value[16..16 + PART_LEN] == pay[24..24 + PART_LEN])
  {
    if HoldsPart(pay, 16) {
      var image := Padded(pay[24..24 + PART_LEN]);
      var d := DefaultOf(OfPart, layout, pay, past).value;
      PrefixHeads(layout, Enc16(1) + [T_BLOB, 0xff] + Enc32(PART_LEN) + image);
      assert d == DefaultPrefix(layout) + (Enc16(1) + [T_BLOB, 0xff] + Enc32(PART_LEN) + image);
      assert d[8..10] == Enc16(1) && d[12..16] == Enc32(PART_LEN) && d[16..] == image;
      Read16(d, 8, 1);
      Read32(d, 12, PART_LEN);
    }
  }

  // ---- the project record ---------------------------------------------------------------------

  /** An effect's entry at `at`: its number, the length of its id, its layout and its id. */
  predicate ListsAt(pay: seq<byte>, at: nat, f: Settings.Effect) {
    && at + 8 + Align4(|f.id|) <= |pay| && pay[at] == f.fx && pay[at + 1] == |f.id| && Be32(pay, at + 4) == f.layout
    && pay[at + 8..at + 8 + |f.id|] == f.id
  }

  function Entry8(f: Settings.Effect): (e: seq<byte>)
    requires |f.id| <= 63
    ensures |e| == 8
  {
    [f.fx, |f.id|, 0, 0] + Enc32(f.layout)
  }

  lemma EntryIs(f: Settings.Effect)
    requires |f.id| <= 63
    ensures ListsAt(Entry8(f) + Padded(f.id), 0, f)
  {
    var e := Entry8(f) + Padded(f.id);
    assert e[4..8] == Enc32(f.layout);
    Read32(e, 4, f.layout);
    assert e[8..8 + |f.id|] == Padded(f.id)[..|f.id|];
  }

  lemma ListsBehind(before: seq<byte>, e: seq<byte>, f: Settings.Effect)
    requires ListsAt(e, 0, f)
    ensures ListsAt(before + e, |before|, f)
  {
    var at, pay := |before|, before + e;
    assert pay[at + 4] == e[4] && pay[at + 5] == e[5] && pay[at + 6] == e[6] && pay[at + 7] == e[7];
    assert pay[at + 8..at + 8 + |f.id|] == e[8..8 + |f.id|];
  }

  lemma ListsLonger(pay: seq<byte>, more: seq<byte>, at: nat, f: Settings.Effect)
    requires ListsAt(pay, at, f)
    ensures ListsAt(pay + more, at, f)
  {
    assert (pay + more)[at + 8..at + 8 + |f.id|] == pay[at + 8..at + 8 + |f.id|];
  }

  lemma PayloadStep(fx: seq<Settings.Effect>)
    requires fx != [] && Settings.EffectsFit(fx)
    ensures var f := fx[|fx| - 1];
      Settings.ProjectPayload(fx) == Settings.ProjectPayload(fx[..|fx| - 1]) + (Entry8(f) + Padded(f.id))
  {
  }

  lemma LastLists(fx: seq<Settings.Effect>)
    requires fx != [] && Settings.EffectsFit(fx)
    ensures ListsAt(Settings.ProjectPayload(fx), |Settings.ProjectPayload(fx[..|fx| - 1])|, fx[|fx| - 1])
  {
    var f := fx[|fx| - 1];
    PayloadStep(fx);
    EntryIs(f);
    ListsBehind(Settings.ProjectPayload(fx[..|fx| - 1]), Entry8(f) + Padded(f.id), f);
  }

  lemma ListsOn(fx: seq<Settings.Effect>, at: nat, f: Settings.Effect)
    requires fx != [] && Settings.EffectsFit(fx) && ListsAt(Settings.ProjectPayload(fx[..|fx| - 1]), at, f)
    ensures ListsAt(Settings.ProjectPayload(fx), at, f)
  {
    var last := fx[|fx| - 1];
    PayloadStep(fx);
    ListsLonger(Settings.ProjectPayload(fx[..|fx| - 1]), Entry8(last) + Padded(last.id), at, f);
  }

  /** Where effect i's entry begins. */
  function EntryAt(fx: seq<Settings.Effect>, i: nat): nat
    requires i <= |fx| && Settings.EffectsFit(fx)
  {
    |Settings.ProjectPayload(fx[..i])|
  }

  lemma EntryInFront(fx: seq<Settings.Effect>, i: nat)
    requires i < |fx| - 1 && Settings.EffectsFit(fx)
    ensures EntryAt(fx[..|fx| - 1], i) == EntryAt(fx, i) && fx[..|fx| - 1][i] == fx[i]
  {
    assert fx[..|fx| - 1][..i] == fx[..i];
  }

  /** A project's record lists its effects one after the other, */
  lemma {:induction false} ProjectLists(fx: seq<Settings.Effect>, i: nat)
    requires Settings.EffectsFit(fx) && i < |fx|
    ensures ListsAt(Settings.ProjectPayload(fx), EntryAt(fx, i), fx[i])
  {
    if i < |fx| - 1 {
      ProjectLists(fx[..|fx| - 1], i);
      EntryInFront(fx, i);
      ListsOn(fx, EntryAt(fx, i), fx[i]);
    } else {
      LastLists(fx);
    }
  }

  /** with nothing between them and nothing behind. */
  lemma ProjectFills(fx: seq<Settings.Effect>)
    requires Settings.EffectsFit(fx)
    ensures fx == [] ==> Settings.ProjectPayload(fx) == []
    ensures fx != [] ==>
      |Settings.ProjectPayload(fx)| == |Settings.ProjectPayload(fx[..|fx| - 1])| + 8 + Align4(|fx[|fx| - 1].id|)
  {
    if fx != [] { PayloadStep(fx); }
  }
}
