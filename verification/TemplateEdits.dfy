/** A template's values changed on the edit screen, or made the default of their
    target (brain.c, `write_template` with T_EDIT, `part_blob_at`, `write_setdef`). */
module TemplateEdits {
  import opened Words
  import opened Bytes
  import opened RecordFile
  import opened Fields
  import opened CardStore
  import opened StoreWriters
  import opened TemplateStore

  const PART_LEN := 6322

  /** Where a payload's values are read as plain short fields. */
  predicate More(b: seq<byte>) {
    |b| >= 4 && b[3] != 0xff
  }

  /** The bytes of the first value, as far as there are any. */
  function StepOf(b: seq<byte>): (step: nat)
    requires More(b)
    ensures 4 <= step <= |b|
  {
    Min(4 + Align4(b[3]), |b|)
  }

  predicate OneByte(b: seq<byte>)
    requires |b| >= 4
  {
    b[2] == T_BYTE && b[3] == 1
  }

  // ---- the edit screen ------------------------------------------------------------------

  /** The screen's value for a key, the last of them; else what was there. */
  function Shown(keys: seq<nat>, vals: seq<byte>, key: nat, was: byte): byte
    requires |keys| == |vals|
  {
    if keys == [] then was
    else if keys[|keys| - 1] == key then vals[|vals| - 1]
    else Shown(keys[..|keys| - 1], vals[..|vals| - 1], key, was)
  }

  /** A field with its byte as shown. A byte past the payload's end is not its own. */
  function EditedField(x: seq<byte>, keys: seq<nat>, vals: seq<byte>): (y: seq<byte>)
    requires |x| >= 4 && |keys| == |vals|
    ensures |y| == |x|
  {
    if OneByte(x) && |x| > 4 then x[4 := Shown(keys, vals, Be16(x, 0), x[4])] else x
  }

  function Edited(b: seq<byte>, keys: seq<nat>, vals: seq<byte>): (e: seq<byte>)
    requires |keys| == |vals|
    ensures |e| == |b|
    decreases |b|
  {
    if !More(b) then b else EditedField(b[..StepOf(b)], keys, vals) + Edited(b[StepOf(b)..], keys, vals)
  }

  ghost predicate Short(fs: seq<Field>) {
    forall i | 0 <= i < |fs| :: IsField(fs[i]) && fs[i][3] != 0xff
  }

  function EditedFields(fs: seq<Field>, keys: seq<nat>, vals: seq<byte>): seq<Field>
    requires Short(fs) && |keys| == |vals|
  {
    if fs == [] then [] else [EditedField(fs[0], keys, vals)] + EditedFields(fs[1..], keys, vals)
  }

  lemma EditedFront(x: Field, rest: seq<byte>, keys: seq<nat>, vals: seq<byte>)
    requires IsField(x) && x[3] != 0xff && |keys| == |vals|
    ensures Edited(x + rest, keys, vals) == EditedField(x, keys, vals) + Edited(rest, keys, vals)
  {
    var b := x + rest;
    assert b[3] == x[3] && StepOf(b) == |x|;
    assert b[..|x|] == x && b[|x|..] == rest;
  }

  /** Editing well-formed values edits each of them and nothing between. */
  lemma {:induction false} EditedIsPerField(fs: seq<Field>, keys: seq<nat>, vals: seq<byte>)
    requires Short(fs) && |keys| == |vals|
    ensures Edited(Flat(fs), keys, vals) == Flat(EditedFields(fs, keys, vals))
  {
    if fs != [] {
      EditedIsPerField(fs[1..], keys, vals);
      EditedFront(fs[0], Flat(fs[1..]), keys, vals);
      var es := EditedFields(fs[1..], keys, vals);
      assert ([EditedField(fs[0], keys, vals)] + es)[1..] == es;
    }
  }

  /** The loop over the values. */
  method EditValues(values: seq<byte>, keys: seq<nat>, vals: seq<byte>) returns (pay: seq<byte>)
    requires |keys| == |vals|
    ensures pay == Edited(values, keys, vals)
  {
    var done, rest := [], values;
    ghost var all := Edited(values, keys, vals);
    assert [] + all == all;
    while More(rest)
      invariant done + Edited(rest, keys, vals) == all
      decreases |rest|
    {
      var x := EditOne(rest[..StepOf(rest)], keys, vals);
      ghost var later := Edited(rest[StepOf(rest)..], keys, vals);
      assert done + (x + later) == done + x + later;
      done, rest := done + x, rest[StepOf(rest)..];
    }
    return done + rest;
  }

  method EditOne(x: seq<byte>, keys: seq<nat>, vals: seq<byte>) returns (y: seq<byte>)
    requires |x| >= 4 && |keys| == |vals|
    ensures y == EditedField(x, keys, vals)
  {
    if !OneByte(x) || |x| == 4 { return x; }
    var v := ShownValue(keys, vals, Be16(x, 0), x[4]);
    return x[4 := v];
  }

  method ShownValue(keys: seq<nat>, vals: seq<byte>, key: nat, was: byte) returns (v: byte)
    requires |keys| == |vals|
    ensures v == Shown(keys, vals, key, was)
  {
    v := was;
    var q := 0;
    while q < |keys|
      invariant 0 <= q <= |keys| && v == Shown(keys[..q], vals[..q], key, was)
    {
      assert keys[..q + 1][..q] == keys[..q] && vals[..q + 1][..q] == vals[..q];
      if keys[q] == key { v := vals[q]; }
      q := q + 1;
    }
    assert keys[..q] == keys && vals[..q] == vals;
  }

  /** What the edit screen makes of a template's payload: its values edited, and a
      Part's image when it holds one. */
  function EditedPayload(pay: seq<byte>, keys: seq<nat>, vals: seq<byte>, image: Option<seq<byte>>): (e: seq<byte>)
    requires |pay| >= 16 && |keys| == |vals| && (image.Some? ==> |image.value| == PART_LEN)
    ensures |e| == |pay| && e[..16] == pay[..16]
  {
    var e := pay[..16] + Edited(pay[16..], keys, vals);
    if image.Some? && HoldsPart(e, 16) then e[..24] + image.value + e[24 + PART_LEN..] else e
  }

  /** A Part's image behind `at`, under key 1. */
  predicate HoldsPart(pay: seq<byte>, at: nat) {
    && at + 8 + Align4(PART_LEN) <= |pay| && Be16(pay, at) == 1 && pay[at + 2] == T_BLOB && pay[at + 3] == 0xff
    && Be32(pay, at + 4) == PART_LEN
  }

  /** Record k with its payload edited. */
  function EditAt(k: nat, keys: seq<nat>, vals: seq<byte>, image: Option<seq<byte>>, crc: Crc): Choice
    requires |keys| == |vals| && (image.Some? ==> |image.value| == PART_LEN)
  {
    (j: nat, r: Rec) =>
      if j == k && IsRecord(r) && |Payload(r)| >= 16 then
        Edit(WithPayload(r, EditedPayload(Payload(r), keys, vals, image), crc))
      else Keep
  }

  lemma EditIsSized(k: nat, keys: seq<nat>, vals: seq<byte>, image: Option<seq<byte>>, crc: Crc)
    requires |keys| == |vals| && (image.Some? ==> |image.value| == PART_LEN)
    ensures Sized(EditAt(k, keys, vals, image, crc))
  {
    var choice := EditAt(k, keys, vals, image, crc);
    forall j: nat, r: Rec | IsRecord(r) && choice(j, r).Edit?
      ensures IsRecord(choice(j, r).to) && |choice(j, r).to| == |r|
    {
      WithPayloadReads(r, EditedPayload(Payload(r), keys, vals, image), crc);
    }
  }

  /** EDIT: the i-th template of the target with its values as the screen shows them. */
  method EditTemplate(store: Store, p: Pair, t: Target, i: nat, keys: seq<nat>, vals: seq<byte>,
                      image: Option<seq<byte>>, w: Write)
    returns (q: Pair, err: nat)
    requires store.Valid() && |keys| == |vals| && (image.Some? ==> |image.value| == PART_LEN)
    modifies store.buf, store.out
    ensures var k := Nth(Records(p, store.crc), Of(t), i);
      if Current(p, store.crc).Damaged? then err == 2 && q == p
      else if k.None? then err == 1 && q == p
      else Wrote(p, q, 0, EditAt(k.value, keys, vals, image, store.crc), [], w, err, store.crc)
  {
    var n := store.Open(p);
    if n < 0 { return p, 2; }
    ghost var rs := Records(p, store.crc);
    var k := FindNth(store, n, rs, Of(t), i);
    if k.None? { return p, 1; }
    EditIsSized(k.value, keys, vals, image, store.crc);
    q, err := Rewritten(store, p, n, EditAt(k.value, keys, vals, image, store.crc), [], w, rs);
  }

  /** After EDIT that template has the values shown, and every other record is as it
      was. */
  lemma TemplateEdited(was: Pair, p: Pair, t: Target, i: nat, k: nat, keys: seq<nat>, vals: seq<byte>,
                       image: Option<seq<byte>>, w: Write, crc: Crc)
    requires |keys| == |vals| && (image.Some? ==> |image.value| == PART_LEN)
    requires Nth(Records(was, crc), Of(t), i) == Some(k)
      && Wrote(was, p, 0, EditAt(k, keys, vals, image, crc), [], w, 0, crc)
    ensures var rs := Records(was, crc);
      && k < |rs| && IsTemplate(rs[k], t)
      && var to := WithPayload(rs[k], EditedPayload(Payload(rs[k]), keys, vals, image), crc);
         IsTemplate(to, t) && Intact(to, crc) && Leaves(was, p, rs[k := to], crc)
  {
    var rs, choice := Records(was, crc), EditAt(k, keys, vals, image, crc);
    var to := WithPayload(rs[k], EditedPayload(Payload(rs[k]), keys, vals, image), crc);
    EditIsSized(k, keys, vals, image, crc);
    LeavesSurvivors(was, p, choice, w, crc);
    EditedAt(rs, choice, k, to);
    EditedReads(rs[k], t, keys, vals, image, crc);
  }

  /** An edited template is its target's still, under its own name, and intact. */
  lemma EditedReads(r: Rec, t: Target, keys: seq<nat>, vals: seq<byte>, image: Option<seq<byte>>, crc: Crc)
    requires IsTemplate(r, t) && |keys| == |vals| && (image.Some? ==> |image.value| == PART_LEN)
    ensures var s := WithPayload(r, EditedPayload(Payload(r), keys, vals, image), crc);
      Called(t, Payload(r)[8..16])(s) && Intact(s, crc) && |s| == |r|
  {
    var was, pay := Payload(r), EditedPayload(Payload(r), keys, vals, image);
    WithPayloadReads(r, pay, crc);
    assert pay[..16][4..8] == was[..16][4..8] && pay[..16][8..16] == was[..16][8..16];
    assert pay[4..8] == was[4..8] && pay[8..16] == was[8..16];
    SameWord(pay, was, 4);
  }

  // ---- making a template the default -------------------------------------------------------

  /** What a target's default is: an effect's, the new project's, a Part's, or none. */
  datatype Which = OfEffect | OfProject | OfPart | NoDefault

  /** The one-byte values, each under its key; `past` is the byte behind the payload,
      which a value cut short is read from. */
  function ByteValues(b: seq<byte>, past: byte): seq<Field>
    decreases |b|
  {
    if !More(b) then []
    else
      (if OneByte(b) then [ByteField(Be16(b, 0), if |b| > 4 then b[4] else past)] else [])
        + ByteValues(b[StepOf(b)..], past)
  }

  /** The values of well-formed fields. */
  function OnlyBytes(fs: seq<Field>): seq<Field>
    requires Short(fs)
  {
    if fs == [] then []
    else (if OneByte(fs[0]) then [ByteField(Key(fs[0]), Data(fs[0])[0])] else []) + OnlyBytes(fs[1..])
  }

  lemma ByteValuesFront(x: Field, rest: seq<byte>, past: byte)
    requires IsField(x) && x[3] != 0xff
    ensures ByteValues(x + rest, past)
         == (if OneByte(x) then [ByteField(Key(x), Data(x)[0])] else []) + ByteValues(rest, past)
  {
    var b := x + rest;
    assert b[0] == x[0] && b[1] == x[1] && b[2] == x[2] && b[3] == x[3] && StepOf(b) == |x|;
    assert b[|x|..] == rest;
    if OneByte(x) { assert b[4] == x[4] && |x| == 8; }
  }

  lemma {:induction false} ByteValuesOfFields(fs: seq<Field>, past: byte)
    requires Short(fs)
    ensures ByteValues(Flat(fs), past) == OnlyBytes(fs)
  {
    if fs != [] {
      ByteValuesOfFields(fs[1..], past);
      ByteValuesFront(fs[0], Flat(fs[1..]), past);
    }
  }

  lemma {:induction false} OnlyBytesAreFields(fs: seq<Field>)
    requires Short(fs)
    ensures AllFields(OnlyBytes(fs)) && AllFields(fs)
  {
    if fs != [] {
      OnlyBytesAreFields(fs[1..]);
      ByteFieldReads(Key(fs[0]), if OneByte(fs[0]) then Data(fs[0])[0] else 0);
    }
  }

  /** The byte one field holds under a key. */
  function ByteOf(x: Field, key: nat): Option<byte>
    requires IsField(x)
  {
    if Key(x) == key && x[2] == T_BYTE && LengthOf(x) == 1 then Some(Data(x)[0]) else None
  }

  lemma {:induction false} ByteUnderFront(x: Field, rest: seq<Field>, key: nat)
    requires IsField(x) && AllFields(rest)
    ensures AllFields([x] + rest)
    ensures ByteUnder([x] + rest, key) == if ByteUnder(rest, key).Some? then ByteUnder(rest, key) else ByteOf(x, key)
    decreases |rest|
  {
    var fs := [x] + rest;
    if rest == [] {
      assert fs[..0] == [];
    } else {
      var n := |rest| - 1;
      ByteUnderFront(x, rest[..n], key);
      assert fs[..|fs| - 1] == [x] + rest[..n] && fs[|fs| - 1] == rest[n];
    }
  }

  lemma OneBytePart(x: Field, rest: seq<Field>, key: nat)
    requires IsField(x) && x[3] != 0xff && OneByte(x) && AllFields(rest)
    ensures var y := ByteField(Key(x), Data(x)[0]);
      && AllFields([y] + rest)
      && ByteUnder([y] + rest, key) == if ByteUnder(rest, key).Some? then ByteUnder(rest, key) else ByteOf(x, key)
  {
    var y := ByteField(Key(x), Data(x)[0]);
    ByteFieldReads(Key(x), Data(x)[0]);
    ByteUnderFront(y, rest, key);
  }

  /** The values are copied as they are: under every key the same byte. */
  lemma {:induction false} OnlyBytesSame(fs: seq<Field>, key: nat)
    requires Short(fs) && AllFields(fs) && AllFields(OnlyBytes(fs))
    ensures ByteUnder(OnlyBytes(fs), key) == ByteUnder(fs, key)
  {
    if fs != [] {
      var x, rest := fs[0], fs[1..];
      OnlyBytesAreFields(rest);
      OnlyBytesSame(rest, key);
      ByteUnderFront(x, rest, key);
      assert fs == [x] + rest;
      if OneByte(x) {
        OneBytePart(x, OnlyBytes(rest), key);
      } else {
        assert OnlyBytes(fs) == OnlyBytes(rest);
      }
    }
  }

  /** The default made of a template's payload. */
  function DefaultOf(which: Which, layout: u32, pay: seq<byte>, past: byte): Option<seq<byte>>
    requires |pay| >= 16
  {
    match which
    case NoDefault => None
    case OfPart =>
      if !HoldsPart(pay, 16) then None
      else Some(DefaultPrefix(layout) + Enc16(1) + [T_BLOB, 0xff] + Enc32(PART_LEN) + Padded(pay[24..24 + PART_LEN]))
    case _ => Some(DefaultPrefix(layout) + Flat(ByteValues(pay[16..], past)))
  }

  function DefaultsOf(which: Which, id: seq<byte>): Rec -> bool {
    if which.OfEffect? then Default(id) else AnyDefault(id)
  }

  method GatherBytes(values: seq<byte>, past: byte) returns (pay: seq<byte>)
    ensures pay == Flat(ByteValues(values, past))
  {
    var rest := values;
    pay := [];
    ghost var done: seq<Field>, all := [], ByteValues(values, past);
    assert done + all == all;
    while More(rest)
      invariant pay == Flat(done) && done + ByteValues(rest, past) == all
      decreases |rest|
    {
      ghost var later := ByteValues(rest[StepOf(rest)..], past);
      if OneByte(rest) {
        var x := ByteField(Be16(rest, 0), if |rest| > 4 then rest[4] else past);
        FlatPush(done, x);
        assert done + ([x] + later) == done + [x] + later;
        pay, done := pay + x, done + [x];
      } else {
        assert [] + later == later;
      }
      rest := rest[StepOf(rest)..];
    }
    assert done + [] == done;
  }

  method MakeDefaultOf(which: Which, layout: u32, pay: seq<byte>, past: byte) returns (d: Option<seq<byte>>)
    requires |pay| >= 16
    ensures d == DefaultOf(which, layout, pay, past)
  {
    match which {
      case NoDefault => return None;
      case OfPart => return DefaultOf(OfPart, layout, pay, past);
      case OfEffect =>
      case OfProject =>
    }
    var values := GatherBytes(pay[16..], past);
    return Some(DefaultPrefix(layout) + values);
  }

  /** SET AS DEFAULT: the i-th template of the target becomes its stored default. */
  method SetDefault(store: Store, p: Pair, t: Target, which: Which, i: nat, past: byte, w: Write)
    returns (q: Pair, err: nat)
    requires store.Valid() && 1 <= |t.id| <= 63
    modifies store.buf, store.out
    ensures var rs := Records(p, store.crc);
      var k := Nth(rs, Of(t), i);
      if Current(p, store.crc).Damaged? then err == 2 && q == p
      else if k.None? then err == 1 && q == p
      else SetAs(p, q, t, which, rs[k.value], past, w, err, store.crc)
  {
    var n := store.Open(p);
    if n < 0 { return p, 2; }
    ghost var rs := Records(p, store.crc);
    var k := FindNth(store, n, rs, Of(t), i);
    if k.None? { return p, 1; }
    var r := store.RecordNumber(n, rs, k.value);
    var d := MakeDefaultOf(which, t.layout, Payload(r), past);
    if d.None? { return p, 1; }
    DropIsSized(DefaultsOf(which, t.id));
    q, err := Rewritten(store, p, n, DropOwned(DefaultsOf(which, t.id)),
                        [NewRecord(K_DEFAULT, t.id, d.value, store.crc)], w, rs);
  }

  /** Template r made the default: 1 when its target has none, or it holds no Part. */
  ghost predicate SetAs(was: Pair, p: Pair, t: Target, which: Which, r: Rec, past: byte, w: Write, err: nat, crc: Crc)
    requires IsTemplate(r, t) && |t.id| <= 63
  {
    var d := DefaultOf(which, t.layout, Payload(r), past);
    if d.None? then err == 1 && p == was
    else Wrote(was, p, 0, DropOwned(DefaultsOf(which, t.id)), [NewRecord(K_DEFAULT, t.id, d.value, crc)], w, err, crc)
  }

  /** For a template of well-formed values, whatever lies behind it, the default made
      of it holds under every key the byte the template holds. */
  lemma DefaultCopies(layout: u32, pay: seq<byte>, fs: seq<Field>, past: byte, key: nat)
    requires |pay| >= 16 && Short(fs) && pay[16..] == Flat(fs)
    ensures var d := DefaultOf(OfEffect, layout, pay, past).value;
      && AllFields(FieldsOf(d[8..])) && AllFields(fs)
      && ByteUnder(FieldsOf(d[8..]), key) == ByteUnder(fs, key)
  {
    var os := OnlyBytes(fs);
    ByteValuesOfFields(fs, past);
    OnlyBytesAreFields(fs);
    OnlyBytesSame(fs, key);
    FieldsReadBack(os, []);
    assert DefaultOf(OfEffect, layout, pay, past).value[8..] == Flat(os) + [];
    assert os + FieldsOf([]) == os;
  }

  lemma SetIsDefault(t: Target, which: Which, pay: seq<byte>, past: byte, crc: Crc)
    requires 1 <= |t.id| <= 63 && |pay| >= 16 && DefaultOf(which, t.layout, pay, past).Some?
    requires |DefaultOf(which, t.layout, pay, past).value| < BUF_LEN
    ensures var r := NewRecord(K_DEFAULT, t.id, DefaultOf(which, t.layout, pay, past).value, crc);
      IsRecord(r) && IsDefault(r, t.id) && Intact(r, crc) && Payload(r) == DefaultOf(which, t.layout, pay, past).value
  {
    var d := DefaultOf(which, t.layout, pay, past).value;
    NewRecordReads(K_DEFAULT, t.id, d, crc);
    assert d[..8] == DefaultPrefix(t.layout);
    assert d[0..2] == d[..8][0..2] == Enc16(0) && d[2..4] == d[..8][2..4] == Enc16(NO_MODE);
    Read16(d, 0, 0);
    Read16(d, 2, NO_MODE);
  }

  /** After SET AS DEFAULT the target has exactly the new default, made of the template,
      and every other record is as it was. */
  lemma DefaultSet(was: Pair, p: Pair, t: Target, which: Which, r: Rec, past: byte, w: Write, crc: Crc)
    requires 1 <= |t.id| <= 63 && IsTemplate(r, t) && SetAs(was, p, t, which, r, past, w, 0, crc)
    ensures var d := DefaultOf(which, t.layout, Payload(r), past);
      d.Some? && Replaced(was, p, DefaultsOf(which, t.id), [NewRecord(K_DEFAULT, t.id, d.value, crc)], crc)
  {
    var d := DefaultOf(which, t.layout, Payload(r), past).value;
    var added := [NewRecord(K_DEFAULT, t.id, d, crc)];
    AddedFits(was, p, 0, DropOwned(DefaultsOf(which, t.id)), added, w, 0, crc);
    assert HDR + |added[0]| <= BUF_LEN;
    SetIsDefault(t, which, Payload(r), past, crc);
    OthersKept(was, p, 0, DefaultsOf(which, t.id), added, w, crc);
  }
}
