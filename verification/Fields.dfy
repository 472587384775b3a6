/** The keyed values in a record's payload (brain.c, the loops of `apply_settings`
    and `write_set_file`, and `remix_tlv`). */
module Fields {
  import opened Words
  import opened Bytes
  import opened RecordFile

  const T_BLOB := 4
  const T_BYTE := 5

  /** A key, a type, a length (255 when a longer one follows) and padded data. */
  type Field = seq<byte>

  function HeadOf(x: seq<byte>): nat
    requires |x| >= 4
  {
    if x[3] == 255 then 8 else 4
  }

  function LengthOf(x: seq<byte>): nat
    requires |x| >= 4 && |x| >= HeadOf(x)
  {
    if x[3] == 255 then Be32(x, 4) else x[3]
  }

  predicate IsField(x: Field) {
    |x| >= 4 && |x| >= HeadOf(x) && |x| == HeadOf(x) + Align4(LengthOf(x))
  }

  ghost predicate AllFields(fs: seq<Field>) {
    forall i | 0 <= i < |fs| :: IsField(fs[i])
  }

  function Key(x: Field): nat
    requires IsField(x)
  {
    Be16(x, 0)
  }

  function Data(x: Field): seq<byte>
    requires IsField(x)
  {
    x[HeadOf(x)..HeadOf(x) + LengthOf(x)]
  }

  /** The size of the first field of a payload; 0 when none fits. */
  function NextSize(pay: seq<byte>): (size: nat)
    ensures size != 0 ==> 4 <= size <= |pay|
  {
    if |pay| < 4 || |pay| < HeadOf(pay) then 0
    else
      var size := HeadOf(pay) + Align4(LengthOf(pay));
      if size > |pay| then 0 else size
  }

  /** The fields up to the first that does not fit. */
  function FieldsOf(pay: seq<byte>): seq<Field>
    decreases |pay|
  {
    var size := NextSize(pay);
    if size == 0 then [] else [pay[..size]] + FieldsOf(pay[size..])
  }

  lemma FieldInFront(x: Field, rest: seq<byte>)
    requires IsField(x)
    ensures NextSize(x + rest) == |x| && (x + rest)[..|x|] == x && (x + rest)[|x|..] == rest
  {
    var y := x + rest;
    assert y[3] == x[3];
    if x[3] == 255 { assert y[4] == x[4] && y[5] == x[5] && y[6] == x[6] && y[7] == x[7]; }
  }

  /** Fields laid out read back, whatever follows. */
  lemma FieldsReadBack(fs: seq<Field>, rest: seq<byte>)
    requires AllFields(fs)
    ensures FieldsOf(Flat(fs) + rest) == fs + FieldsOf(rest)
  {
    var read := (pay: seq<byte>) => FieldsOf(pay);
    forall x, tail | IsField(x) ensures read(x + tail) == [x] + read(tail) { FieldsLonger(x, tail); }
    ReadBack(read, fs, rest, Flat(fs) + rest);
  }

  /** `read` takes fields from the front. */
  ghost predicate PerField(read: seq<byte> -> seq<Field>) {
    forall x, tail | IsField(x) :: read(x + tail) == [x] + read(tail)
  }

  lemma {:induction false} ReadBack(read: seq<byte> -> seq<Field>, fs: seq<Field>, rest: seq<byte>, whole: seq<byte>)
    requires PerField(read) && AllFields(fs) && whole == Flat(fs) + rest
    ensures read(whole) == fs + read(rest)
  {
    if fs == [] {
      assert whole == rest;
    } else {
      var tail := Flat(fs[1..]) + rest;
      ReadBack(read, fs[1..], rest, tail);
      assert whole == fs[0] + tail;
      assert fs + read(rest) == [fs[0]] + (fs[1..] + read(rest));
    }
  }

  lemma FieldsLonger(x: Field, rest: seq<byte>)
    requires IsField(x)
    ensures FieldsOf(x + rest) == [x] + FieldsOf(rest)
  {
    FieldInFront(x, rest);
  }

  lemma FirstIsField(pay: seq<byte>)
    requires NextSize(pay) != 0
    ensures IsField(pay[..NextSize(pay)])
  {
    var x := pay[..NextSize(pay)];
    assert x[3] == pay[3];
    if pay[3] == 255 { assert x[4] == pay[4] && x[5] == pay[5] && x[6] == pay[6] && x[7] == pay[7]; }
  }

  lemma {:induction false} FieldsAreFields(pay: seq<byte>)
    ensures AllFields(FieldsOf(pay))
    decreases |pay|
  {
    if NextSize(pay) != 0 {
      FirstIsField(pay);
      FieldsAreFields(pay[NextSize(pay)..]);
    }
  }

  /** How `read` goes on from `at`: to the end, or past one field. */
  ghost predicate ReadsAt(read: seq<byte> -> seq<Field>, pay: seq<byte>, at: nat)
    requires at <= |pay|
  {
    var size := NextSize(pay[at..]);
    if size == 0 then read(pay[at..]) == []
    else
      && at + size <= |pay| && IsField(pay[at..at + size])
      && read(pay[at..]) == [pay[at..at + size]] + read(pay[at + size..])
  }

  /** It does so everywhere in the payload. The loops take `read` as a parameter, known
      only by this, and are then used with `FieldsOf`: their proofs need how reading
      goes on, not how `FieldsOf` is made. */
  ghost predicate ReadsThrough(read: seq<byte> -> seq<Field>, pay: seq<byte>) {
    AllFields(read(pay)) && forall at: nat | at <= |pay| :: ReadsAt(read, pay, at)
  }

  /** The field at `at`, or none when the rest holds no whole field. */
  method NextRead(pay: seq<byte>, at: nat, ghost read: seq<byte> -> seq<Field>) returns (x: Field)
    requires ReadsThrough(read, pay) && at <= |pay|
    ensures x == [] ==> read(pay[at..]) == []
    ensures x != [] ==> at + |x| <= |pay| && IsField(x) && read(pay[at..]) == [x] + read(pay[at + |x|..])
  {
    assert ReadsAt(read, pay, at);
    var size := NextSize(pay[at..]);
    return if size == 0 then [] else pay[at..at + size];
  }

  lemma FieldsOfReads(pay: seq<byte>, at: nat)
    requires at <= |pay|
    ensures ReadsAt(b => FieldsOf(b), pay, at)
  {
    var size := NextSize(pay[at..]);
    if size != 0 {
      FirstIsField(pay[at..]);
      assert pay[at..][..size] == pay[at..at + size] && pay[at..][size..] == pay[at + size..];
    }
  }

  /** A payload read to its end, or none when some field does not fit or a long one
      is not a Blob: how strictly REMIX SWITCH reads its own record. */
  function StrictFields(pay: seq<byte>): Option<seq<Field>>
    decreases |pay|
  {
    if pay == [] then Some([])
    else if NextSize(pay) == 0 || (pay[3] == 255 && pay[2] != T_BLOB) then None
    else
      match StrictFields(pay[NextSize(pay)..])
      case Some(fs) => Some([pay[..NextSize(pay)]] + fs)
      case None => None
  }

  predicate StrictField(x: Field) {
    IsField(x) && (x[3] == 255 ==> x[2] == T_BLOB)
  }

  lemma {:induction false} StrictReadBack(fs: seq<Field>)
    requires forall i | 0 <= i < |fs| :: StrictField(fs[i])
    ensures StrictFields(Flat(fs)) == Some(fs)
  {
    if fs != [] {
      assert Flat(fs) == fs[0] + Flat(fs[1..]);
      FieldInFront(fs[0], Flat(fs[1..]));
      StrictReadBack(fs[1..]);
      assert fs == [fs[0]] + fs[1..];
    }
  }

  lemma {:induction false} StrictAreFields(pay: seq<byte>)
    requires StrictFields(pay).Some?
    ensures var fs := StrictFields(pay).value;
      Flat(fs) == pay && forall i | 0 <= i < |fs| :: StrictField(fs[i])
    decreases |pay|
  {
    if pay != [] {
      var size := NextSize(pay);
      FirstIsField(pay);
      StrictAreFields(pay[size..]);
      var fs := StrictFields(pay[size..]).value;
      assert ([pay[..size]] + fs)[1..] == fs;
      assert pay == pay[..size] + pay[size..];
    }
  }
}
