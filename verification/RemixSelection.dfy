/** REMIX SWITCH's setting told by its bytes (brain.c, `remix_record`, `brain_remix_get`,
    `brain_remix_save`): what a card's records select, and what a save keeps. */
module RemixSelection {
  import opened Words
  import opened Bytes
  import opened RecordFile
  import opened Fields
  import opened CardStore
  import opened Settings
  import opened Remix
  import opened Sequences

  ghost function KeyIsOne(): Field -> bool {
    (x: Field) => |x| >= 2 && Be16(x, 0) == 1
  }

  ghost function KeyIsOther(): Field -> bool {
    (x: Field) => |x| >= 2 && Be16(x, 0) != 1
  }

  ghost function IsOwn(): Rec -> bool {
    (r: Rec) =>
      && IsRecord(r) && Kind(r) == 1
      && Id(r) == [111, 99, 116, 97, 98, 97, 109, 46, 114, 101, 109, 105, 120, 45, 115, 119, 105, 116, 99, 104]
  }

  lemma {:induction false} KeyedIsFilter(fs: seq<Field>)
    requires AllStrict(fs)
    ensures Keyed(fs, true) == Filter(fs, KeyIsOne()) && Keyed(fs, false) == Filter(fs, KeyIsOther())
  {
    if fs != [] {
      var x, rest := fs[0], fs[1..];
      KeyedIsFilter(rest);
      FilterJoin([x], rest, KeyIsOne());
      FilterJoin([x], rest, KeyIsOther());
      FilterOne(x, KeyIsOne());
      FilterOne(x, KeyIsOther());
      assert fs == [x] + rest;
    }
  }

  lemma {:induction false} OwnIsFilter(rs: seq<Rec>)
    ensures Sorted(rs, true) == Filter(rs, IsOwn())
  {
    if rs != [] { OwnIsFilter(rs[..|rs| - 1]); }
  }

  /** A C string is what stands before the first zero, or all of it. */
  lemma {:induction false} CStringStops(b: seq<byte>)
    ensures var n := |CString(b)|; n <= |b| && CString(b) == b[..n] && (n < |b| ==> b[n] == 0)
  {
    if b != [] && b[0] != 0 { CStringStops(b[1..]); }
  }

  /** x is the only field of key 1, a Blob of 24 bytes, and holds this name, an allowed
      one. */
  ghost predicate HoldsName(fs: seq<Field>, x: Field, s: Text) {
    Filter(fs, KeyIsOne()) == [x] && |x| == 28 && x[2] == 4 && x[3] == 24 && CString(x[4..]) == s && NameOk(s)
  }

  /** The payload is strict fields to its end, one of which so holds the name. */
  ghost predicate Names(pay: seq<byte>, s: Text) {
    exists fs, x :: AllStrict(fs) && pay == Flat(fs) && HoldsName(fs, x, s)
  }

  lemma NameIsHeld(pay: seq<byte>)
    requires NameIn(pay) != []
    ensures Names(pay, NameIn(pay))
  {
    StrictAreFields(pay);
    var fs := StrictFields(pay).value;
    KeyedIsFilter(fs);
    var x := Keyed(fs, true)[0];
    assert IsField(x) && x[4..4 + RMX_NLEN] == x[4..];
    assert AllStrict(fs) && pay == Flat(fs) && HoldsName(fs, x, NameIn(pay));
  }

  lemma HeldIsName(fs: seq<Field>, x: Field, s: Text)
    requires AllStrict(fs) && HoldsName(fs, x, s)
    ensures NameIn(Flat(fs)) == s
  {
    StrictReadBack(fs);
    KeyedIsFilter(fs);
    assert x[4..4 + RMX_NLEN] == x[4..];
  }

  /** A payload selects a name exactly when it so holds it. */
  lemma NameInIs(pay: seq<byte>, s: Text)
    requires s != []
    ensures NameIn(pay) == s <==> Names(pay, s)
  {
    if NameIn(pay) == s { NameIsHeld(pay); }
    if Names(pay, s) {
      var fs, x :| AllStrict(fs) && pay == Flat(fs) && HoldsName(fs, x, s);
      HeldIsName(fs, x, s);
    }
  }

  /** A card selects what its only record of the setting holds, if that is of schema 1 and
      intact, and else nothing. */
  lemma SelectionIs(rs: seq<Rec>, crc: Crc)
    ensures var own := Filter(rs, IsOwn());
      Selection(rs, crc)
      == if |own| == 1 && IsRecord(own[0]) && Schema(own[0]) == 1 && Intact(own[0], crc) then NameIn(Payload(own[0]))
         else []
  {
    OwnIsFilter(rs);
  }

  /** After a save that succeeds the setting's record holds, behind the name, every field
      of another key of the record replaced, in order. */
  lemma OtherKeysStay(was: Pair, p: Pair, name: Text, w: Write, crc: Crc)
    requires Saved(was, p, name, w, 0, crc)
    ensures var own, now := Filter(Records(was, crc), IsOwn()), Filter(Records(p, crc), IsOwn());
      && |own| <= 1 && |now| == 1 && IsRecord(now[0]) && StrictFields(Payload(now[0])).Some?
      && (own == [] ==> Filter(StrictFields(Payload(now[0])).value, KeyIsOther()) == [])
      && (own != [] ==>
            && IsRecord(own[0]) && StrictFields(Payload(own[0])).Some?
            && Filter(StrictFields(Payload(now[0])).value, KeyIsOther())
               == Filter(StrictFields(Payload(own[0])).value, KeyIsOther()))
  {
    var rs := Records(was, crc);
    OwnIsFilter(rs);
    OwnIsFilter(Records(p, crc));
    OwnAreRecords(rs);
    SaveThenGet(was, p, name, w, crc);
    var own, now := Sorted(rs, true), Sorted(Records(p, crc), true);
    StrictAreFields(Payload(now[0]));
    KeyedIsFilter(StrictFields(Payload(now[0])).value);
    if own != [] {
      StrictAreFields(Payload(own[0]));
      KeyedIsFilter(StrictFields(Payload(own[0])).value);
    }
  }
}
