/** REMIX SWITCH's setting (brain.c, `remix_name_ok`, `remix_record`, `remix_tlv`,
    `brain_remix_get`, `brain_remix_save`): one file name kept as a Blob in a record
    of its own. */
module Remix {
  import opened Words
  import opened Bytes
  import opened RecordFile
  import opened Fields
  import opened CardStore
  import opened Settings

  /** "octabam.remix-switch" */
  const RMX_STORE: seq<byte> :=
    [111, 99, 116, 97, 98, 97, 109, 46, 114, 101, 109, 105, 120, 45, 115, 119, 105, 116, 99, 104]
  const RMX_NLEN := 24
  const PREFIX := REC_HDR + 20

  // ---- names ------------------------------------------------------------------------

  /** A C string's characters: no zero among them. */
  type Text = s: seq<byte> | forall i | 0 <= i < |s| :: s[i] != 0

  predicate Allowed(c: byte) {
    97 <= c <= 122 || 65 <= c <= 90 || 48 <= c <= 57 || c == 32 || c == 46 || c == 95 || c == 45
  }

  /** A letter in either case; `upper` is its capital. */
  predicate Letter(c: byte, upper: byte) {
    c == upper || c == upper + 32
  }

  /** Empty, or a bounded file name ending in .rmx and not starting with a dot. */
  predicate NameOk(s: Text) {
    || s == []
    || (&& 5 <= |s| < RMX_NLEN && (forall i | 0 <= i < |s| :: Allowed(s[i])) && s[0] != 46 && s[|s| - 4] == 46
        && Letter(s[|s| - 3], 82) && Letter(s[|s| - 2], 77) && Letter(s[|s| - 1], 88))
  }

  method CheckName(s: Text) returns (ok: bool)
    ensures ok <==> NameOk(s)
  {
    var n := 0;
    while n < RMX_NLEN && n < |s|
      invariant 0 <= n <= |s| && n <= RMX_NLEN && forall i | 0 <= i < n :: Allowed(s[i])
    {
      if !Allowed(s[n]) { return false; }
      n := n + 1;
    }
    return n == 0
      || (n >= 5 && n < RMX_NLEN && s[0] != 46 && s[n - 4] == 46
          && Letter(s[n - 3], 82) && Letter(s[n - 2], 77) && Letter(s[n - 1], 88));
  }

  /** The characters before the first zero. */
  function CString(b: seq<byte>): (s: Text)
    ensures |s| <= |b| && s == b[..|s|]
  {
    if b == [] || b[0] == 0 then [] else [b[0]] + CString(b[1..])
  }

  function NameField(s: Text): (x: Field)
    ensures |x| == 4 + RMX_NLEN
  {
    Enc16(1) + [T_BLOB, RMX_NLEN] + if |s| < RMX_NLEN then s + Zeros(RMX_NLEN - |s|) else Zeros(RMX_NLEN)
  }

  lemma {:induction false} CStringOf(s: Text, n: nat)
    ensures CString(s + Zeros(n)) == s
  {
    if s == [] {
      assert s + Zeros(n) == Zeros(n);
    } else {
      assert (s + Zeros(n))[1..] == s[1..] + Zeros(n);
      CStringOf(s[1..], n);
    }
  }

  lemma NameFieldReads(s: Text)
    requires |s| < RMX_NLEN
    ensures var x := NameField(s);
      StrictField(x) && Key(x) == 1 && x[2] == T_BLOB && x[3] == RMX_NLEN && CString(x[4..]) == s
  {
    var x := NameField(s);
    assert x[0..2] == Enc16(1);
    Read16(x, 0, 1);
    assert x[4..] == s + Zeros(RMX_NLEN - |s|);
    CStringOf(s, RMX_NLEN - |s|);
  }

  // ---- a payload ----------------------------------------------------------------------

  ghost predicate AllStrict(fs: seq<Field>) {
    forall i | 0 <= i < |fs| :: StrictField(fs[i])
  }

  /** The fields of key 1 (`own`), or those of every other key. */
  function Keyed(fs: seq<Field>, own: bool): (us: seq<Field>)
    requires AllStrict(fs)
    ensures AllStrict(us)
  {
    if fs == [] then []
    else
      var rest := Keyed(fs[1..], own);
      if (Key(fs[0]) == 1) == own then [fs[0]] + rest else rest
  }

  /** The field is a name's: a Blob of the right length. */
  predicate NameForm(x: Field)
    requires StrictField(x)
  {
    x[2] == T_BLOB && x[3] == RMX_NLEN
  }

  /** The name some fields hold: nothing unless they are well formed and have exactly
      one name, of the right form. */
  function NameOf(fs: Option<seq<Field>>): Text
    requires fs.Some? ==> AllStrict(fs.value)
  {
    if fs.None? then []
    else
      var own := Keyed(fs.value, true);
      if |own| != 1 || !NameForm(own[0]) then [] else Checked(CString(own[0][4..4 + RMX_NLEN]))
  }

  function Checked(s: Text): Text {
    if NameOk(s) then s else []
  }

  function NameIn(pay: seq<byte>): Text {
    var fs := StrictFields(pay);
    if fs.Some? then StrictAreFields(pay); NameOf(fs) else []
  }

  /** The other keys of a well-formed payload. */
  function OtherKeys(pay: seq<byte>): (us: seq<Field>)
    requires StrictFields(pay).Some?
    ensures AllStrict(us)
  {
    StrictAreFields(pay);
    Keyed(StrictFields(pay).value, false)
  }

  function PayloadOf(s: Text, others: seq<Field>): seq<byte> {
    NameField(s) + Flat(others)
  }

  lemma {:induction false} KeyedOthers(fs: seq<Field>)
    requires AllStrict(fs)
    ensures Keyed(Keyed(fs, false), false) == Keyed(fs, false) && Keyed(Keyed(fs, false), true) == []
  {
    if fs != [] {
      KeyedOthers(fs[1..]);
      var rest := Keyed(fs[1..], false);
      if Key(fs[0]) != 1 { assert ([fs[0]] + rest)[1..] == rest; }
    }
  }

  /** The fields of a saved payload. */
  lemma SavedFields(s: Text, others: seq<Field>)
    requires |s| < RMX_NLEN && AllStrict(others)
    ensures StrictFields(PayloadOf(s, others)) == Some([NameField(s)] + others)
  {
    var fs := [NameField(s)] + others;
    NameFieldReads(s);
    StrictReadBack(fs);
    assert fs[1..] == others;
    assert Flat(fs) == PayloadOf(s, others);
  }

  lemma KeyedFront(x: Field, rest: seq<Field>, own: bool)
    requires StrictField(x) && AllStrict(rest)
    ensures AllStrict([x] + rest)
    ensures Keyed([x] + rest, own) == (if (Key(x) == 1) == own then [x] else []) + Keyed(rest, own)
  {
    assert ([x] + rest)[1..] == rest;
  }

  /** A saved payload gives the name back and keeps the other keys. */
  lemma PayloadReads(s: Text, before: seq<Field>)
    requires NameOk(s) && AllStrict(before)
    ensures var pay := PayloadOf(s, Keyed(before, false));
      StrictFields(pay).Some? && NameIn(pay) == s && OtherKeys(pay) == Keyed(before, false)
  {
    var x, others := NameField(s), Keyed(before, false);
    NameFieldReads(s);
    SavedFields(s, others);
    KeyedOthers(before);
    KeyedFront(x, others, true);
    KeyedFront(x, others, false);
    assert x[4..4 + RMX_NLEN] == x[4..];
  }

  // ---- the records ------------------------------------------------------------------------

  predicate Mine(r: Rec) {
    StoreId(r) == Some(RMX_STORE)
  }

  /** The module's own records, or all the others. */
  function Sorted(rs: seq<Rec>, mine: bool): seq<Rec> {
    if rs == [] then []
    else Sorted(rs[..|rs| - 1], mine) + if Mine(rs[|rs| - 1]) == mine then [rs[|rs| - 1]] else []
  }

  /** Its only record, in a schema it knows, with an intact payload. */
  predicate Sound(r: Rec, crc: Crc) {
    IsRecord(r) && Schema(r) == 1 && Intact(r, crc)
  }

  predicate Bad(rs: seq<Rec>, crc: Crc) {
    var own := Sorted(rs, true);
    |own| > 1 || (|own| == 1 && !Sound(own[0], crc))
  }

  /** The selection a card's records hold. */
  function Selection(rs: seq<Rec>, crc: Crc): Text {
    var own := Sorted(rs, true);
    if Bad(rs, crc) || |own| == 0 then [] else NameIn(Payload(own[0]))
  }

  /** What looking through the first records found: the last of the module's own,
      and whether any of them is bad. */
  datatype Found = Found(at: Option<nat>, bad: bool)

  ghost predicate FoundIn(f: Found, rs: seq<Rec>, crc: Crc) {
    var own := Sorted(rs, true);
    && (f.at.None? <==> own == [])
    && (f.at.Some? ==> f.at.value < |rs| && rs[f.at.value] == own[|own| - 1])
    && (|own| == 1 ==> forall j | 0 <= j < |rs| && Mine(rs[j]) :: f.at == Some(j))
    && (f.bad <==> Bad(rs, crc))
  }

  lemma SortedPush(rs: seq<Rec>, k: nat, mine: bool)
    requires k < |rs|
    ensures Sorted(rs[..k + 1], mine) == Sorted(rs[..k], mine) + if Mine(rs[k]) == mine then [rs[k]] else []
  {
    assert rs[..k + 1][..k] == rs[..k];
  }

  lemma {:induction false} SortedAreMine(rs: seq<Rec>)
    ensures Sorted(rs, true) == [] ==> forall j | 0 <= j < |rs| :: !Mine(rs[j])
    ensures forall i | 0 <= i < |Sorted(rs, true)| :: Mine(Sorted(rs, true)[i])
  {
    if rs != [] { SortedAreMine(rs[..|rs| - 1]); }
  }

  /** One more record looked at. */
  function Looked(f: Found, k: nat, p: Rec, crc: Crc): Found {
    if !Mine(p) then f else Found(Some(k), f.bad || f.at.Some? || !Sound(p, crc))
  }

  lemma LookedStep(f: Found, rs: seq<Rec>, k: nat, crc: Crc)
    requires k < |rs| && FoundIn(f, rs[..k], crc)
    ensures FoundIn(Looked(f, k, rs[k], crc), rs[..k + 1], crc)
  {
    SortedPush(rs, k, true);
    SortedAreMine(rs[..k]);
    var own := Sorted(rs[..k], true);
    if Mine(rs[k]) {
      forall j | 0 <= j < k && own == [] ensures !Mine(rs[j]) { assert !Mine(rs[..k][j]); }
    } else {
      assert Sorted(rs[..k + 1], true) == own;
      forall j | 0 <= j < k && |own| == 1 && Mine(rs[j]) ensures f.at == Some(j) { assert rs[..k][j] == rs[j]; }
    }
  }

  method FindOwn(store: Store, n: nat, ghost rs: seq<Rec>) returns (f: Found)
    requires store.Valid() && store.Opened(n, rs) && AllRecords(rs)
    ensures FoundIn(f, rs, store.crc)
  {
    f := Found(None, false);
    if n == 0 { return; }
    var count, at, r := Be16(store.buf[..n], 10), HDR, 0;
    while r < count
      invariant 0 <= r <= count && at == HDR + |Flat(rs[..r])| && FoundIn(f, rs[..r], store.crc)
    {
      var p := store.Record(at, n, rs, r);
      LookedStep(f, rs, r, store.crc);
      f := Looked(f, r, p, store.crc);
      at, r := at + |p|, r + 1;
    }
    assert rs[..r] == rs;
  }

  /** With a sole record of its own, dropping it leaves exactly the others. */
  lemma {:induction false} OthersSurvive(rs: seq<Rec>, at: Option<nat>)
    requires forall j | 0 <= j < |rs| :: Mine(rs[j]) <==> at == Some(j)
    ensures Survivors(rs, DropAt(at)) == Sorted(rs, false)
  {
    if rs != [] {
      var init := rs[..|rs| - 1];
      assert forall j | 0 <= j < |init| :: init[j] == rs[j];
      if at == Some(|rs| - 1) { OthersSurviveNone(init, at); } else { OthersSurvive(init, at); }
    }
  }

  lemma {:induction false} OthersSurviveNone(rs: seq<Rec>, at: Option<nat>)
    requires forall j | 0 <= j < |rs| :: !Mine(rs[j]) && at != Some(j)
    ensures Survivors(rs, DropAt(at)) == Sorted(rs, false)
  {
    if rs != [] {
      var init := rs[..|rs| - 1];
      assert forall j | 0 <= j < |init| :: init[j] == rs[j];
      OthersSurviveNone(init, at);
    }
  }

  // ---- reading a payload strictly -----------------------------------------------------

  /** How `read` goes on strictly from `at`: to the end, past a field, or nowhere. */
  ghost predicate StrictAt(read: seq<byte> -> Option<seq<Field>>, pay: seq<byte>, at: nat)
    requires at <= |pay|
  {
    var size := StrictSize(pay[at..]);
    if at == |pay| then read(pay[at..]) == Some([])
    else if size == 0 then read(pay[at..]) == None
    else
      && at + size <= |pay| && StrictField(pay[at..at + size])
      && read(pay[at..]) == Prefixed(pay[at..at + size], read(pay[at + size..]))
  }

  function Prefixed(x: Field, rest: Option<seq<Field>>): Option<seq<Field>> {
    if rest.None? then None else Some([x] + rest.value)
  }

  /** The size of a payload's first field, 0 when it is malformed. */
  function StrictSize(pay: seq<byte>): (size: nat)
    ensures size != 0 ==> 4 <= size <= |pay|
  {
    if NextSize(pay) == 0 || (pay[3] == 255 && pay[2] != T_BLOB) then 0 else NextSize(pay)
  }

  /** `read` goes on strictly from everywhere in the payload: all that the loops below
      know of it, which are used with `StrictFields`. */
  ghost predicate StrictThrough(read: seq<byte> -> Option<seq<Field>>, pay: seq<byte>) {
    (read(pay).Some? ==> AllStrict(read(pay).value)) && forall at: nat | at <= |pay| :: StrictAt(read, pay, at)
  }

  /** The field at `at`, or none when it is malformed. */
  method NextStrict(pay: seq<byte>, at: nat, ghost read: seq<byte> -> Option<seq<Field>>) returns (x: Field)
    requires StrictThrough(read, pay) && at < |pay|
    ensures x == [] ==> read(pay[at..]) == None
    ensures x != [] ==> at + |x| <= |pay| && StrictField(x) && read(pay[at..]) == Prefixed(x, read(pay[at + |x|..]))
  {
    assert StrictAt(read, pay, at);
    var size := StrictSize(pay[at..]);
    return if size == 0 then [] else pay[at..at + size];
  }

  lemma StrictEnd(pay: seq<byte>, read: seq<byte> -> Option<seq<Field>>)
    requires StrictThrough(read, pay)
    ensures read(pay[|pay|..]) == Some([]) && pay[0..] == pay
  {
    assert StrictAt(read, pay, |pay|);
  }

  lemma StrictReads(pay: seq<byte>, at: nat)
    requires at <= |pay|
    ensures StrictAt(b => StrictFields(b), pay, at)
  {
    var size := StrictSize(pay[at..]);
    if size != 0 {
      FirstIsField(pay[at..]);
      assert pay[at..][..size] == pay[at..at + size] && pay[at..][size..] == pay[at + size..];
    }
  }

  lemma {:induction false} KeyedJoin(a: seq<Field>, b: seq<Field>, own: bool)
    requires AllStrict(a) && AllStrict(b)
    ensures AllStrict(a + b) && Keyed(a + b, own) == Keyed(a, own) + Keyed(b, own)
  {
    if a == [] {
      assert a + b == b;
    } else {
      assert (a + b)[1..] == a[1..] + b;
      KeyedJoin(a[1..], b, own);
    }
  }

  /** The fields read so far and those to come are all the fields, if any. */
  ghost predicate Reading(all: Option<seq<Field>>, done: seq<Field>, rest: Option<seq<Field>>) {
    && AllStrict(done) && (rest.Some? ==> AllStrict(rest.value))
    && all == if rest.None? then None else Some(done + rest.value)
  }

  lemma ReadingStarts(all: Option<seq<Field>>)
    requires all.Some? ==> AllStrict(all.value)
    ensures Reading(all, [], all)
  {
    if all.Some? { assert [] + all.value == all.value; }
  }

  lemma ReadingStep(all: Option<seq<Field>>, done: seq<Field>, x: Field, rest: Option<seq<Field>>)
    requires StrictField(x) && Reading(all, done, Prefixed(x, rest))
    ensures Reading(all, done + [x], rest)
  {
    if rest.Some? {
      var longer := [x] + rest.value;
      assert forall i | 0 <= i < |rest.value| :: rest.value[i] == longer[i + 1];
      assert done + longer == done + [x] + rest.value;
    }
  }

  lemma KeyedPush(done: seq<Field>, x: Field, own: bool)
    requires AllStrict(done) && StrictField(x)
    ensures AllStrict(done + [x])
    ensures Keyed(done + [x], own) == Keyed(done, own) + if (Key(x) == 1) == own then [x] else []
  {
    KeyedJoin(done, [x], own);
  }

  /** A second name, or one of the wrong form, leaves none. */
  lemma BadName(all: Option<seq<Field>>, done: seq<Field>, x: Field, rest: Option<seq<Field>>)
    requires StrictField(x) && Reading(all, done + [x], rest) && AllStrict(done) && Key(x) == 1
    requires Keyed(done, true) != [] || !NameForm(x)
    ensures (all.Some? ==> AllStrict(all.value)) && NameOf(all) == []
  {
    if rest.Some? {
      KeyedJoin(done, [x], true);
      KeyedJoin(done + [x], rest.value, true);
    }
  }

  /** The name in the module's payload. */
  method ScanName(pay: seq<byte>, ghost read: seq<byte> -> Option<seq<Field>>) returns (name: Text)
    requires StrictThrough(read, pay)
    ensures name == NameOf(read(pay))
  {
    var at, seen, chars := 0, false, [];
    ghost var done: seq<Field>, rest, all := [], read(pay), read(pay);
    ReadingStarts(all);
    StrictEnd(pay, read);
    while at < |pay|
      invariant 0 <= at <= |pay| && rest == read(pay[at..]) && Reading(all, done, rest)
      invariant seen <==> |Keyed(done, true)| == 1
      invariant |Keyed(done, true)| <= 1
      invariant seen ==> NameForm(Keyed(done, true)[0]) && chars == Keyed(done, true)[0][4..4 + RMX_NLEN]
    {
      var x := NextStrict(pay, at, read);
      if x == [] { return []; }
      rest := read(pay[at + |x|..]);
      ReadingStep(all, done, x, rest);
      KeyedPush(done, x, true);
      if Key(x) == 1 {
        if seen || !NameForm(x) {
          BadName(all, done, x, rest);
          return [];
        }
        seen, chars := true, x[4..4 + RMX_NLEN];
      }
      done, at := done + [x], at + |x|;
    }
    assert done + [] == done;
    if !seen { return []; }
    var ok := CheckName(CString(chars));
    return if ok then CString(chars) else [];
  }

  datatype Scan = Fits(pay: seq<byte>) | Malformed | TooLarge

  /** The other keys of the old payload behind the new name, while they fit. */
  method ScanOthers(pay: seq<byte>, name: seq<byte>, room: nat, ghost read: seq<byte> -> Option<seq<Field>>)
    returns (s: Scan)
    requires StrictThrough(read, pay)
    requires |name| <= room
    ensures match s
      case Fits(out) => read(pay).Some? && out == name + Flat(Keyed(read(pay).value, false)) && |out| <= room
      case Malformed => read(pay).None?
      case TooLarge => read(pay).Some? ==> |name + Flat(Keyed(read(pay).value, false))| > room
  {
    var at, out := 0, name;
    ghost var done: seq<Field>, rest, all := [], read(pay), read(pay);
    ReadingStarts(all);
    StrictEnd(pay, read);
    while at < |pay|
      invariant 0 <= at <= |pay| && rest == read(pay[at..]) && Reading(all, done, rest)
      invariant out == name + Flat(Keyed(done, false)) && |out| <= room
    {
      var x := NextStrict(pay, at, read);
      if x == [] { return Malformed; }
      rest := read(pay[at + |x|..]);
      ReadingStep(all, done, x, rest);
      var fits;
      fits, out := TakeOther(out, x, room, name, done);
      if !fits {
        NoRoom(all, done + [x], rest);
        return TooLarge;
      }
      done, at := done + [x], at + |x|;
    }
    assert done + [] == done;
    return Fits(out);
  }

  /** A field of another key is taken along, if it fits. */
  method TakeOther(out: seq<byte>, x: Field, room: nat, ghost name: seq<byte>, ghost done: seq<Field>)
    returns (fits: bool, longer: seq<byte>)
    requires StrictField(x) && AllStrict(done) && out == name + Flat(Keyed(done, false)) && |out| <= room
    ensures AllStrict(done + [x])
    ensures fits <==> |name + Flat(Keyed(done + [x], false))| <= room
    ensures fits ==> longer == name + Flat(Keyed(done + [x], false))
  {
    OthersPush(done, x);
    if Key(x) == 1 { return true, out; }
    if |x| > room - |out| { return false, out; }
    return true, out + x;
  }

  lemma OthersPush(done: seq<Field>, x: Field)
    requires AllStrict(done) && StrictField(x)
    ensures AllStrict(done + [x])
    ensures Flat(Keyed(done + [x], false)) == Flat(Keyed(done, false)) + if Key(x) != 1 then x else []
  {
    KeyedJoin(done, [x], false);
    KeyedOne(x);
    if Key(x) != 1 {
      FlatPush(Keyed(done, false), x);
    } else {
      assert Keyed(done, false) + [] == Keyed(done, false);
      assert Flat(Keyed(done, false)) + [] == Flat(Keyed(done, false));
    }
  }

  lemma KeyedOne(x: Field)
    requires StrictField(x)
    ensures Keyed([x], false) == if Key(x) != 1 then [x] else []
  {
  }

  lemma NoRoom(all: Option<seq<Field>>, done: seq<Field>, rest: Option<seq<Field>>)
    requires Reading(all, done, rest)
    ensures all.Some? ==> AllStrict(all.value) && |Flat(Keyed(all.value, false))| >= |Flat(Keyed(done, false))|
  {
    if rest.Some? {
      KeyedJoin(done, rest.value, false);
      FlatJoin(Keyed(done, false), Keyed(rest.value, false));
    }
  }

  // ---- the setting, read and saved -----------------------------------------------------

  /** The selection of a pair's content. */
  method Get(store: Store, p: Pair) returns (name: Text)
    requires store.Valid()
    modifies store.buf
    ensures name == Selection(Records(p, store.crc), store.crc)
  {
    var n := store.Open(p);
    if n <= 0 {
      NoRecords(p, store.crc);
      return [];
    }
    ghost var rs := Records(p, store.crc);
    var f := FindOwn(store, n, rs);
    if f.bad || f.at.None? { return []; }
    var r := store.RecordNumber(n, rs, f.at.value);
    name := NameOfPayload(Payload(r));
  }

  lemma NoRecords(p: Pair, crc: Crc)
    requires !Current(p, crc).Held? || Records(p, crc) == []
    ensures Selection(Records(p, crc), crc) == []
  {
  }

  method NameOfPayload(pay: seq<byte>) returns (name: Text)
    ensures name == NameIn(pay)
  {
    ghost var read := (b: seq<byte>) => StrictFields(b);
    forall at: nat | at <= |pay| ensures StrictAt(read, pay, at) { StrictReads(pay, at); }
    if read(pay).Some? { StrictAreFields(pay); }
    name := ScanName(pay, read);
  }

  /** What a save of `name` leaves of the old record: the name, then the other keys;
      none when that record is malformed. */
  function SavedPayload(name: Text, own: seq<Rec>): Option<seq<byte>>
    requires forall i | 0 <= i < |own| :: IsRecord(own[i])
  {
    if |own| != 1 then Some(NameField(name))
    else if StrictFields(Payload(own[0])).None? then None
    else Some(PayloadOf(name, OtherKeys(Payload(own[0]))))
  }

  /** A save's whole effect on the pair: `err` 2 for a bad name, a damaged pair, a bad
      or malformed record of its own (or 3, when room runs out first), and otherwise
      everything but that record, with a new one behind. */
  ghost predicate Saved(was: Pair, p: Pair, name: Text, w: Write, err: nat, crc: Crc) {
    var rs := Records(was, crc);
    OwnAreRecords(rs);
    var own := Sorted(rs, true);
    if !NameOk(name) || Current(was, crc).Damaged? || Bad(rs, crc) then err == 2 && p == was
    else SavedBehind(was, p, Sorted(rs, false), name, own, w, err, crc)
  }

  /** Records none of which is the module's. */
  ghost predicate AreOthers(os: seq<Rec>) {
    AllRecords(os) && Sorted(os, false) == os && Sorted(os, true) == []
  }

  lemma {:induction false} OthersAreOthers(rs: seq<Rec>)
    requires AllRecords(rs)
    ensures AreOthers(Sorted(rs, false))
  {
    if rs != [] {
      var init, r := rs[..|rs| - 1], rs[|rs| - 1];
      OthersAreOthers(init);
      if Mine(r) {
        assert Sorted(rs, false) == Sorted(init, false);
      } else {
        OneMoreOther(Sorted(init, false), r);
      }
    }
  }

  lemma OneMoreOther(os: seq<Rec>, r: Rec)
    requires AreOthers(os) && IsRecord(r) && !Mine(r)
    ensures AreOthers(os + [r])
  {
    SortedEnd(os, r, false);
    SortedEnd(os, r, true);
  }

  lemma SortedEnd(rs: seq<Rec>, r: Rec, mine: bool)
    ensures Sorted(rs + [r], mine) == Sorted(rs, mine) + if Mine(r) == mine then [r] else []
  {
    assert (rs + [r])[..|rs|] == rs;
  }

  /** A saved payload, whatever was there before. */
  lemma SavedPayloadReads(name: Text, own: seq<Rec>)
    requires NameOk(name) && AllRecords(own) && |own| <= 1 && SavedPayload(name, own).Some?
    ensures var pay := SavedPayload(name, own).value;
      && NameIn(pay) == name && StrictFields(pay).Some?
      && OtherKeys(pay) == if own == [] then [] else OtherKeys(Payload(own[0]))
  {
    if own == [] {
      PayloadReads(name, []);
      assert PayloadOf(name, Keyed([], false)) == NameField(name);
    } else {
      StrictAreFields(Payload(own[0]));
      PayloadReads(name, StrictFields(Payload(own[0])).value);
    }
  }

  lemma {:induction false} OwnAreRecords(rs: seq<Rec>)
    requires AllRecords(rs)
    ensures AllRecords(Sorted(rs, true))
  {
    if rs != [] { OwnAreRecords(rs[..|rs| - 1]); }
  }

  /** The records after a save: the others and the new one. */
  lemma SavedRecords(others: seq<Rec>, pay: seq<byte>, crc: Crc)
    requires AreOthers(others) && |pay| < BUF_LEN
    ensures var r := NewRecord(K_SETTINGS, RMX_STORE, pay, crc);
      && IsRecord(r) && Payload(r) == pay && Sound(r, crc) && AllRecords(others + [r])
      && Sorted(others + [r], false) == others && Sorted(others + [r], true) == [r]
  {
    var r := NewRecord(K_SETTINGS, RMX_STORE, pay, crc);
    NewRecordReads(K_SETTINGS, RMX_STORE, pay, crc);
    SortedEnd(others, r, false);
    SortedEnd(others, r, true);
  }

  lemma SelectionOf(rs: seq<Rec>, r: Rec, crc: Crc)
    requires Sorted(rs, true) == [r] && Sound(r, crc)
    ensures Selection(rs, crc) == NameIn(Payload(r))
  {
  }

  lemma FinishedHolds(was: Pair, p: Pair, kind: byte, rs: seq<Rec>, w: Write, crc: Crc)
    requires Finished(was, p, kind, rs, w, 0, crc) && AllRecords(rs)
    ensures Good(p.work, crc) && p.strd == was.strd && Records(p, crc) == rs
  {
    WrittenIsGood(kind, rs, crc);
  }

  lemma SavedFits(others: seq<Rec>, pay: seq<byte>, crc: Crc)
    requires HDR + |Flat(others + [NewRecord(K_SETTINGS, RMX_STORE, pay, crc)])| <= BUF_LEN
    ensures |pay| < BUF_LEN
  {
    FlatPush(others, NewRecord(K_SETTINGS, RMX_STORE, pay, crc));
  }

  /** Save a name: every other record and every other key is kept. */
  method Save(store: Store, p: Pair, name: Text, w: Write) returns (q: Pair, err: nat)
    requires store.Valid()
    modifies store.buf, store.out
    ensures Saved(p, q, name, w, err, store.crc)
  {
    var ok := CheckName(name);
    if !ok { return p, 2; }
    var n := store.Open(p);
    if n < 0 { return p, 2; }
    ghost var rs := Records(p, store.crc);
    var f := FindOwn(store, n, rs);
    if f.bad { return p, 2; }
    OwnAreRecords(rs);
    SoleIsAt(f, rs, store.crc);
    OthersSurvive(rs, f.at);
    var at, kept := store.Rewrite(n, DropAt(f.at), rs);
    var s := MakePayload(store, n, rs, f, name, BUF_LEN - at);
    q, err := SaveFinish(store, p, at, kept, s, w, Sorted(rs, false), name, Sorted(rs, true));
  }

  /** The end of a save, once its payload is known. */
  ghost predicate SavedBehind(p: Pair, q: Pair, others: seq<Rec>, name: Text, own: seq<Rec>, w: Write, err: nat,
                              crc: Crc)
    requires AllRecords(own)
  {
    var pay := SavedPayload(name, own);
    if pay.None? then (err == 2 || err == 3) && q == p
    else Finished(p, q, 0, others + [NewRecord(K_SETTINGS, RMX_STORE, pay.value, crc)], w, err, crc)
  }

  method SaveFinish(store: Store, p: Pair, at: nat, kept: nat, s: Scan, w: Write, ghost others: seq<Rec>,
                    ghost name: Text, ghost own: seq<Rec>)
    returns (q: Pair, err: nat)
    requires store.Valid() && HDR <= at <= BUF_LEN && store.out[HDR..at] == Flat(others) && kept == |others|
    requires AllRecords(own) && |own| <= 1 && IsPayload(s, SavedPayload(name, own), BUF_LEN - at)
    modifies store.out
    ensures SavedBehind(p, q, others, name, own, w, err, store.crc)
  {
    match s {
      case Malformed => return p, 2;
      case TooLarge =>
        TooLargeFor(others, name, own, store.crc);
        return p, 3;
      case Fits(pay) =>
        q, err := store.Finish(p, 0, at, kept, [NewRecord(K_SETTINGS, RMX_STORE, pay, store.crc)], w, others);
    }
  }

  /** What was made of the payload a save should have. */
  predicate IsPayload(s: Scan, pay: Option<seq<byte>>, room: nat) {
    match s
    case Fits(b) => pay == Some(b)
    case Malformed => pay.None?
    case TooLarge => pay.Some? ==> PREFIX + |pay.value| > room
  }

  /** The new record's payload, if there is room for it. */
  method MakePayload(store: Store, n: nat, ghost rs: seq<Rec>, f: Found, name: Text, room: nat) returns (s: Scan)
    requires store.Valid() && store.Opened(n, rs) && AllRecords(rs) && AllRecords(Sorted(rs, true))
    requires |Sorted(rs, true)| <= 1 && (f.at.None? <==> Sorted(rs, true) == [])
    requires f.at.Some? ==> f.at.value < |rs| && Sorted(rs, true) == [rs[f.at.value]]
    ensures IsPayload(s, SavedPayload(name, Sorted(rs, true)), room)
  {
    var pay := NameField(name);
    if PREFIX + |pay| > room { return TooLarge; }
    if f.at.None? { return Fits(pay); }
    var sole := store.RecordNumber(n, rs, f.at.value);
    s := OthersBehind(Payload(sole), pay, room - PREFIX);
  }

  lemma SoleIsAt(f: Found, rs: seq<Rec>, crc: Crc)
    requires FoundIn(f, rs, crc) && !f.bad
    ensures |Sorted(rs, true)| <= 1 && (f.at.None? <==> Sorted(rs, true) == [])
    ensures f.at.Some? ==> f.at.value < |rs| && Sorted(rs, true) == [rs[f.at.value]]
    ensures forall j | 0 <= j < |rs| :: Mine(rs[j]) <==> f.at == Some(j)
  {
    SortedAreMine(rs);
  }

  /** The old record's other keys behind the new name. */
  method OthersBehind(pay: seq<byte>, name: seq<byte>, room: nat) returns (s: Scan)
    requires |name| <= room
    ensures match s
      case Fits(out) => StrictFields(pay).Some? && out == name + Flat(OtherKeys(pay)) && |out| <= room
      case Malformed => StrictFields(pay).None?
      case TooLarge => StrictFields(pay).Some? ==> |name + Flat(OtherKeys(pay))| > room
  {
    ghost var read := (b: seq<byte>) => StrictFields(b);
    forall at: nat | at <= |pay| ensures StrictAt(read, pay, at) { StrictReads(pay, at); }
    if read(pay).Some? { StrictAreFields(pay); }
    s := ScanOthers(pay, name, room, read);
  }

  /** A save that has no room for its payload could not finish either. */
  lemma TooLargeFor(others: seq<Rec>, name: Text, own: seq<Rec>, crc: Crc)
    requires AllRecords(own) && |own| <= 1
    ensures SavedPayload(name, own).Some? ==>
      var pay := SavedPayload(name, own).value;
      HDR + |Flat(others + [NewRecord(K_SETTINGS, RMX_STORE, pay, crc)])| >= HDR + |Flat(others)| + PREFIX + |pay|
      && |pay| >= 4 + RMX_NLEN
  {
    if SavedPayload(name, own).Some? {
      FlatPush(others, NewRecord(K_SETTINGS, RMX_STORE, SavedPayload(name, own).value, crc));
    }
  }

  /** After a save that succeeds, reading gives the name (nothing for the empty one),
      every other record is as it was, and so is every other key. */
  lemma SaveThenGet(was: Pair, p: Pair, name: Text, w: Write, crc: Crc)
    requires Saved(was, p, name, w, 0, crc)
    ensures Good(p.work, crc) && p.strd == was.strd
    ensures Selection(Records(p, crc), crc) == name
    ensures Sorted(Records(p, crc), false) == Sorted(Records(was, crc), false)
    ensures var own, now := Sorted(Records(was, crc), true), Sorted(Records(p, crc), true);
      |now| == 1 && Sound(now[0], crc) && NameIn(Payload(now[0])) == name && StrictFields(Payload(now[0])).Some?
      && OtherKeys(Payload(now[0])) == if own == [] then [] else OtherKeys(Payload(own[0]))
  {
    var rs := Records(was, crc);
    var own, others := Sorted(rs, true), Sorted(rs, false);
    OwnAreRecords(rs);
    OthersAreOthers(rs);
    var pay := SavedPayload(name, own).value;
    SavedFits(others, pay, crc);
    SavedRecords(others, pay, crc);
    SavedPayloadReads(name, own);
    var r := NewRecord(K_SETTINGS, RMX_STORE, pay, crc);
    FinishedHolds(was, p, 0, others + [r], w, crc);
    SelectionOf(others + [r], r, crc);
  }
}
