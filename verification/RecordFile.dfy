/** The container of BRAIN's files (brain.c, `valid`, `write_store`): a header and
    a run of sized records. */
module RecordFile {
  import opened Words
  import opened Bytes

  const BUF_LEN := 65536
  const HDR := 32
  const REC_HDR := 20
  const MAGIC := 0x4252414e

  type Rec = seq<byte>
  type Crc = seq<byte> -> u32

  // ---- records ----------------------------------------------------------------

  /** The bytes of exactly one record: an id of 1..63 bytes and a payload, each
      padded to a multiple of four, and a size that says so. */
  predicate IsRecord(r: Rec) {
    && |r| >= REC_HDR && 1 <= r[1] <= 63
    && Be32(r, 16) == |r| == REC_HDR + Align4(r[1]) + Align4(Be32(r, 8))
  }

  function Kind(r: Rec): byte
    requires IsRecord(r)
  {
    r[0]
  }

  function Id(r: Rec): seq<byte>
    requires IsRecord(r)
  {
    r[REC_HDR..REC_HDR + r[1]]
  }

  function Schema(r: Rec): nat
    requires IsRecord(r)
  {
    Be16(r, 2)
  }

  function Payload(r: Rec): seq<byte>
    requires IsRecord(r)
  {
    r[REC_HDR + Align4(r[1])..][..Be32(r, 8)]
  }

  /** The payload carries its own checksum. */
  predicate Intact(r: Rec, crc: Crc)
    requires IsRecord(r)
  {
    Be32(r, 12) == crc(Payload(r))
  }

  predicate Owned(r: Rec, kind: byte, id: seq<byte>)
    requires IsRecord(r)
  {
    Kind(r) == kind && Id(r) == id
  }

  ghost predicate AllRecords(rs: seq<Rec>) {
    forall i | 0 <= i < |rs| :: IsRecord(rs[i])
  }

  function Flat(rs: seq<Rec>): seq<byte> {
    if rs == [] then [] else rs[0] + Flat(rs[1..])
  }

  lemma {:induction false} FlatJoin(a: seq<Rec>, b: seq<Rec>)
    ensures Flat(a + b) == Flat(a) + Flat(b)
  {
    if a == [] {
      assert a + b == b;
    } else {
      assert (a + b)[1..] == a[1..] + b;
      FlatJoin(a[1..], b);
    }
  }

  lemma FlatPush(a: seq<Rec>, r: Rec)
    ensures Flat(a + [r]) == Flat(a) + r
  {
    FlatJoin(a, [r]);
    assert Flat([r]) == r + Flat([]);
  }

  /** `count` records and nothing else. */
  function Parse(body: seq<byte>, count: nat): (rs: Option<seq<Rec>>)
    decreases count
  {
    if count == 0 then
      if body == [] then Some([]) else None
    else if |body| < REC_HDR then None
    else
      var size := Be32(body, 16);
      if size <= |body| && IsRecord(body[..size]) then
        match Parse(body[size..], count - 1)
        case Some(rest) => Some([body[..size]] + rest)
        case None => None
      else None
  }

  /** The next record of a body, or the end of parsing. */
  predicate StartsRecord(body: seq<byte>) {
    |body| >= REC_HDR && Be32(body, 16) <= |body| && IsRecord(body[..Be32(body, 16)])
  }

  lemma {:induction false} ParseOfFlat(rs: seq<Rec>)
    requires AllRecords(rs)
    ensures Parse(Flat(rs), |rs|) == Some(rs)
  {
    if rs != [] {
      RecordInFront(rs[0], Flat(rs[1..]));
      ParseOfFlat(rs[1..]);
      assert rs == [rs[0]] + rs[1..];
      assert Flat(rs) == rs[0] + Flat(rs[1..]);
    }
  }

  lemma {:induction false} ParseLays(body: seq<byte>, count: nat)
    requires Parse(body, count).Some?
    ensures var rs := Parse(body, count).value;
      AllRecords(rs) && |rs| == count && Flat(rs) == body
    decreases count
  {
    if count > 0 {
      var size := Be32(body, 16);
      assert StartsRecord(body);
      var r, tail := body[..size], body[size..];
      ParseLays(tail, count - 1);
      RecordFirst(r, Parse(tail, count - 1).value);
      assert body == r + tail;
    }
  }

  lemma RecordFirst(r: Rec, rest: seq<Rec>)
    requires IsRecord(r) && AllRecords(rest)
    ensures AllRecords([r] + rest) && Flat([r] + rest) == r + Flat(rest)
  {
    assert ([r] + rest)[1..] == rest;
  }

  /** Parsing undoes laying out, and accepts nothing else. */
  lemma ParseIsFlat(body: seq<byte>, count: nat, rs: seq<Rec>)
    ensures Parse(body, count) == Some(rs) <==> AllRecords(rs) && |rs| == count && body == Flat(rs)
  {
    if Parse(body, count).Some? { ParseLays(body, count); }
    if AllRecords(rs) { ParseOfFlat(rs); }
  }

  lemma {:induction false} MemberFits(rs: seq<Rec>, k: nat)
    requires k < |rs|
    ensures |rs[k]| <= |Flat(rs)|
  {
    if k > 0 { MemberFits(rs[1..], k - 1); }
  }

  /** A record is recognised whatever follows it. */
  lemma RecordInFront(r: Rec, rest: seq<byte>)
    requires IsRecord(r)
    ensures Be32(r + rest, 16) == |r| && (r + rest)[..|r|] == r && (r + rest)[|r|..] == rest
  {
  }

  // ---- files -------------------------------------------------------------------

  predicate HeaderOk(f: seq<byte>, crc: Crc)
    requires |f| >= HDR
  {
    && Be32(f, 0) == MAGIC && Be16(f, 4) == HDR && f[6] == 1 && Be32(f, 12) == |f|
    && crc(f[20..]) == Be32(f, 16)
  }

  /** The container's own rules for a file's bytes. */
  predicate ValidFile(f: seq<byte>, crc: Crc) {
    |f| >= HDR && HeaderOk(f, crc) && Parse(f[HDR..], Be16(f, 10)).Some?
  }

  /** The body is `count` records and nothing else. */
  ghost predicate FilledBy(body: seq<byte>, count: nat) {
    exists rs :: AllRecords(rs) && |rs| == count && body == Flat(rs)
  }

  lemma ParsedIsFilled(body: seq<byte>, count: nat)
    ensures Parse(body, count).Some? <==> FilledBy(body, count)
  {
    if Parse(body, count).Some? { ParseIsFlat(body, count, Parse(body, count).value); }
    if FilledBy(body, count) {
      var rs :| AllRecords(rs) && |rs| == count && body == Flat(rs);
      ParseIsFlat(body, count, rs);
    }
  }

  lemma MagicIs(f: seq<byte>)
    requires |f| >= 4
    ensures Be32(f, 0) == MAGIC <==> f[0] == 0x42 && f[1] == 0x52 && f[2] == 0x41 && f[3] == 0x4e
  {
  }

  /** A file is valid exactly when it says so of itself, byte for byte: "BRAN", a header of
      32, version 1, its own length, its body's checksum, and as many records as it counts,
      which fill it. */
  lemma ValidIs(f: seq<byte>, crc: Crc)
    ensures ValidFile(f, crc) <==>
      && |f| >= 32 && f[0] == 0x42 && f[1] == 0x52 && f[2] == 0x41 && f[3] == 0x4e
      && Be16(f, 4) == 32 && f[6] == 1 && Be32(f, 12) == |f| && crc(f[20..]) == Be32(f, 16)
      && FilledBy(f[32..], Be16(f, 10))
  {
    if |f| >= 32 {
      MagicIs(f);
      ParsedIsFilled(f[32..], Be16(f, 10));
    }
  }

  function RecordsOf(f: seq<byte>, crc: Crc): seq<Rec>
    requires ValidFile(f, crc)
  {
    Parse(f[HDR..], Be16(f, 10)).value
  }

  /** The bytes a store writes: what precedes the checksum's field, and what it covers. */
  function Front(kind: byte, count: nat, length: nat): (b: seq<byte>)
    ensures |b| == 16
  {
    Enc32(MAGIC) + Enc16(HDR) + [1, 0] + [kind, 0] + Enc16(count) + Enc32(length)
  }

  function Signature(): (b: seq<byte>)
    ensures |b| == 12
  {
    [66, 82, 65, 73, 78] + Zeros(7)
  }

  function Covered(body: seq<byte>): (b: seq<byte>)
    ensures |b| == 12 + |body|
  {
    Signature() + body
  }

  function FileOf(kind: byte, rs: seq<Rec>, crc: Crc): (f: seq<byte>)
    ensures |f| == HDR + |Flat(rs)|
  {
    Front(kind, |rs|, HDR + |Flat(rs)|) + Enc32(crc(Covered(Flat(rs)))) + Covered(Flat(rs))
  }

  lemma FrontReads(f: seq<byte>, kind: byte, count: nat, length: nat)
    requires count < 0x1_0000 && length < TWO_32 && |f| >= 16 && f[..16] == Front(kind, count, length)
    ensures Be32(f, 0) == MAGIC && Be16(f, 4) == HDR && f[6] == 1 && f[8] == kind && Be16(f, 10) == count
      && Be32(f, 12) == length
  {
    var h := f[..16];
    assert h[0..4] == Enc32(MAGIC) && h[4..6] == Enc16(HDR) && h[6..8] == [1, 0] && h[8..10] == [kind, 0];
    assert h[10..12] == Enc16(count) && h[12..16] == Enc32(length);
    Read32(h, 0, MAGIC);
    Read16(h, 4, HDR);
    Read16(h, 10, count);
    Read32(h, 12, length);
    assert h[6] == h[6..8][0] && h[8] == h[8..10][0];
  }

  /** Whatever records a store lays out, the file is valid again and holds them. */
  lemma WrittenIsValid(kind: byte, rs: seq<Rec>, crc: Crc)
    requires AllRecords(rs) && HDR + |Flat(rs)| <= BUF_LEN
    ensures var f := FileOf(kind, rs, crc);
      ValidFile(f, crc) && RecordsOf(f, crc) == rs && f[8] == kind && Be32(f, 12) == |f| && Be16(f, 10) == |rs|
  {
    var covered, f := Covered(Flat(rs)), FileOf(kind, rs, crc);
    CountFits(rs);
    assert f[..16] == Front(kind, |rs|, |f|) && f[16..20] == Enc32(crc(covered)) && f[20..] == covered;
    FrontReads(f, kind, |rs|, |f|);
    Read32(f, 16, crc(covered));
    assert f[HDR..] == covered[12..] == Flat(rs);
    ParseOfFlat(rs);
  }

  /** The count's sixteen bits are enough for every file that fits the buffer. */
  lemma {:induction false} CountFits(rs: seq<Rec>)
    requires AllRecords(rs)
    ensures 24 * |rs| <= |Flat(rs)|
    ensures HDR + |Flat(rs)| <= BUF_LEN ==> |rs| < 0x1_0000
  {
    if rs != [] {
      CountFits(rs[1..]);
    }
  }

  lemma SameWord(f: seq<byte>, g: seq<byte>, i: nat)
    requires i + 4 <= |f| && i + 4 <= |g| && f[i..i + 4] == g[i..i + 4]
    ensures Be32(f, i) == Be32(g, i)
  {
    var v, w := f[i..i + 4], g[i..i + 4];
    assert v[0] == f[i] && v[1] == f[i + 1] && v[2] == f[i + 2] && v[3] == f[i + 3];
    assert w[0] == g[i] && w[1] == g[i + 1] && w[2] == g[i + 2] && w[3] == g[i + 3];
  }

  /** The kind lies outside the checksum: the recovery copy only changes it. */
  lemma KindIsFree(f: seq<byte>, kind: byte, crc: Crc)
    requires ValidFile(f, crc)
    ensures ValidFile(f[8 := kind], crc) && RecordsOf(f[8 := kind], crc) == RecordsOf(f, crc)
  {
    var g := f[8 := kind];
    KindOutsideHeader(f, kind, crc);
    assert g[HDR..] == f[HDR..] && Be16(g, 10) == Be16(f, 10);
  }

  lemma KindOutsideHeader(f: seq<byte>, kind: byte, crc: Crc)
    requires |f| >= HDR && HeaderOk(f, crc)
    ensures HeaderOk(f[8 := kind], crc)
  {
    var g := f[8 := kind];
    assert g[20..] == f[20..];
    SameWord(f, g, 0);
    SameWord(f, g, 12);
    SameWord(f, g, 16);
  }

  // ---- a new record -------------------------------------------------------------

  function RecFront(kind: byte, idlen: byte, plen: nat, sum: nat, size: nat): (b: seq<byte>)
    ensures |b| == REC_HDR
  {
    [kind, idlen] + Enc16(1) + [0, 0, 0, 0] + Enc32(plen) + Enc32(sum) + Enc32(size)
  }

  lemma RecFrontReads(r: seq<byte>, kind: byte, idlen: byte, plen: nat, sum: nat, size: nat)
    requires |r| >= REC_HDR && r[..REC_HDR] == RecFront(kind, idlen, plen, sum, size)
    requires plen < TWO_32 && sum < TWO_32 && size < TWO_32
    ensures r[0] == kind && r[1] == idlen && Be16(r, 2) == 1 && Be32(r, 8) == plen && Be32(r, 12) == sum
      && Be32(r, 16) == size
  {
    var h := r[..REC_HDR];
    assert h[0..2] == [kind, idlen] && h[2..4] == Enc16(1) && h[8..12] == Enc32(plen);
    assert h[12..16] == Enc32(sum) && h[16..20] == h[16..] == Enc32(size);
    assert h[0] == h[0..2][0] && h[1] == h[0..2][1];
    Read16(h, 2, 1);
    Read32(h, 8, plen);
    Read32(h, 12, sum);
    Read32(h, 16, size);
  }

  function Padded(b: seq<byte>): (p: seq<byte>)
    ensures |p| == Align4(|b|) && p[..|b|] == b
  {
    b + Zeros(Align4(|b|) - |b|)
  }

  /** The record a writer appends: schema 1, an id and a payload with its checksum. */
  function NewRecord(kind: byte, id: seq<byte>, pay: seq<byte>, crc: Crc): (r: Rec)
    requires |id| <= 63
    ensures |r| == REC_HDR + Align4(|id|) + Align4(|pay|)
  {
    RecFront(kind, |id|, |pay|, crc(pay), REC_HDR + Align4(|id|) + Align4(|pay|)) + Padded(id) + Padded(pay)
  }

  /** It is one record, and reads back. */
  lemma NewRecordReads(kind: byte, id: seq<byte>, pay: seq<byte>, crc: Crc)
    requires 1 <= |id| <= 63 && |pay| < BUF_LEN
    ensures var r := NewRecord(kind, id, pay, crc);
      IsRecord(r) && Kind(r) == kind && Id(r) == id && Schema(r) == 1 && Payload(r) == pay && Intact(r, crc)
  {
    var r := NewRecord(kind, id, pay, crc);
    var front := RecFront(kind, |id|, |pay|, crc(pay), |r|);
    assert r == front + (Padded(id) + Padded(pay));
    assert r[..REC_HDR] == front && r[REC_HDR..] == Padded(id) + Padded(pay);
    RecFrontReads(r, kind, |id|, |pay|, crc(pay), |r|);
    assert r[REC_HDR..REC_HDR + |id|] == Padded(id)[..|id|];
    assert r[REC_HDR + Align4(|id|)..] == Padded(pay);
  }

  // ---- what a writer does with the records it finds -------------------------------

  datatype Fate = Drop | Keep | Edit(to: Rec)

  /** A writer's decision on record k of the file. */
  type Choice = (nat, Rec) -> Fate

  /** An edit keeps the record's size. */
  ghost predicate Sized(choice: Choice) {
    forall k: nat, r: Rec | IsRecord(r) && choice(k, r).Edit? :: IsRecord(choice(k, r).to) && |choice(k, r).to| == |r|
  }

  function Outcome(choice: Choice, k: nat, r: Rec): seq<Rec> {
    match choice(k, r)
    case Drop => []
    case Keep => [r]
    case Edit(to) => [to]
  }

  /** The records a writer leaves, in their order. */
  function Survivors(rs: seq<Rec>, choice: Choice): seq<Rec> {
    if rs == [] then [] else Survivors(rs[..|rs| - 1], choice) + Outcome(choice, |rs| - 1, rs[|rs| - 1])
  }

  /** Records of no more bytes, and no more of them. */
  ghost predicate FitsIn(kept: seq<Rec>, rs: seq<Rec>) {
    AllRecords(kept) && |Flat(kept)| <= |Flat(rs)| && |kept| <= |rs|
  }

  lemma {:induction false} SurvivorsFit(rs: seq<Rec>, choice: Choice)
    requires AllRecords(rs) && Sized(choice)
    ensures FitsIn(Survivors(rs, choice), rs)
  {
    if rs != [] {
      var n := |rs| - 1;
      SurvivorsFit(rs[..n], choice);
      OutcomeFits(choice, n, rs[n]);
      JoinFits(Survivors(rs[..n], choice), rs[..n], Outcome(choice, n, rs[n]), rs[n]);
      assert rs[..n] + [rs[n]] == rs;
    }
  }

  lemma JoinFits(a: seq<Rec>, rs: seq<Rec>, b: seq<Rec>, r: Rec)
    requires FitsIn(a, rs) && AllRecords(b) && |Flat(b)| <= |r| && |b| <= 1
    ensures FitsIn(a + b, rs + [r])
  {
    FlatPush(rs, r);
    FlatJoin(a, b);
  }

  lemma JoinRecords(a: seq<Rec>, b: seq<Rec>)
    requires AllRecords(a) && AllRecords(b)
    ensures AllRecords(a + b)
  {
  }

  lemma OutcomeFits(choice: Choice, k: nat, r: Rec)
    requires IsRecord(r) && Sized(choice)
    ensures var kept := Outcome(choice, k, r);
      AllRecords(kept) && |Flat(kept)| <= |r| && |kept| <= 1
  {
    if choice(k, r) != Drop {
      var kept := Outcome(choice, k, r);
      assert kept == [] + [kept[0]];
      FlatPush([], kept[0]);
    }
  }

  /** Everything but the record at `at`. */
  function DropAt(at: Option<nat>): Choice {
    (k: nat, r: Rec) => if at == Some(k) then Drop else Keep
  }

  /** Everything but what a writer owns. */
  function DropOwned(owned: Rec -> bool): Choice {
    (k: nat, r: Rec) => if owned(r) then Drop else Keep
  }

  lemma DropIsSized(owned: Rec -> bool)
    ensures Sized(DropOwned(owned))
  {
  }

  lemma DropAtIsSized(at: Option<nat>)
    ensures Sized(DropAt(at))
  {
  }

  /** Record k lies where the records before it end. */
  lemma RecordAt(rs: seq<Rec>, k: nat)
    requires k < |rs| && AllRecords(rs)
    ensures var i := |Flat(rs[..k])|;
      i + |rs[k]| <= |Flat(rs)| && Flat(rs)[i..i + |rs[k]|] == rs[k] && |Flat(rs[..k + 1])| == i + |rs[k]|
  {
    assert rs == rs[..k] + rs[k..] && rs[..k + 1] == rs[..k] + [rs[k]];
    FlatJoin(rs[..k], rs[k..]);
    FlatPush(rs[..k], rs[k]);
    assert Flat(rs[k..]) == rs[k] + Flat(rs[k..][1..]);
  }

  /** With `rs` read up to `at`, the rest decides: it parses only from a record,
      or at the end when there are as many as counted. */
  lemma {:induction false} ParsePrefix(f: seq<byte>, count: nat, rs: seq<Rec>, at: nat)
    requires HDR <= at <= |f| && AllRecords(rs) && Flat(rs) == f[HDR..at] && |rs| <= count
    ensures |rs| == count ==> (Parse(f[HDR..], count).Some? <==> at == |f|)
    ensures |rs| < count && !StartsRecord(f[at..]) ==> Parse(f[HDR..], count).None?
  {
    var parses := (body: seq<byte>, left: nat) => Parse(body, left).Some?;
    forall r, body, left: nat | IsRecord(r) ensures parses(r + body, 1 + left) <==> parses(body, left) {
      ParseRecord(r, body, left);
    }
    PrefixRest(parses, rs, f[at..], count - |rs|, f[HDR..]);
  }

  /** `p` is unchanged by a record in front, counted. */
  ghost predicate PerRecord(p: (seq<byte>, nat) -> bool) {
    forall r, body, left: nat | IsRecord(r) :: p(r + body, 1 + left) <==> p(body, left)
  }

  lemma {:induction false} PrefixRest(p: (seq<byte>, nat) -> bool, rs: seq<Rec>, rest: seq<byte>, left: nat,
                                      whole: seq<byte>)
    requires PerRecord(p) && AllRecords(rs) && whole == Flat(rs) + rest
    ensures p(whole, |rs| + left) <==> p(rest, left)
  {
    if rs == [] {
      assert whole == rest;
    } else {
      var tail := Flat(rs[1..]) + rest;
      PrefixRest(p, rs[1..], rest, left, tail);
      assert whole == rs[0] + tail;
      assert p(rs[0] + tail, 1 + (|rs[1..]| + left)) <==> p(tail, |rs[1..]| + left);
    }
  }

  lemma ParseRecord(r: Rec, rest: seq<byte>, count: nat)
    requires IsRecord(r)
    ensures Parse(r + rest, 1 + count).Some? <==> Parse(rest, count).Some?
  {
    RecordInFront(r, rest);
  }

  lemma RecordInFile(f: seq<byte>, rs: seq<Rec>, k: nat, i: nat)
    requires |f| >= HDR && f[HDR..] == Flat(rs) && AllRecords(rs) && k < |rs| && i == HDR + |Flat(rs[..k])|
    ensures i + |rs[k]| <= |f| && f[i..i + |rs[k]|] == rs[k] && Be32(f, i + 16) == |rs[k]|
    ensures |Flat(rs[..k + 1])| == |Flat(rs[..k])| + |rs[k]|
  {
    RecordAt(rs, k);
    Slice(f, HDR, i, rs[k]);
    WordOf(f, i, i + |rs[k]|, 16);
  }

  lemma Slice(f: seq<byte>, h: nat, i: nat, r: seq<byte>)
    requires h <= i && i + |r| <= |f| && f[h..][i - h..i - h + |r|] == r
    ensures f[i..i + |r|] == r
  {
  }

  /** A word of a slice is the word where the slice lies. */
  lemma WordOf(f: seq<byte>, i: nat, j: nat, k: nat)
    requires i <= j <= |f| && i + k + 4 <= j
    ensures Be32(f[i..j], k) == Be32(f, i + k)
  {
  }

  lemma StartsAt(f: seq<byte>, at: nat)
    requires at <= |f|
    ensures StartsRecord(f[at..])
       <==> at + REC_HDR <= |f| && at + Be32(f, at + 16) <= |f| && IsRecord(f[at..at + Be32(f, at + 16)])
  {
    if at + REC_HDR <= |f| {
      WordOf(f, at, |f|, 16);
      assert f[at..|f|] == f[at..];
      var size := Be32(f, at + 16);
      if at + size <= |f| { assert f[at..][..size] == f[at..at + size]; }
    }
  }
}
