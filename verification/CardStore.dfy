/** BRAIN's store (brain.c, `slurp`, `valid`, `cur`, `write_store`, `brain_card_store`):
    two byte buffers, a recovery pair of files, and the rewriting of a whole file
    that every writer does. */
module CardStore {
  import opened Words
  import opened Bytes
  import opened RecordFile

  /** A file on the card: absent, or whatever bytes it holds. */
  datatype File = Absent | Present(bytes: seq<byte>)

  /** A store's two files, `.work` and its recovery copy `.strd`. */
  datatype Pair = Pair(work: File, strd: File)

  /** One write of a file: completed, or cut short leaving something else. */
  datatype Write = Completed | Torn(left: File)

  /** What a pair holds. */
  datatype Content = Nothing | Damaged | Held(bytes: seq<byte>)

  // ---- reading --------------------------------------------------------------------

  /** The bytes read of a file: as many as its header says, if it has them. */
  function Readable(f: File): Option<seq<byte>> {
    if f.Absent? || |f.bytes| < HDR then None
    else
      var total := Be32(f.bytes, 12);
      if HDR <= total <= BUF_LEN && total <= |f.bytes| then Some(f.bytes[..total]) else None
  }

  /** A file is good when what is read of it is a valid file. */
  predicate Good(f: File, crc: Crc) {
    Readable(f).Some? && ValidFile(Readable(f).value, crc)
  }

  /** A file is read as far as its header's length, whatever lies behind; not at all when it
      is shorter than that, or that is no file's or more than the buffer's. */
  lemma ReadableIs(b: seq<byte>, behind: seq<byte>)
    requires |b| >= 16
    ensures 32 <= |b| <= 65536 && Be32(b, 12) == |b| ==> Readable(Present(b + behind)) == Some(b)
    ensures |b| < 32 || Be32(b, 12) < 32 || Be32(b, 12) > 65536 || Be32(b, 12) > |b| ==> Readable(Present(b)) == None
    ensures Readable(Absent) == None
  {
    var f := b + behind;
    assert f[..|b|] == b && f[12] == b[12] && f[13] == b[13] && f[14] == b[14] && f[15] == b[15];
  }

  /** A pair's content: .work while that is good, or else .strd. */
  function Current(p: Pair, crc: Crc): Content {
    if Good(p.work, crc) then Held(Readable(p.work).value)
    else if Good(p.strd, crc) then Held(Readable(p.strd).value)
    else if p.work.Absent? && p.strd.Absent? then Nothing
    else Damaged
  }

  /** The records of a pair's content. */
  function RecordsIn(c: Content, crc: Crc): seq<Rec>
    requires c.Held? ==> ValidFile(c.bytes, crc)
  {
    if c.Held? then RecordsOf(c.bytes, crc) else []
  }

  lemma CurrentIsValid(p: Pair, crc: Crc)
    ensures Current(p, crc).Held? ==> ValidFile(Current(p, crc).bytes, crc) && HDR <= |Current(p, crc).bytes| <= BUF_LEN
    ensures AllRecords(RecordsIn(Current(p, crc), crc))
  {
    var c := Current(p, crc);
    if c.Held? { ParseLays(c.bytes[HDR..], Be16(c.bytes, 10)); }
  }

  /** The records a pair holds. */
  function Records(p: Pair, crc: Crc): (rs: seq<Rec>)
    ensures AllRecords(rs)
  {
    CurrentIsValid(p, crc);
    RecordsIn(Current(p, crc), crc)
  }

  /** Records written to a pair: nothing and 3 when they do not fit, 4 when the
      write fails. */
  predicate Finished(was: Pair, p: Pair, kind: byte, rs: seq<Rec>, w: Write, err: nat, crc: Crc) {
    if HDR + |Flat(rs)| > BUF_LEN then err == 3 && p == was
    else if w.Completed? then err == 0 && p == Pair(Present(FileOf(kind, rs, crc)), was.strd)
    else err == 4 && p == Pair(w.left, was.strd)
  }

  /** What a writer does to a pair: nothing and 2 when both copies are damaged; else
      it writes the records that survive `choice` and then the `added` ones. */
  predicate Wrote(was: Pair, p: Pair, kind: byte, choice: Choice, added: seq<Rec>, w: Write, err: nat, crc: Crc) {
    if Current(was, crc).Damaged? then err == 2 && p == was
    else Finished(was, p, kind, Survivors(Records(was, crc), choice) + added, w, err, crc)
  }

  /** A valid file is read whole. */
  lemma ReadWhole(b: seq<byte>, crc: Crc)
    requires ValidFile(b, crc) && |b| <= BUF_LEN
    ensures Readable(Present(b)) == Some(b)
  {
    assert b[..|b|] == b;
  }

  lemma WrittenIsGood(kind: byte, rs: seq<Rec>, crc: Crc)
    requires AllRecords(rs) && HDR + |Flat(rs)| <= BUF_LEN
    ensures var f := Present(FileOf(kind, rs, crc));
      Good(f, crc) && Readable(f) == Some(f.bytes) && RecordsOf(f.bytes, crc) == rs
  {
    WrittenIsValid(kind, rs, crc);
    ReadWhole(FileOf(kind, rs, crc), crc);
  }

  /** After any writer's success the pair holds a valid file again, of the right
      kind, count and length: the old records in order, each as its fate says,
      and then the new ones. */
  lemma WriterKeepsContainer(was: Pair, p: Pair, kind: byte, choice: Choice, added: seq<Rec>, w: Write, err: nat,
                             crc: Crc)
    requires Wrote(was, p, kind, choice, added, w, err, crc) && Sized(choice) && AllRecords(added) && err == 0
    ensures Good(p.work, crc) && Records(p, crc) == Survivors(Records(was, crc), choice) + added
    ensures var b := Readable(p.work).value;
      b[8] == kind && Be32(b, 12) == |b| && Be16(b, 10) == |Records(p, crc)|
  {
    var rs := Survivors(Records(was, crc), choice) + added;
    SurvivorsFit(Records(was, crc), choice);
    JoinRecords(Survivors(Records(was, crc), choice), added);
    WrittenIsGood(kind, rs, crc);
    WrittenIsValid(kind, rs, crc);
  }

  /** A write that succeeded had room: each record added is shorter than the buffer. */
  lemma AddedFits(was: Pair, p: Pair, kind: byte, choice: Choice, added: seq<Rec>, w: Write, err: nat, crc: Crc)
    requires Wrote(was, p, kind, choice, added, w, err, crc) && (err == 0 || err == 4)
    ensures HDR + |Flat(added)| <= BUF_LEN
    ensures forall i | 0 <= i < |added| :: HDR + |added[i]| <= BUF_LEN
  {
    FlatJoin(Survivors(Records(was, crc), choice), added);
    forall i | 0 <= i < |added| ensures HDR + |added[i]| <= BUF_LEN { MemberFits(added, i); }
  }

  /** A record the choice keeps is in the new list, byte for byte, and the records
      before it number the survivors among those before it in the old. */
  lemma {:induction false} KeptInPlace(rs: seq<Rec>, choice: Choice, k: nat)
    requires k < |rs| && choice(k, rs[k]).Keep?
    ensures var j := |Survivors(rs[..k], choice)|;
      j < |Survivors(rs, choice)| && Survivors(rs, choice)[j] == rs[k]
    decreases |rs|
  {
    var n := |rs| - 1;
    if k < n {
      KeptInPlace(rs[..n], choice, k);
      assert rs[..n][..k] == rs[..k];
    }
  }

  /** Nothing else is in the new list: each survivor comes of a record not dropped. */
  lemma {:induction false} SurvivorsComeFrom(rs: seq<Rec>, choice: Choice, j: nat)
    requires j < |Survivors(rs, choice)|
    ensures exists k | 0 <= k < |rs| :: Outcome(choice, k, rs[k]) == [Survivors(rs, choice)[j]]
    decreases |rs|
  {
    var n := |rs| - 1;
    if j < |Survivors(rs[..n], choice)| {
      SurvivorsComeFrom(rs[..n], choice, j);
      var k :| 0 <= k < n && Outcome(choice, k, rs[..n][k]) == [Survivors(rs[..n], choice)[j]];
      assert Outcome(choice, k, rs[k]) == [Survivors(rs, choice)[j]];
    } else {
      assert Outcome(choice, n, rs[n]) == [Survivors(rs, choice)[j]];
    }
  }

  class Store {
    const crc: Crc
    const buf: array<byte>
    const out: array<byte>

    ghost predicate Valid() {
      buf.Length == BUF_LEN && out.Length == BUF_LEN && buf != out
    }

    constructor (crc: Crc)
      ensures Valid() && this.crc == crc && fresh(buf) && fresh(out)
    {
      this.crc := crc;
      buf := new byte[BUF_LEN](_ => 0);
      out := new byte[BUF_LEN](_ => 0);
    }

    /** Reads one file. The result is what was read, in bytes: 0 for no file, and 1, which
        no file has, for one that cannot be read to the end its header gives. */
    method Slurp(f: File) returns (n: nat)
      requires Valid()
      modifies buf
      ensures n == (if f.Absent? then 0 else match Readable(f) case Some(b) => |b| case None => 1)
      ensures Readable(f).Some? ==> HDR <= n <= BUF_LEN && buf[..n] == Readable(f).value
    {
      if f.Absent? { return 0; }
      if |f.bytes| < HDR { return 1; }
      var total := Be32(f.bytes, 12);
      if !(HDR <= total <= BUF_LEN && total <= |f.bytes|) { return 1; }
      var i := 0;
      while i < total
        invariant 0 <= i <= total && buf[..i] == f.bytes[..i]
      {
        buf[i] := f.bytes[i];
        i := i + 1;
      }
      return total;
    }

    /** The container's check of buf[0..n). */
    method Check(n: nat) returns (ok: bool)
      requires Valid() && n <= BUF_LEN
      ensures ok <==> ValidFile(buf[..n], crc)
    {
      if n < HDR || !HeaderOk(buf[..n], crc) { return false; }
      ok := CheckRecords(n, Be16(buf[..n], 10));
    }

    method CheckRecords(n: nat, count: nat) returns (ok: bool)
      requires Valid() && HDR <= n <= BUF_LEN
      ensures ok <==> Parse(buf[..n][HDR..], count).Some?
    {
      var at, r := HDR, 0;
      ghost var rs: seq<Rec> := [];
      while r < count
        invariant 0 <= r <= count && HDR <= at <= n
        invariant |rs| == r && AllRecords(rs) && Flat(rs) == buf[..n][HDR..at]
      {
        var size := CheckRecord(at, n);
        if size == 0 { break; }
        FlatPush(rs, buf[..n][at..at + size]);
        rs := rs + [buf[..n][at..at + size]];
        at, r := at + size, r + 1;
      }
      ParsePrefix(buf[..n], count, rs, at);
      return r == count && at == n;
    }

    /** The size of the record at `at`, or 0 when there is none that fits. */
    method CheckRecord(at: nat, n: nat) returns (size: nat)
      requires Valid() && at <= n <= BUF_LEN
      ensures size == 0 ==> !StartsRecord(buf[..n][at..])
      ensures size != 0 ==> at + size <= n && IsRecord(buf[..n][at..at + size])
    {
      StartsAt(buf[..n], at);
      if at + REC_HDR > n { return 0; }
      size := Be32(buf[..n], at + 16);
      if at + size > n || !IsRecord(buf[..n][at..at + size]) { return 0; }
    }

    /** Reads what a pair holds, -1 standing for `Damaged`. */
    method Cur(p: Pair) returns (n: int)
      requires Valid()
      modifies buf
      ensures match Current(p, crc)
        case Nothing => n == 0
        case Damaged => n == -1
        case Held(bytes) => HDR <= n <= BUF_LEN && n == |bytes| && buf[..n] == bytes
    {
      var m := Slurp(p.work);
      if m != 0 {
        var ok := Check(m);
        if ok { return m; }
      }
      var present := m != 0;
      m := Slurp(p.strd);
      if m != 0 {
        var ok := Check(m);
        if ok { return m; }
      }
      return if present || m != 0 then -1 else 0;
    }

    // ---- writing ------------------------------------------------------------------

    method Put(at: nat, bytes: seq<byte>)
      requires Valid() && at + |bytes| <= BUF_LEN
      modifies out
      ensures out[..] == old(out[..at]) + bytes + old(out[at + |bytes|..])
    {
      var i := 0;
      while i < |bytes|
        invariant 0 <= i <= |bytes|
        invariant forall k | 0 <= k < BUF_LEN :: out[k] == if at <= k < at + i then bytes[k - at] else old(out[k])
      {
        out[at + i] := bytes[i];
        i := i + 1;
      }
    }

    /** The content of a pair into buf, ready to be rewritten: -1 when damaged. */
    method Open(p: Pair) returns (n: int)
      requires Valid()
      modifies buf
      ensures n >= -1 && (n == -1 <==> Current(p, crc).Damaged?)
      ensures n >= 0 ==> Opened(n, Records(p, crc))
    {
      n := Cur(p);
      CurrentIsValid(p, crc);
      if n > 0 { ParseLays(buf[..n][HDR..], Be16(buf[..n], 10)); }
    }

    /** buf holds a file of the records `rs`, or there is no file. */
    ghost predicate Opened(n: int, rs: seq<Rec>)
      requires Valid()
      reads buf
    {
      if n == 0 then rs == []
      else HDR <= n <= BUF_LEN && AllRecords(rs) && buf[..n][HDR..] == Flat(rs) && Be16(buf[..n], 10) == |rs|
    }

    /** The records of the file in buf, each kept, dropped or edited as `choice`
        says, one after the other into out. They always fit. */
    method Rewrite(n: nat, choice: Choice, ghost rs: seq<Rec>) returns (at: nat, kept: nat)
      requires Valid() && Opened(n, rs) && Sized(choice)
      modifies out
      ensures HDR <= at <= BUF_LEN && out[HDR..at] == Flat(Survivors(rs, choice)) && kept == |Survivors(rs, choice)|
    {
      at, kept := HDR, 0;
      if n == 0 { return; }
      var count, i, r := Be16(buf[..n], 10), HDR, 0;
      ghost var done: seq<Rec> := [];
      while r < count
        invariant 0 <= r <= count && i == HDR + |Flat(rs[..r])| && HDR <= at <= i <= n
        invariant done == Survivors(rs[..r], choice) && out[HDR..at] == Flat(done) && kept == |done|
      {
        var p := Record(i, n, rs, r);
        Advance(rs, r, choice);
        at, kept := Settle(at, kept, r, p, choice, done);
        done := done + Outcome(choice, r, p);
        i, r := i + |p|, r + 1;
      }
      assert rs[..r] == rs;
    }

    /** Record r, as the choice leaves it, behind those laid out. */
    method Settle(at: nat, kept: nat, r: nat, p: Rec, choice: Choice, ghost done: seq<Rec>)
      returns (at': nat, kept': nat)
      requires Valid() && HDR <= at && at + |p| <= BUF_LEN && IsRecord(p) && Sized(choice)
      requires out[HDR..at] == Flat(done) && kept == |done|
      modifies out
      ensures at <= at' <= at + |p| && out[HDR..at'] == Flat(done + Outcome(choice, r, p))
        && kept' == |done + Outcome(choice, r, p)|
    {
      match choice(r, p) {
        case Drop =>
          assert done + [] == done;
          return at, kept;
        case Keep =>
          Append(at, p, done);
          return at + |p|, kept + 1;
        case Edit(to) =>
          Append(at, to, done);
          return at + |to|, kept + 1;
      }
    }

    /** Record r of the file in buf, at i. */
    method Record(i: nat, n: nat, ghost rs: seq<Rec>, ghost r: nat) returns (p: Rec)
      requires Valid() && HDR <= n <= BUF_LEN && AllRecords(rs) && buf[..n][HDR..] == Flat(rs)
      requires r < |rs| && i == HDR + |Flat(rs[..r])|
      ensures p == rs[r] && i + |p| <= n && i + |p| == HDR + |Flat(rs[..r + 1])|
    {
      RecordInFile(buf[..n], rs, r, i);
      var size := Be32(buf[..n], i + 16);
      return buf[..n][i..i + size];
    }

    /** The record at index k of the file in buf. */
    method RecordNumber(n: nat, ghost rs: seq<Rec>, k: nat) returns (r: Rec)
      requires Valid() && n > 0 && Opened(n, rs) && AllRecords(rs) && k < |rs|
      ensures r == rs[k]
    {
      var at, j := HDR, 0;
      while true
        invariant 0 <= j <= k && at == HDR + |Flat(rs[..j])|
        decreases k - j
      {
        r := Record(at, n, rs, j);
        if j == k { return; }
        at, j := at + |r|, j + 1;
      }
    }

    /** One more record behind those laid out. */
    method Append(at: nat, p: Rec, ghost rs: seq<Rec>)
      requires Valid() && HDR <= at && at + |p| <= BUF_LEN && out[HDR..at] == Flat(rs)
      modifies out
      ensures out[HDR..at + |p|] == Flat(rs + [p])
    {
      Put(at, p);
      FlatPush(rs, p);
    }

    /** A new record behind those laid out, if it fits. */
    method Add(at: nat, kept: nat, r: Rec, ghost rs: seq<Rec>) returns (ok: bool, at': nat, kept': nat)
      requires Valid() && HDR <= at <= BUF_LEN && out[HDR..at] == Flat(rs) && kept == |rs|
      modifies out
      ensures ok <==> HDR + |Flat(rs + [r])| <= BUF_LEN
      ensures ok ==> at <= at' <= BUF_LEN && out[HDR..at'] == Flat(rs + [r]) && kept' == |rs + [r]|
    {
      FlatPush(rs, r);
      if at + |r| > BUF_LEN { return false, at, kept; }
      Append(at, r, rs);
      return true, at + |r|, kept + 1;
    }

    /** The header before the records laid out, then the file. */
    method WriteStore(kind: byte, at: nat, kept: nat, w: Write, ghost rs: seq<Rec>) returns (f: File)
      requires Valid() && HDR <= at <= BUF_LEN && out[HDR..at] == Flat(rs) && kept == |rs|
      modifies out
      ensures f == if w.Completed? then Present(FileOf(kind, rs, crc)) else w.left
    {
      ghost var was, front := out[..], Front(kind, kept, at);
      Put(0, Front(kind, kept, at) + Zeros(4) + Signature());
      ghost var now := out[..];
      HeaderLaid(was, now, front, at, Flat(rs));
      var sum := crc(out[..][20..at]);
      Put(16, Enc32(sum));
      SumLaid(now, out[..], front, Enc32(sum), at, Covered(Flat(rs)));
      assert out[..at] == out[..][..at] == FileOf(kind, rs, crc);
      f := if w.Completed? then Present(out[..at]) else w.left;
    }

    // ---- whole writers -------------------------------------------------------------

    /** The writers whose new records owe nothing to the old: the file without what
        they own, then theirs. */
    method Replace(p: Pair, kind: byte, choice: Choice, added: seq<Rec>, w: Write) returns (q: Pair, err: nat)
      requires Valid() && Sized(choice)
      modifies buf, out
      ensures Wrote(p, q, kind, choice, added, w, err, crc)
    {
      var n := Open(p);
      if n < 0 { return p, 2; }
      ghost var rs := Records(p, crc);
      var at, kept := Rewrite(n, choice, rs);
      q, err := Finish(p, kind, at, kept, added, w, Survivors(rs, choice));
    }

    /** The new records, the header and the write. */
    method Finish(p: Pair, kind: byte, at: nat, kept: nat, added: seq<Rec>, w: Write, ghost before: seq<Rec>)
      returns (q: Pair, err: nat)
      requires Valid() && HDR <= at <= BUF_LEN && out[HDR..at] == Flat(before) && kept == |before|
      modifies out
      ensures Finished(p, q, kind, before + added, w, err, crc)
    {
      var a, c, i := at, kept, 0;
      assert before + added[..0] == before;
      while i < |added|
        invariant 0 <= i <= |added| && HDR <= a <= BUF_LEN
        invariant out[HDR..a] == Flat(before + added[..i]) && c == |before + added[..i]|
      {
        var ok;
        assert before + added[..i + 1] == before + added[..i] + [added[i]];
        ok, a, c := Add(a, c, added[i], before + added[..i]);
        if !ok {
          Overflows(before, added, i + 1);
          return p, 3;
        }
        i := i + 1;
      }
      assert added[..i] == added;
      var f := WriteStore(kind, a, c, w, before + added);
      return Pair(f, p.strd), if w.Completed? then 0 else 4;
    }

    /** A store's recovery copy: .work, when it is good, becomes .strd. */
    method KeepCopy(p: Pair, kind: byte, w: Write) returns (q: Pair)
      requires Valid()
      modifies buf
      ensures q == Copied(p, kind, w, crc)
    {
      var n := Slurp(p.work);
      if n == 0 { return p; }
      var ok := Check(n);
      if !ok { return p; }
      buf[8] := kind;
      return Pair(p.work, if w.Completed? then Present(buf[..n]) else w.left);
    }
  }

  lemma HeaderLaid(was: seq<byte>, now: seq<byte>, front: seq<byte>, at: nat, body: seq<byte>)
    requires |was| == BUF_LEN && HDR <= at <= BUF_LEN && was[HDR..at] == body && |front| == 16
    requires now == was[..0] + (front + Zeros(4) + Signature()) + was[HDR..]
    ensures |now| == BUF_LEN && now[..16] == front && now[20..at] == Covered(body)
  {
    var head := front + Zeros(4) + Signature();
    assert now == head + was[HDR..];
    assert now[..16] == head[..16] == front;
    assert now[20..HDR] == head[20..HDR] == Signature();
    assert now[HDR..at] == was[HDR..at];
    assert now[20..at] == now[20..HDR] + now[HDR..at];
  }

  lemma SumLaid(now: seq<byte>, final: seq<byte>, front: seq<byte>, sum: seq<byte>, at: nat, covered: seq<byte>)
    requires |now| == BUF_LEN && HDR <= at <= BUF_LEN && now[..16] == front && now[20..at] == covered && |sum| == 4
    requires final == now[..16] + sum + now[20..]
    ensures |final| == BUF_LEN && final[..at] == front + sum + covered
  {
    assert now[20..] == covered + now[at..];
    assert final == (front + sum + covered) + now[at..];
  }

  function Copied(p: Pair, kind: byte, w: Write, crc: Crc): Pair {
    if !Good(p.work, crc) then p
    else Pair(p.work, if w.Completed? then Present(Readable(p.work).value[8 := kind]) else w.left)
  }

  /** A whole copy is what is read of a good .work, but for the kind; .work stays, and a bad
      one is not copied. */
  lemma CopyIs(p: Pair, kind: byte, crc: Crc)
    ensures var q := Copied(p, kind, Completed, crc);
      && q.work == p.work && (!Good(p.work, crc) ==> q == p)
      && (Good(p.work, crc) ==>
            var b := Readable(p.work).value;
            && q.strd.Present? && |q.strd.bytes| == |b| && q.strd.bytes[8] == kind
            && forall i | 0 <= i < |b| && i != 8 :: q.strd.bytes[i] == b[i])
  {
  }

  lemma CopyIsGood(p: Pair, kind: byte, crc: Crc)
    requires Good(p.work, crc)
    ensures var f := Present(Readable(p.work).value[8 := kind]);
      Good(f, crc) && RecordsOf(Readable(f).value, crc) == RecordsOf(Readable(p.work).value, crc)
  {
    var b := Readable(p.work).value;
    KindIsFree(b, kind, crc);
    ReadWhole(b[8 := kind], crc);
  }

  lemma Overflows(before: seq<Rec>, added: seq<Rec>, i: nat)
    requires i <= |added| && HDR + |Flat(before + added[..i])| > BUF_LEN
    ensures HDR + |Flat(before + added)| > BUF_LEN
  {
    assert before + added == before + added[..i] + added[i..];
    FlatJoin(before + added[..i], added[i..]);
  }

  lemma Advance(rs: seq<Rec>, r: nat, choice: Choice)
    requires r < |rs| && AllRecords(rs) && Sized(choice)
    ensures Survivors(rs[..r + 1], choice) == Survivors(rs[..r], choice) + Outcome(choice, r, rs[r])
    ensures |Flat(rs[..r + 1])| == |Flat(rs[..r])| + |rs[r]|
  {
    assert rs[..r + 1][..r] == rs[..r];
    assert rs[..r + 1] == rs[..r] + [rs[r]];
    FlatPush(rs[..r], rs[r]);
  }
}
