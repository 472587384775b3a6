/** BRAIN's templates (brain.c, `nth_in`, `same_name`, `write_template`): named
    records found by their place among their target's, deleted, renamed and saved. */
module TemplateStore {
  import opened Words
  import opened Bytes
  import opened RecordFile
  import opened CardStore
  import opened StoreWriters

  const K_TEMPLATE := 3
  const TPL_NAME := 8
  const TPL_MAX := 64

  /** What a template is of: an id and a layout. */
  datatype Target = Target(id: seq<byte>, layout: u32)

  predicate IsTemplate(r: Rec, t: Target) {
    IsRecord(r) && Owned(r, K_TEMPLATE, t.id) && |Payload(r)| >= 16 && Be32(Payload(r), 4) == t.layout
  }

  function Of(t: Target): Rec -> bool {
    (r: Rec) => IsTemplate(r, t)
  }

  /** A template of the target under this name. */
  function Called(t: Target, name: seq<byte>): Rec -> bool {
    (r: Rec) => IsTemplate(r, t) && Payload(r)[8..16] == name
  }

  // ---- finding one --------------------------------------------------------------------

  /** Where the records that are `of` the target lie. */
  function Places(rs: seq<Rec>, of: Rec -> bool): (ks: seq<nat>)
    ensures forall j | 0 <= j < |ks| :: ks[j] < |rs| && of(rs[ks[j]])
  {
    if rs == [] then [] else Places(rs[..|rs| - 1], of) + if of(rs[|rs| - 1]) then [|rs| - 1] else []
  }

  function Nth(rs: seq<Rec>, of: Rec -> bool, i: nat): Option<nat> {
    if i < |Places(rs, of)| then Some(Places(rs, of)[i]) else None
  }

  /** The first of the places from the j-th on, up to the 64th, whose record is
      `called` so. */
  function FirstCalled(rs: seq<Rec>, of: Rec -> bool, called: Rec -> bool, j: nat): (k: Option<nat>)
    ensures k.Some? ==> k.value < |rs| && of(rs[k.value]) && called(rs[k.value])
    decreases TPL_MAX - j
  {
    var ks := Places(rs, of);
    if j >= TPL_MAX || j >= |ks| then None
    else if called(rs[ks[j]]) then Some(ks[j])
    else FirstCalled(rs, of, called, j + 1)
  }

  lemma {:induction false} PlacesGrow(rs: seq<Rec>, of: Rec -> bool, k: nat)
    requires k <= |rs|
    ensures |Places(rs[..k], of)| <= |Places(rs, of)| && Places(rs[..k], of) == Places(rs, of)[..|Places(rs[..k], of)|]
    decreases |rs|
  {
    if k == |rs| {
      assert rs[..k] == rs;
    } else {
      PlacesGrow(rs[..|rs| - 1], of, k);
      assert rs[..|rs| - 1][..k] == rs[..k];
    }
  }

  /** The index of the i-th record of the target in the file in buf. */
  method FindNth(store: Store, n: nat, ghost rs: seq<Rec>, of: Rec -> bool, i: nat) returns (k: Option<nat>)
    requires store.Valid() && store.Opened(n, rs) && AllRecords(rs)
    ensures k == Nth(rs, of, i)
  {
    if n == 0 { return None; }
    var count, at, r, left: int := Be16(store.buf[..n], 10), HDR, 0, i;
    while r < count
      invariant 0 <= r <= count && at == HDR + |Flat(rs[..r])| && left >= 0
      invariant left == i - |Places(rs[..r], of)|
    {
      var p := store.Record(at, n, rs, r);
      PlacesPush(rs, of, r);
      if of(p) {
        if left == 0 {
          NthFound(rs, of, i, r);
          return Some(r);
        }
        left := left - 1;
      }
      at, r := at + |p|, r + 1;
    }
    assert rs[..r] == rs;
    return None;
  }

  lemma NthFound(rs: seq<Rec>, of: Rec -> bool, i: nat, r: nat)
    requires r < |rs| && of(rs[r]) && i == |Places(rs[..r], of)|
    ensures Nth(rs, of, i) == Some(r)
  {
    PlacesPush(rs, of, r);
    PlacesGrow(rs, of, r + 1);
  }

  lemma PlacesPush(rs: seq<Rec>, of: Rec -> bool, r: nat)
    requires r < |rs|
    ensures Places(rs[..r + 1], of) == Places(rs[..r], of) + if of(rs[r]) then [r] else []
  {
    assert rs[..r + 1][..r] == rs[..r];
  }

  /** The index of the template a save replaces. */
  method FindCalled(store: Store, n: nat, ghost rs: seq<Rec>, of: Rec -> bool, called: Rec -> bool)
    returns (k: Option<nat>)
    requires store.Valid() && store.Opened(n, rs) && AllRecords(rs)
    ensures k == FirstCalled(rs, of, called, 0)
  {
    if n == 0 { return None; }
    var j := 0;
    while j < TPL_MAX
      invariant 0 <= j <= TPL_MAX && FirstCalled(rs, of, called, 0) == FirstCalled(rs, of, called, j)
    {
      k := FindNth(store, n, rs, of, j);
      if k.None? { return None; }
      var r := store.RecordNumber(n, rs, k.value);
      if called(r) { return k; }
      j := j + 1;
    }
    return None;
  }

  // ---- renaming one ---------------------------------------------------------------------

  function PayloadAt(r: Rec): nat
    requires IsRecord(r)
  {
    REC_HDR + Align4(r[1])
  }

  /** The record with another payload of the same length, and its checksum. */
  function WithPayload(r: Rec, pay: seq<byte>, crc: Crc): (s: Rec)
    requires IsRecord(r) && |pay| == |Payload(r)|
    ensures |s| == |r|
  {
    r[..12] + Enc32(crc(pay)) + r[16..PayloadAt(r)] + pay + r[PayloadAt(r) + |pay|..]
  }

  lemma WithPayloadIsRecord(r: Rec, pay: seq<byte>, crc: Crc)
    requires IsRecord(r) && |pay| == |Payload(r)|
    ensures var s := WithPayload(r, pay, crc);
      IsRecord(s) && s[..12] == r[..12] && Be32(s, 8) == Be32(r, 8) && s[16..PayloadAt(r)] == r[16..PayloadAt(r)]
  {
    var s, at := WithPayload(r, pay, crc), PayloadAt(r);
    assert s[..12] == r[..12] && s[16..at] == r[16..at];
    assert s[8..12] == s[..12][8..12] == r[..12][8..12] == r[8..12];
    SameWord(s, r, 8);
    assert s[16..20] == s[16..at][..4] == r[16..20];
    SameWord(s, r, 16);
    assert s[1] == s[..12][1];
  }

  lemma WithPayloadReads(r: Rec, pay: seq<byte>, crc: Crc)
    requires IsRecord(r) && |pay| == |Payload(r)|
    ensures var s := WithPayload(r, pay, crc);
      IsRecord(s) && Kind(s) == Kind(r) && Id(s) == Id(r) && Schema(s) == Schema(r) && Payload(s) == pay
        && Intact(s, crc)
  {
    var s, at := WithPayload(r, pay, crc), PayloadAt(r);
    WithPayloadIsRecord(r, pay, crc);
    assert s[12..16] == Enc32(crc(pay)) && s[at..at + |pay|] == pay;
    Read32(s, 12, crc(pay));
    assert s[0] == s[..12][0] && s[1] == s[..12][1] && s[2] == s[..12][2] && s[3] == s[..12][3];
    assert s[20..20 + r[1]] == s[16..at][4..4 + r[1]];
    assert r[20..20 + r[1]] == r[16..at][4..4 + r[1]];
    assert Id(s) == s[20..20 + r[1]] && Id(r) == r[20..20 + r[1]];
    assert Payload(s) == s[at..at + |pay|];
  }

  /** The template under another name. */
  function Renamed(r: Rec, name: seq<byte>, crc: Crc): Rec
    requires IsRecord(r) && |Payload(r)| >= 16 && |name| == TPL_NAME
  {
    WithPayload(r, Payload(r)[..8] + name + Payload(r)[16..], crc)
  }

  /** Record k under another name. */
  function RenameAt(k: nat, name: seq<byte>, crc: Crc): Choice
    requires |name| == TPL_NAME
  {
    (j: nat, r: Rec) => if j == k && IsRecord(r) && |Payload(r)| >= 16 then Edit(Renamed(r, name, crc)) else Keep
  }

  lemma RenamedFits(r: Rec, name: seq<byte>, crc: Crc)
    requires IsRecord(r) && |Payload(r)| >= 16 && |name| == TPL_NAME
    ensures IsRecord(Renamed(r, name, crc)) && |Renamed(r, name, crc)| == |r|
  {
    WithPayloadReads(r, Payload(r)[..8] + name + Payload(r)[16..], crc);
  }

  lemma RenameIsSized(k: nat, name: seq<byte>, crc: Crc)
    requires |name| == TPL_NAME
    ensures Sized(RenameAt(k, name, crc))
  {
    var choice := RenameAt(k, name, crc);
    forall j: nat, r: Rec | IsRecord(r) && choice(j, r).Edit?
      ensures IsRecord(choice(j, r).to) && |choice(j, r).to| == |r|
    {
      assert |Payload(r)| >= 16 && choice(j, r).to == Renamed(r, name, crc);
      RenamedFits(r, name, crc);
    }
  }

  /** A renamed template is its target's still, under the new name, intact, and the
      same but for the name. */
  lemma RenamedReads(r: Rec, t: Target, name: seq<byte>, crc: Crc)
    requires IsTemplate(r, t) && |name| == TPL_NAME
    ensures var s := Renamed(r, name, crc);
      && Called(t, name)(s) && Intact(s, crc) && |s| == |r|
      && Payload(s)[..8] == Payload(r)[..8] && Payload(s)[16..] == Payload(r)[16..]
  {
    var was, pay := Payload(r), Payload(r)[..8] + name + Payload(r)[16..];
    WithPayloadReads(r, pay, crc);
    assert pay[4..8] == was[4..8];
    SameWord(pay, was, 4);
  }

  // ---- the writer -------------------------------------------------------------------------

  /** The new template: its target's prefix, its name and then its values. */
  function TemplatePayload(t: Target, name: seq<byte>, values: seq<byte>): seq<byte> {
    Enc16(0) + Enc16(NO_MODE) + Enc32(t.layout) + name + values
  }

  function NewTemplate(t: Target, name: seq<byte>, values: seq<byte>, crc: Crc): Rec
    requires |t.id| <= 63
  {
    NewRecord(K_TEMPLATE, t.id, TemplatePayload(t, name, values), crc)
  }

  lemma TemplateReads(t: Target, name: seq<byte>, values: seq<byte>, crc: Crc)
    requires 1 <= |t.id| <= 63 && |name| == TPL_NAME && |TemplatePayload(t, name, values)| < BUF_LEN
    ensures var r := NewTemplate(t, name, values, crc);
      IsRecord(r) && Called(t, name)(r) && Intact(r, crc) && Payload(r)[16..] == values
  {
    var pay := TemplatePayload(t, name, values);
    NewRecordReads(K_TEMPLATE, t.id, pay, crc);
    assert pay[4..8] == Enc32(t.layout) && pay[8..16] == name && pay[16..] == values;
    Read32(pay, 4, t.layout);
  }

  /** DELETE: the i-th template of the target goes; 1 when there is none. */
  method DeleteTemplate(store: Store, p: Pair, t: Target, i: nat, w: Write) returns (q: Pair, err: nat)
    requires store.Valid()
    modifies store.buf, store.out
    ensures var k := Nth(Records(p, store.crc), Of(t), i);
      if Current(p, store.crc).Damaged? then err == 2 && q == p
      else if k.None? then err == 1 && q == p
      else Wrote(p, q, 0, DropAt(k), [], w, err, store.crc)
  {
    var n := store.Open(p);
    if n < 0 { return p, 2; }
    ghost var rs := Records(p, store.crc);
    var k := FindNth(store, n, rs, Of(t), i);
    if k.None? { return p, 1; }
    DropAtIsSized(k);
    q, err := Rewritten(store, p, n, DropAt(k), [], w, rs);
  }

  /** RENAME: the i-th template of the target under another name. */
  method RenameTemplate(store: Store, p: Pair, t: Target, i: nat, name: seq<byte>, w: Write) returns (q: Pair, err: nat)
    requires store.Valid() && |name| == TPL_NAME
    modifies store.buf, store.out
    ensures var k := Nth(Records(p, store.crc), Of(t), i);
      if Current(p, store.crc).Damaged? then err == 2 && q == p
      else if k.None? then err == 1 && q == p
      else Wrote(p, q, 0, RenameAt(k.value, name, store.crc), [], w, err, store.crc)
  {
    var n := store.Open(p);
    if n < 0 { return p, 2; }
    ghost var rs := Records(p, store.crc);
    var k := FindNth(store, n, rs, Of(t), i);
    if k.None? { return p, 1; }
    RenameIsSized(k.value, name, store.crc);
    q, err := Rewritten(store, p, n, RenameAt(k.value, name, store.crc), [], w, rs);
  }

  /** SAVE: a template of the target under this name is replaced, if it is found. */
  method SaveTemplate(store: Store, p: Pair, t: Target, name: seq<byte>, values: seq<byte>, w: Write)
    returns (q: Pair, err: nat)
    requires store.Valid() && 1 <= |t.id| <= 63 && |name| == TPL_NAME
    modifies store.buf, store.out
    ensures Wrote(p, q, 0, DropAt(FirstCalled(Records(p, store.crc), Of(t), Called(t, name), 0)),
                  [NewTemplate(t, name, values, store.crc)], w, err, store.crc)
  {
    var n := store.Open(p);
    if n < 0 { return p, 2; }
    ghost var rs := Records(p, store.crc);
    var k := FindCalled(store, n, rs, Of(t), Called(t, name));
    DropAtIsSized(k);
    q, err := Rewritten(store, p, n, DropAt(k), [NewTemplate(t, name, values, store.crc)], w, rs);
  }

  method Rewritten(store: Store, p: Pair, n: nat, choice: Choice, added: seq<Rec>, w: Write, ghost rs: seq<Rec>)
    returns (q: Pair, err: nat)
    requires store.Valid() && store.Opened(n, rs) && Sized(choice) && rs == Records(p, store.crc)
      && !Current(p, store.crc).Damaged?
    modifies store.out
    ensures Wrote(p, q, 0, choice, added, w, err, store.crc)
  {
    var at, kept := store.Rewrite(n, choice, rs);
    q, err := store.Finish(p, 0, at, kept, added, w, Survivors(rs, choice));
  }

  // ---- what the file then holds -----------------------------------------------------------

  /** Dropping record k takes it out and leaves the rest in order. */
  lemma {:induction false} DroppedAt(rs: seq<Rec>, k: nat)
    requires k < |rs|
    ensures Survivors(rs, DropAt(Some(k))) == rs[..k] + rs[k + 1..]
  {
    var n := |rs| - 1;
    if k == n {
      NoneDropped(rs[..n], Some(k));
    } else {
      DroppedAt(rs[..n], k);
    }
  }

  /** A choice that edits record k and keeps the others. */
  ghost predicate EditsOnly(choice: Choice, rs: seq<Rec>, k: nat, to: Rec) {
    forall j | 0 <= j < |rs| :: choice(j, rs[j]) == if j == k then Edit(to) else Keep
  }

  lemma {:induction false} EditedAt(rs: seq<Rec>, choice: Choice, k: nat, to: Rec)
    requires EditsOnly(choice, rs, k, to)
    ensures Survivors(rs, choice) == if k < |rs| then rs[k := to] else rs
  {
    if rs != [] {
      var n := |rs| - 1;
      var init := rs[..n];
      EditsOnlyFront(rs, choice, k, to);
      EditedAt(init, choice, k, to);
      EndEdited(rs, n, k, to);
    }
  }

  lemma EditsOnlyFront(rs: seq<Rec>, choice: Choice, k: nat, to: Rec)
    requires rs != [] && EditsOnly(choice, rs, k, to)
    ensures var n := |rs| - 1;
      EditsOnly(choice, rs[..n], k, to) && Outcome(choice, n, rs[n]) == [if n == k then to else rs[n]]
  {
    assert choice(|rs| - 1, rs[|rs| - 1]) == if |rs| - 1 == k then Edit(to) else Keep;
  }

  lemma EndEdited(rs: seq<Rec>, n: nat, k: nat, to: Rec)
    requires |rs| == n + 1
    ensures (if k < n then rs[..n][k := to] else rs[..n]) + [if n == k then to else rs[n]]
         == if k < |rs| then rs[k := to] else rs
  {
  }

  /** The card's file after a writer that leaves the records `rs`. */
  ghost predicate Leaves(was: Pair, p: Pair, rs: seq<Rec>, crc: Crc) {
    Good(p.work, crc) && p.strd == was.strd && Records(p, crc) == rs
  }

  lemma LeavesSurvivors(was: Pair, p: Pair, choice: Choice, w: Write, crc: Crc)
    requires Wrote(was, p, 0, choice, [], w, 0, crc) && Sized(choice)
    ensures Leaves(was, p, Survivors(Records(was, crc), choice), crc)
  {
    WriterKeepsContainer(was, p, 0, choice, [], w, 0, crc);
    assert Survivors(Records(was, crc), choice) + [] == Survivors(Records(was, crc), choice);
  }

  /** After DELETE the file is good and holds every other record, in order. */
  lemma TemplateDeleted(was: Pair, p: Pair, t: Target, i: nat, k: nat, w: Write, crc: Crc)
    requires Nth(Records(was, crc), Of(t), i) == Some(k) && Wrote(was, p, 0, DropAt(Some(k)), [], w, 0, crc)
    ensures var rs := Records(was, crc);
      k < |rs| && IsTemplate(rs[k], t) && Leaves(was, p, rs[..k] + rs[k + 1..], crc)
  {
    DropAtIsSized(Some(k));
    LeavesSurvivors(was, p, DropAt(Some(k)), w, crc);
    DroppedAt(Records(was, crc), k);
  }

  /** After RENAME that template has the name, and every other record is as it was. */
  lemma TemplateRenamed(was: Pair, p: Pair, t: Target, i: nat, k: nat, name: seq<byte>, w: Write, crc: Crc)
    requires |name| == TPL_NAME
    requires Nth(Records(was, crc), Of(t), i) == Some(k) && Wrote(was, p, 0, RenameAt(k, name, crc), [], w, 0, crc)
    ensures var rs := Records(was, crc);
      && k < |rs| && IsTemplate(rs[k], t)
      && var to := Renamed(rs[k], name, crc); Called(t, name)(to) && Leaves(was, p, rs[k := to], crc)
  {
    var rs := Records(was, crc);
    RenameIsSized(k, name, crc);
    LeavesSurvivors(was, p, RenameAt(k, name, crc), w, crc);
    EditedAt(rs, RenameAt(k, name, crc), k, Renamed(rs[k], name, crc));
    RenamedReads(rs[k], t, name, crc);
  }

  /** After SAVE the file is good and ends in the new template; before it lies every
      record but the one found under the name. */
  lemma TemplateSaved(was: Pair, p: Pair, t: Target, name: seq<byte>, values: seq<byte>, w: Write, crc: Crc)
    requires 1 <= |t.id| <= 63 && |name| == TPL_NAME
    requires var k := FirstCalled(Records(was, crc), Of(t), Called(t, name), 0);
      Wrote(was, p, 0, DropAt(k), [NewTemplate(t, name, values, crc)], w, 0, crc)
    ensures var rs, k := Records(was, crc), FirstCalled(Records(was, crc), Of(t), Called(t, name), 0);
      && Good(p.work, crc) && p.strd == was.strd && Called(t, name)(NewTemplate(t, name, values, crc))
      && Records(p, crc) == (if k.Some? then rs[..k.value] + rs[k.value + 1..] else rs)
        + [NewTemplate(t, name, values, crc)]
  {
    var rs, k := Records(was, crc), FirstCalled(Records(was, crc), Of(t), Called(t, name), 0);
    AddedFits(was, p, 0, DropAt(k), [NewTemplate(t, name, values, crc)], w, 0, crc);
    TemplateReads(t, name, values, crc);
    DropAtIsSized(k);
    WriterKeepsContainer(was, p, 0, DropAt(k), [NewTemplate(t, name, values, crc)], w, 0, crc);
    if k.Some? { DroppedAt(rs, k.value); } else { NoneDropped(rs, k); }
  }

  // ---- whether a save replaces ------------------------------------------------------------

  lemma {:induction false} NoneDropped(rs: seq<Rec>, at: Option<nat>)
    requires at.Some? ==> at.value >= |rs|
    ensures Survivors(rs, DropAt(at)) == rs
  {
    if rs != [] {
      NoneDropped(rs[..|rs| - 1], at);
      assert rs == rs[..|rs| - 1] + [rs[|rs| - 1]];
    }
  }

  lemma {:induction false} OneDropped(rs: seq<Rec>, k: nat, called: Rec -> bool)
    requires k < |rs| && called(rs[k])
    ensures |Part(Survivors(rs, DropAt(Some(k))), called, true)| == |Part(rs, called, true)| - 1
  {
    var n := |rs| - 1;
    if k == n {
      NoneDropped(rs[..n], Some(k));
      assert Survivors(rs, DropAt(Some(k))) == rs[..n];
    } else {
      OneDropped(rs[..n], k, called);
      PartJoin(Survivors(rs[..n], DropAt(Some(k))), [rs[n]], called, true);
      PartOne(rs[n], called);
    }
  }

  /** A save leaves one template more under the name, less the one it finds. */
  lemma SaveCounts(was: Pair, p: Pair, t: Target, name: seq<byte>, values: seq<byte>, w: Write, crc: Crc)
    requires 1 <= |t.id| <= 63 && |name| == TPL_NAME
    requires var k := FirstCalled(Records(was, crc), Of(t), Called(t, name), 0);
      Wrote(was, p, 0, DropAt(k), [NewTemplate(t, name, values, crc)], w, 0, crc)
    ensures |Part(Records(p, crc), Called(t, name), true)|
         == |Part(Records(was, crc), Called(t, name), true)|
            + if FirstCalled(Records(was, crc), Of(t), Called(t, name), 0).Some? then 0 else 1
  {
    var rs, called := Records(was, crc), Called(t, name);
    var k, r := FirstCalled(rs, Of(t), called, 0), NewTemplate(t, name, values, crc);
    AddedFits(was, p, 0, DropAt(k), [r], w, 0, crc);
    TemplateReads(t, name, values, crc);
    DropAtIsSized(k);
    WriterKeepsContainer(was, p, 0, DropAt(k), [r], w, 0, crc);
    PartJoin(Survivors(rs, DropAt(k)), [r], called, true);
    PartOne(r, called);
    if k.Some? { OneDropped(rs, k.value, called); } else { NoneDropped(rs, k); }
  }

  /** So after a save there is exactly one template of the name if and only if there
      was none, or one and it was among the target's first 64. */
  lemma SaveReplacesExactly(was: Pair, p: Pair, t: Target, name: seq<byte>, values: seq<byte>, w: Write, crc: Crc)
    requires 1 <= |t.id| <= 63 && |name| == TPL_NAME
    requires var k := FirstCalled(Records(was, crc), Of(t), Called(t, name), 0);
      Wrote(was, p, 0, DropAt(k), [NewTemplate(t, name, values, crc)], w, 0, crc)
    ensures var before := Part(Records(was, crc), Called(t, name), true);
      |Part(Records(p, crc), Called(t, name), true)| == 1
      <==> before == [] || (|before| == 1 && AmongFirst(Records(was, crc), Of(t), Called(t, name)))
  {
    var rs, called := Records(was, crc), Called(t, name);
    SaveCounts(was, p, t, name, values, w, crc);
    FoundMeans(rs, Of(t), called);
  }

  lemma FoundMeans(rs: seq<Rec>, of: Rec -> bool, called: Rec -> bool)
    ensures FirstCalled(rs, of, called, 0).Some? <==> AmongFirst(rs, of, called)
    ensures FirstCalled(rs, of, called, 0).Some? ==> |Part(rs, called, true)| >= 1
  {
    FoundAmongFirst(rs, of, called, 0);
    var k := FirstCalled(rs, of, called, 0);
    if k.Some? { OneDropped(rs, k.value, called); }
  }

  /** Some record called so is among the first 64 of the target, from the j-th on. */
  ghost predicate CalledFrom(rs: seq<Rec>, of: Rec -> bool, called: Rec -> bool, j: nat) {
    exists i | j <= i < |Places(rs, of)| && i < TPL_MAX :: called(rs[Places(rs, of)[i]])
  }

  ghost predicate AmongFirst(rs: seq<Rec>, of: Rec -> bool, called: Rec -> bool) {
    CalledFrom(rs, of, called, 0)
  }

  lemma {:induction false} FoundAmongFirst(rs: seq<Rec>, of: Rec -> bool, called: Rec -> bool, j: nat)
    ensures FirstCalled(rs, of, called, j).Some? <==> CalledFrom(rs, of, called, j)
    decreases TPL_MAX - j
  {
    if j < TPL_MAX && j < |Places(rs, of)| && !called(rs[Places(rs, of)[j]]) {
      FoundAmongFirst(rs, of, called, j + 1);
    }
  }

  // ---- a file that is not so -----------------------------------------------------------------

  lemma {:induction false} AllPlaces(rs: seq<Rec>, of: Rec -> bool)
    requires forall j | 0 <= j < |rs| :: of(rs[j])
    ensures |Places(rs, of)| == |rs| && forall j | 0 <= j < |rs| :: Places(rs, of)[j] == j
  {
    if rs != [] {
      var init := rs[..|rs| - 1];
      assert forall j | 0 <= j < |init| :: init[j] == rs[j];
      AllPlaces(init, of);
    }
  }

  lemma {:induction false} NoneOwned(rs: seq<Rec>, owned: Rec -> bool)
    requires forall i | 0 <= i < |rs| :: !owned(rs[i])
    ensures Part(rs, owned, true) == []
  {
    if rs != [] {
      var init := rs[..|rs| - 1];
      assert forall j | 0 <= j < |init| :: init[j] == rs[j];
      NoneOwned(init, owned);
    }
  }

  /** Behind 64 others of its target, a record is not found. */
  lemma BeyondFirst(rs: seq<Rec>, of: Rec -> bool, called: Rec -> bool)
    requires |rs| > TPL_MAX && (forall j | 0 <= j < |rs| :: of(rs[j])) && forall j | 0 <= j < TPL_MAX :: !called(rs[j])
    ensures FirstCalled(rs, of, called, 0) == None
  {
    AllPlaces(rs, of);
    FoundAmongFirst(rs, of, called, 0);
  }

  /** Sixty-five names, no two alike: a letter and two digits, filled with spaces. */
  function NumberedName(i: nat): (name: seq<byte>)
    requires i <= 99
    ensures |name| == TPL_NAME
  {
    [84, 48 + i / 10, 48 + i % 10, 32, 32, 32, 32, 32]
  }

  lemma NamesDiffer(i: nat, j: nat)
    requires i < j <= 99
    ensures NumberedName(i) != NumberedName(j)
  {
    assert NumberedName(i)[1] == 48 + i / 10 && NumberedName(i)[2] == 48 + i % 10;
    assert NumberedName(j)[1] == 48 + j / 10 && NumberedName(j)[2] == 48 + j % 10;
  }

  function Numbered(t: Target, i: nat, crc: Crc): Rec
    requires |t.id| <= 63 && i <= 99
  {
    NewTemplate(t, NumberedName(i), [], crc)
  }

  function Crowd(t: Target, n: nat, crc: Crc): (rs: seq<Rec>)
    requires |t.id| <= 63 && n <= 100
    ensures |rs| == n && forall i | 0 <= i < n :: rs[i] == Numbered(t, i, crc)
  {
    if n == 0 then [] else Crowd(t, n - 1, crc) + [Numbered(t, n - 1, crc)]
  }

  lemma NumberedIs(t: Target, i: nat, crc: Crc)
    requires 1 <= |t.id| <= 63 && i <= 99
    ensures var r := Numbered(t, i, crc);
      IsRecord(r) && |r| <= 100 && forall j | 0 <= j <= 99 :: Called(t, NumberedName(j))(r) <==> j == i
  {
    TemplateReads(t, NumberedName(i), [], crc);
    forall j | 0 <= j <= 99 ensures Called(t, NumberedName(j))(Numbered(t, i, crc)) <==> j == i {
      if i < j { NamesDiffer(i, j); } else if j < i { NamesDiffer(j, i); }
    }
  }

  lemma {:induction false} CrowdFits(t: Target, n: nat, crc: Crc)
    requires 1 <= |t.id| <= 63 && n <= 100
    ensures AllRecords(Crowd(t, n, crc)) && |Flat(Crowd(t, n, crc))| <= 100 * n
  {
    if n > 0 {
      CrowdFits(t, n - 1, crc);
      NumberedIs(t, n - 1, crc);
      FlatPush(Crowd(t, n - 1, crc), Numbered(t, n - 1, crc));
    }
  }

  /** A card after n saves, each under a name of its own. */
  function CardOf(t: Target, n: nat, crc: Crc): Pair
    requires |t.id| <= 63 && n <= 100
  {
    Pair(if n == 0 then Absent else Present(FileOf(0, Crowd(t, n, crc), crc)), Absent)
  }

  lemma CardHolds(t: Target, n: nat, crc: Crc)
    requires 1 <= |t.id| <= 63 && n <= 100
    ensures Records(CardOf(t, n, crc), crc) == Crowd(t, n, crc) && !Current(CardOf(t, n, crc), crc).Damaged?
  {
    CrowdFits(t, n, crc);
    if n > 0 { WrittenIsGood(0, Crowd(t, n, crc), crc); }
  }

  lemma NotFoundYet(t: Target, n: nat, crc: Crc)
    requires 1 <= |t.id| <= 63 && n <= 99
    ensures FirstCalled(Crowd(t, n, crc), Of(t), Called(t, NumberedName(n)), 0) == None
  {
    var rs, called := Crowd(t, n, crc), Called(t, NumberedName(n));
    FoundMeans(rs, Of(t), called);
    forall i | 0 <= i < n ensures !called(rs[i]) { NumberedIs(t, i, crc); }
  }

  /** Saving under a new name appends it: so the saves lead from one card to the next,
      from the empty one on. */
  lemma SavesFillCard(t: Target, n: nat, q: Pair, err: nat, crc: Crc)
    requires 1 <= |t.id| <= 63 && n <= 99
    requires Saves(CardOf(t, n, crc), q, t, NumberedName(n), [], Completed, err, crc)
    ensures err == 0 && q == CardOf(t, n + 1, crc)
  {
    CardHolds(t, n, crc);
    NotFoundYet(t, n, crc);
    NoneDropped(Crowd(t, n, crc), None);
    CrowdFits(t, n + 1, crc);
    assert Crowd(t, n + 1, crc) == Crowd(t, n, crc) + [Numbered(t, n, crc)];
  }

  /** What `SaveTemplate` does to a pair. */
  ghost predicate Saves(p: Pair, q: Pair, t: Target, name: seq<byte>, values: seq<byte>, w: Write, err: nat, crc: Crc)
    requires |t.id| <= 63
  {
    var k := FirstCalled(Records(p, crc), Of(t), Called(t, name), 0);
    Wrote(p, q, 0, DropAt(k), [NewTemplate(t, name, values, crc)], w, err, crc)
  }

  lemma CrowdCounts(t: Target, crc: Crc)
    requires 1 <= |t.id| <= 63
    ensures var rs, called := Crowd(t, 65, crc), Called(t, NumberedName(64));
      |Part(rs, called, true)| == 1 && FirstCalled(rs, Of(t), called, 0) == None
  {
    var rs, called := Crowd(t, 65, crc), Called(t, NumberedName(64));
    forall j | 0 <= j < 65 ensures Of(t)(rs[j]) && (called(rs[j]) <==> j == 64) { NumberedIs(t, j, crc); }
    LastCounts(rs, Of(t), called);
  }

  lemma LastCounts(rs: seq<Rec>, of: Rec -> bool, called: Rec -> bool)
    requires |rs| == 65 && forall j | 0 <= j < 65 :: of(rs[j]) && (called(rs[j]) <==> j == 64)
    ensures |Part(rs, called, true)| == 1 && FirstCalled(rs, of, called, 0) == None
  {
    var init := rs[..64];
    BeyondFirst(rs, of, called);
    assert forall j | 0 <= j < 64 :: init[j] == rs[j];
    NoneOwned(init, called);
    PartJoin(init, [rs[64]], called, true);
    PartOne(rs[64], called);
    assert rs == init + [rs[64]];
  }

  lemma CrowdHasRoom(t: Target, name: seq<byte>, values: seq<byte>, crc: Crc)
    requires 1 <= |t.id| <= 63 && |name| == TPL_NAME && |values| <= 1000
    ensures HDR + |Flat(Survivors(Crowd(t, 65, crc), DropAt(None)) + [NewTemplate(t, name, values, crc)])| <= BUF_LEN
  {
    CrowdFits(t, 65, crc);
    NoneDropped(Crowd(t, 65, crc), None);
    FlatPush(Crowd(t, 65, crc), NewTemplate(t, name, values, crc));
  }

  /** On the card that 65 saves leave, a save under the last name does not find the
      template there is, and leaves two of them. */
  lemma SixtyFifthIsNotFound(t: Target, q: Pair, values: seq<byte>, err: nat, crc: Crc)
    requires 1 <= |t.id| <= 63 && |values| <= 1000
    requires Saves(CardOf(t, 65, crc), q, t, NumberedName(64), values, Completed, err, crc)
    ensures err == 0
    ensures |Part(Records(CardOf(t, 65, crc), crc), Called(t, NumberedName(64)), true)| == 1
    ensures |Part(Records(q, crc), Called(t, NumberedName(64)), true)| == 2
  {
    CardHolds(t, 65, crc);
    CrowdCounts(t, crc);
    CrowdHasRoom(t, NumberedName(64), values, crc);
    SaveCounts(CardOf(t, 65, crc), q, t, NumberedName(64), values, Completed, crc);
  }
}
