/** BRAIN's recovery pair over whole runs (brain.c, `pair_load`, `cur`,
    `write_store`, `brain_card_store`): edits write .work, saves copy a good .work
    to .strd, and any write may be torn. */
module RecoveryPair {
  import opened Words
  import opened Bytes
  import opened RecordFile
  import opened CardStore

  /** A writer's run, from the records it finds to those it would leave, none when it
      refuses; or a save's copy. */
  datatype Step =
    | Edit(kind: byte, edit: seq<Rec> -> Option<seq<Rec>>, w: Write)
    | Copy(kind: byte, w: Write)

  /** Records there are, and room for them in a file. */
  predicate HasRoom(rs: Option<seq<Rec>>) {
    rs.Some? && HDR + |Flat(rs.value)| <= BUF_LEN
  }

  /** The records a step would write, if it writes .work at all. */
  function Written(p: Pair, s: Step, crc: Crc): Option<seq<Rec>> {
    if s.Copy? || Current(p, crc).Damaged? || !HasRoom(s.edit(Records(p, crc))) then None
    else s.edit(Records(p, crc))
  }

  /** The step wrote .work, and wrote it whole. */
  predicate Done(p: Pair, s: Step, crc: Crc) {
    Written(p, s, crc).Some? && s.w.Completed?
  }

  function After(p: Pair, s: Step, crc: Crc): Pair {
    if s.Copy? then Copied(p, s.kind, s.w, crc)
    else
      match Written(p, s, crc)
      case None => p
      case Some(rs) => Pair(if s.w.Completed? then Present(FileOf(s.kind, rs, crc)) else s.w.left, p.strd)
  }

  /** Edits make records of records, when there is room. */
  ghost predicate Keeps(s: Step) {
    s.Edit? ==> forall rs | AllRecords(rs) && HasRoom(s.edit(rs)) :: AllRecords(s.edit(rs).value)
  }

  lemma WroteIsAfter(was: Pair, p: Pair, s: Step, choice: Choice, added: seq<Rec>, err: nat, crc: Crc)
    requires s.Edit? && Wrote(was, p, s.kind, choice, added, s.w, err, crc)
    requires s.edit(Records(was, crc)) == Some(Survivors(Records(was, crc), choice) + added)
    ensures p == After(was, s, crc) && (err == 0 <==> Done(was, s, crc))
  {
  }

  /** Every writer is an edit: what it drops, edits and appends. It gives no error
      exactly when the edit's write was made, and whole. */
  lemma WriterIsEdit(was: Pair, p: Pair, kind: byte, choice: Choice, added: seq<Rec>, w: Write, err: nat, crc: Crc)
    requires Wrote(was, p, kind, choice, added, w, err, crc)
    ensures var s := Step.Edit(kind, rs => Some(Survivors(rs, choice) + added), w);
      && p == After(was, s, crc) && (err == 0 <==> Done(was, s, crc))
      && (Sized(choice) && (HDR + |Flat(added)| <= BUF_LEN ==> AllRecords(added)) ==> Keeps(s))
  {
    var s := Step.Edit(kind, rs => Some(Survivors(rs, choice) + added), w);
    WroteIsAfter(was, p, s, choice, added, err, crc);
    if Sized(choice) && (HDR + |Flat(added)| <= BUF_LEN ==> AllRecords(added)) {
      forall rs | AllRecords(rs) && HasRoom(s.edit(rs)) ensures AllRecords(s.edit(rs).value) {
        RewrittenAre(rs, choice, added);
      }
    }
  }

  /** What a writer leaves is records, when it has room. */
  lemma RewrittenAre(rs: seq<Rec>, choice: Choice, added: seq<Rec>)
    requires AllRecords(rs) && Sized(choice) && HDR + |Flat(Survivors(rs, choice) + added)| <= BUF_LEN
    requires HDR + |Flat(added)| <= BUF_LEN ==> AllRecords(added)
    ensures AllRecords(Survivors(rs, choice) + added)
  {
    FlatJoin(Survivors(rs, choice), added);
    SurvivorsFit(rs, choice);
    JoinRecords(Survivors(rs, choice), added);
  }

  // ---- one step ---------------------------------------------------------------------

  predicate Loadable(p: Pair, crc: Crc) {
    Good(p.work, crc) || Good(p.strd, crc)
  }

  /** The one way to lose both copies: .work is torn while .strd is not good. */
  predicate Fatal(p: Pair, s: Step, crc: Crc) {
    Written(p, s, crc).Some? && s.w.Torn? && !Good(s.w.left, crc) && !Good(p.strd, crc)
  }

  /** A loadable pair stays so exactly when the step is not fatal. */
  lemma StepLoads(p: Pair, s: Step, crc: Crc)
    requires Loadable(p, crc) && Keeps(s)
    ensures Loadable(After(p, s, crc), crc) <==> !Fatal(p, s, crc)
  {
    if s.Copy? {
      if Good(p.work, crc) { CopyIsGood(p, s.kind, crc); }
    } else if Written(p, s, crc).Some? && s.w.Completed? {
      WrittenIsGood(s.kind, Written(p, s, crc).value, crc);
    }
  }

  /** A pair with both copies damaged is never overwritten, by any step. */
  lemma DamagedIsLeft(p: Pair, s: Step, crc: Crc)
    requires Current(p, crc).Damaged?
    ensures After(p, s, crc) == p
  {
  }

  /** .strd is written only from a good .work, which then stays: a torn .strd loses
      nothing. */
  lemma StrdOnlyFromWork(p: Pair, s: Step, crc: Crc)
    requires After(p, s, crc).strd != p.strd
    ensures Good(p.work, crc) && After(p, s, crc).work == p.work && Loadable(After(p, s, crc), crc)
  {
  }

  // ---- whole runs ----------------------------------------------------------------------

  function AfterAll(p: Pair, ss: seq<Step>, crc: Crc): Pair {
    if ss == [] then p else After(AfterAll(p, ss[..|ss| - 1], crc), ss[|ss| - 1], crc)
  }

  ghost predicate AllKeep(ss: seq<Step>) {
    forall k | 0 <= k < |ss| :: Keeps(ss[k])
  }

  /** Step k of a run is fatal. */
  ghost predicate FatalAt(p: Pair, ss: seq<Step>, k: nat, crc: Crc)
    requires k < |ss|
  {
    Fatal(AfterAll(p, ss[..k], crc), ss[k], crc)
  }

  /** A run loads after every step exactly when it has no fatal step. */
  lemma {:induction false} RunLoads(p: Pair, ss: seq<Step>, crc: Crc)
    requires Loadable(p, crc) && AllKeep(ss)
    ensures (forall k | 0 <= k <= |ss| :: Loadable(AfterAll(p, ss[..k], crc), crc)) <==>
      (forall k | 0 <= k < |ss| :: !FatalAt(p, ss, k, crc))
  {
    if forall k | 0 <= k <= |ss| :: Loadable(AfterAll(p, ss[..k], crc), crc) {
      forall k | 0 <= k < |ss| ensures !FatalAt(p, ss, k, crc) {
        StepAt(p, ss, k, crc);
        assert Loadable(AfterAll(p, ss[..k], crc), crc) && Loadable(AfterAll(p, ss[..k + 1], crc), crc);
      }
    }
    if forall k | 0 <= k < |ss| :: !FatalAt(p, ss, k, crc) {
      forall k | 0 <= k <= |ss| ensures Loadable(AfterAll(p, ss[..k], crc), crc) { NotFatalLoads(p, ss, k, crc); }
    }
  }

  /** A pair with two good copies of no records. */
  function Fresh(crc: Crc): Pair {
    Pair(Present(FileOf(0, [], crc)), Present(FileOf(1, [], crc)))
  }

  /** A run that loses it: the copy of a save is torn, then the next edit's write. */
  lemma PairLost(crc: Crc)
    ensures var copy, edit := Step.Copy(1, Torn(Present([]))), Step.Edit(0, rs => Some(rs), Torn(Present([])));
      && Good(Fresh(crc).work, crc) && Good(Fresh(crc).strd, crc) && AllKeep([copy, edit])
      && Loadable(AfterAll(Fresh(crc), [copy], crc), crc)
      && Current(AfterAll(Fresh(crc), [copy, edit], crc), crc).Damaged?
  {
    var copy, edit := Step.Copy(1, Torn(Present([]))), Step.Edit(0, rs => Some(rs), Torn(Present([])));
    WrittenIsGood(0, [], crc);
    WrittenIsGood(1, [], crc);
    var q := After(Fresh(crc), copy, crc);
    assert [copy][..0] == [] && [copy, edit][..1] == [copy];
    assert AfterAll(Fresh(crc), [copy], crc) == q == Pair(Fresh(crc).work, Present([]));
    assert Records(q, crc) == [];
  }

  lemma StepAt(p: Pair, ss: seq<Step>, k: nat, crc: Crc)
    requires k < |ss| && AllKeep(ss)
    ensures AfterAll(p, ss[..k + 1], crc) == After(AfterAll(p, ss[..k], crc), ss[k], crc)
    ensures Loadable(AfterAll(p, ss[..k], crc), crc) ==>
      (Loadable(AfterAll(p, ss[..k + 1], crc), crc) <==> !FatalAt(p, ss, k, crc))
  {
    assert ss[..k + 1][..k] == ss[..k];
    if Loadable(AfterAll(p, ss[..k], crc), crc) { StepLoads(AfterAll(p, ss[..k], crc), ss[k], crc); }
  }

  lemma {:induction false} NotFatalLoads(p: Pair, ss: seq<Step>, k: nat, crc: Crc)
    requires k <= |ss| && Loadable(p, crc) && AllKeep(ss) && forall j | 0 <= j < |ss| :: !FatalAt(p, ss, j, crc)
    ensures Loadable(AfterAll(p, ss[..k], crc), crc)
    decreases k
  {
    if k > 0 {
      NotFatalLoads(p, ss, k - 1, crc);
      StepAt(p, ss, k - 1, crc);
    }
  }

  /** The copy's write was whole, or left it as it was, or still good. */
  predicate CopyHolds(s: Step, crc: Crc) {
    s.Copy? && s.w.Torn? ==> Good(s.w.left, crc)
  }

  /** From a good .strd, whatever becomes of the writes of .work, every state of a run
      whose copies are whole loads. */
  lemma {:induction false} WorkMayTear(p: Pair, ss: seq<Step>, crc: Crc)
    requires Good(p.strd, crc) && AllKeep(ss) && forall k | 0 <= k < |ss| :: CopyHolds(ss[k], crc)
    ensures Good(AfterAll(p, ss, crc).strd, crc) && Loadable(AfterAll(p, ss, crc), crc)
  {
    if ss != [] {
      var n := |ss| - 1;
      WorkMayTear(p, ss[..n], crc);
      var q := AfterAll(p, ss[..n], crc);
      assert CopyHolds(ss[n], crc);
      if ss[n].Copy? && Good(q.work, crc) { CopyIsGood(q, ss[n].kind, crc); }
    }
  }

  // ---- what is loaded ----------------------------------------------------------------------

  /** The records after the last completed edit, and those last copied. */
  datatype Ledger = Ledger(latest: seq<Rec>, saved: seq<Rec>)

  function Noted(l: Ledger, p: Pair, s: Step, crc: Crc): Ledger {
    if s.w.Torn? then l
    else if s.Copy? then (if Good(p.work, crc) then l.(saved := l.latest) else l)
    else if Written(p, s, crc).Some? then l.(latest := Written(p, s, crc).value)
    else l
  }

  /** A torn write leaves the file as it was, or no good file. */
  predicate Fair(p: Pair, s: Step, crc: Crc) {
    s.w.Torn? ==> !Good(s.w.left, crc) || s.w.left == if s.Copy? then p.strd else p.work
  }

  ghost predicate Agrees(p: Pair, l: Ledger, crc: Crc) {
    && (Good(p.work, crc) ==> RecordsOf(Readable(p.work).value, crc) == l.latest)
    && (Good(p.strd, crc) ==> RecordsOf(Readable(p.strd).value, crc) == l.saved)
  }

  lemma StepAgrees(p: Pair, l: Ledger, s: Step, crc: Crc)
    requires Agrees(p, l, crc) && Keeps(s) && Fair(p, s, crc)
    ensures Agrees(After(p, s, crc), Noted(l, p, s, crc), crc)
  {
    if s.Copy? {
      if Good(p.work, crc) { CopyIsGood(p, s.kind, crc); }
    } else if Written(p, s, crc).Some? && s.w.Completed? {
      WrittenIsGood(s.kind, Written(p, s, crc).value, crc);
    }
  }

  function NotedAll(l: Ledger, p: Pair, ss: seq<Step>, crc: Crc): Ledger {
    if ss == [] then l
    else
      var init := ss[..|ss| - 1];
      Noted(NotedAll(l, p, init, crc), AfterAll(p, init, crc), ss[|ss| - 1], crc)
  }

  /** Over any run what loads is the last completed edit's records while .work is good,
      and the last save's otherwise: at most the edits since the last save are lost. */
  lemma {:induction false} LoadedIsLatestOrSaved(p: Pair, l: Ledger, ss: seq<Step>, crc: Crc)
    requires Agrees(p, l, crc) && AllKeep(ss)
    requires forall k | 0 <= k < |ss| :: Fair(AfterAll(p, ss[..k], crc), ss[k], crc)
    ensures var q, m := AfterAll(p, ss, crc), NotedAll(l, p, ss, crc);
      Agrees(q, m, crc) && (Loadable(q, crc) ==> Records(q, crc) == if Good(q.work, crc) then m.latest else m.saved)
  {
    if ss != [] {
      var n := |ss| - 1;
      forall k | 0 <= k < n ensures Fair(AfterAll(p, ss[..n][..k], crc), ss[..n][k], crc) {
        assert ss[..n][..k] == ss[..k];
      }
      LoadedIsLatestOrSaved(p, l, ss[..n], crc);
      StepAgrees(AfterAll(p, ss[..n], crc), NotedAll(l, p, ss[..n], crc), ss[n], crc);
    }
  }
}
