/** BRAIN's engine job (brain.c, `brain_job`, `write_settings`, `brain_remix_save`) over
    the card's and the project's recovery pair: one job at a time, each of its writes
    whole or torn; and what a run of jobs leaves in each pair. */
module BrainJobs {
  import opened Words
  import opened Bytes
  import opened RecordFile
  import opened Fields
  import opened CardStore
  import opened RecoveryPair
  import opened Settings
  import opened SettingsRoundTrip
  import opened SettingsStore
  import Remix
  import opened StoreWriters
  import opened TemplateStore
  import opened TemplateEdits

  /** The jobs that write records. */
  datatype Job =
    | SaveDefault(entry: Option<Entry>, vals: seq<byte>, clear: bool)
    | SaveNewProject(ram: seq<byte>, clear: bool)
    | ClearPart
    | StoreNames(parts: seq<PartNames>)
    | DeleteNth(t: Target, i: nat)
    | RenameNth(t: Target, i: nat, name: seq<byte>)
    | EditNth(t: Target, i: nat, keys: seq<nat>, vals: seq<byte>, image: Option<seq<byte>>)
    | SaveNew(t: Target, name: seq<byte>, values: seq<byte>)
    | MakeNthDefault(t: Target, i: nat, which: Which, past: byte)
    | StoreValues
    | SaveAll(fx: seq<Effect>)
    | SelectRemix(text: Remix.Text)
  {
    ghost predicate Valid() {
      match this
      case SaveDefault(entry, vals, _) => |vals| == 12 && (entry.Some? ==> entry.value.Valid())
      case SaveNewProject(ram, _) => |ram| == 0x70
      case StoreNames(parts) => AllNames(parts)
      case RenameNth(_, _, name) => |name| == TPL_NAME
      case EditNth(_, _, keys, vals, image) => |keys| == |vals| && (image.Some? ==> |image.value| == PART_LEN)
      case SaveNew(t, name, _) => 1 <= |t.id| <= 63 && |name| == TPL_NAME
      case MakeNthDefault(t, _, _, _) => 1 <= |t.id| <= 63
      case SaveAll(fx) => EffectsFit(fx)
      case _ => true
    }
  }

  /** What a job finds in memory: the value table, and whether a project is named. */
  datatype Memory = Memory(table: Table, vals: seq<int>, named: bool) {
    ghost predicate Valid() {
      |vals| == |table| && WellFormed(table)
    }
  }

  /** How a job's writes go: of the two .work files and of the two .strd copies. */
  datatype Writes = Writes(card: Write, project: Write, cardCopy: Write, projectCopy: Write)

  datatype Turn = Turn(job: Job, m: Memory, ws: Writes) {
    ghost predicate Valid() {
      job.Valid() && m.Valid()
    }
  }

  datatype Side = Card | Project

  datatype Cards = Cards(card: Pair, project: Pair) {
    function At(side: Side): Pair {
      if side.Card? then card else project
    }
  }

  // ---- what a job makes of the records it finds --------------------------------------

  predicate HasProject(t: Table) {
    exists e | 0 <= e < |t| :: t[e].scope == 1
  }

  function Leaving(rs: seq<Rec>, choice: Choice, added: seq<Rec>): Option<seq<Rec>> {
    Some(Survivors(rs, choice) + added)
  }

  function WithDefault(t: Target, which: Which, r: Rec, past: byte, rs: seq<Rec>, crc: Crc): Option<seq<Rec>>
    requires IsTemplate(r, t) && |t.id| <= 63
  {
    match DefaultOf(which, t.layout, Payload(r), past)
    case None => None
    case Some(d) => Leaving(rs, DropOwned(DefaultsOf(which, t.id)), [NewRecord(K_DEFAULT, t.id, d, crc)])
  }

  function WithRemix(name: Remix.Text, rs: seq<Rec>, crc: Crc): Option<seq<Rec>>
    requires AllRecords(rs)
  {
    Remix.OwnAreRecords(rs);
    var pay := Remix.SavedPayload(name, Remix.Sorted(rs, true));
    if !Remix.NameOk(name) || Remix.Bad(rs, crc) || pay.None? then None
    else Some(Remix.Sorted(rs, false) + [NewRecord(K_SETTINGS, Remix.RMX_STORE, pay.value, crc)])
  }

  /** The records a job leaves on the card when it finds `rs` there; none when it
      refuses or does not write there. */
  function OnCard(j: Job, m: Memory, rs: seq<Rec>, crc: Crc): Option<seq<Rec>>
    requires j.Valid() && m.Valid() && AllRecords(rs)
  {
    match j
    case SaveDefault(None, _, _) => None
    case SaveDefault(Some(e), vals, clear) => Leaving(rs, DropOwned(Default(e.id)), DefaultRecords(e, vals, clear, crc))
    case SaveNewProject(ram, clear) => Leaving(rs, DropOwned(AnyDefault(PS_STORE)), ProjectDefaults(ram, clear, crc))
    case ClearPart => Leaving(rs, DropOwned(AnyDefault(PART_STORE)), [])
    case DeleteNth(t, i) =>
      var k := Nth(rs, Of(t), i); if k.None? then None else Leaving(rs, DropAt(k), [])
    case RenameNth(t, i, name) =>
      var k := Nth(rs, Of(t), i); if k.None? then None else Leaving(rs, RenameAt(k.value, name, crc), [])
    case EditNth(t, i, keys, vals, image) =>
      var k := Nth(rs, Of(t), i); if k.None? then None else Leaving(rs, EditAt(k.value, keys, vals, image, crc), [])
    case SaveNew(t, name, values) =>
      Leaving(rs, DropAt(FirstCalled(rs, Of(t), Called(t, name), 0)), [NewTemplate(t, name, values, crc)])
    case MakeNthDefault(t, i, which, past) =>
      var k := Nth(rs, Of(t), i); if k.None? then None else WithDefault(t, which, rs[k.value], past, rs, crc)
    case StoreValues => Leaving(rs, OursChoice(m.table, 0, false), Added(m.table, m.vals, 0, rs, None, crc))
    case SelectRemix(name) => WithRemix(name, rs, crc)
    case StoreNames(_) => None
    case SaveAll(_) => None
  }

  /** And in the project. */
  function InProject(j: Job, m: Memory, rs: seq<Rec>, crc: Crc): Option<seq<Rec>>
    requires j.Valid() && m.Valid() && AllRecords(rs)
  {
    if !m.named then None
    else
      match j
      case StoreNames(parts) => Leaving(rs, DropOwned(IsNames()), NamesRecords(parts, |parts|, crc))
      case StoreValues =>
        if !HasProject(m.table) then None
        else Leaving(rs, OursChoice(m.table, 1, false), Added(m.table, m.vals, 1, rs, None, crc))
      case SaveAll(fx) => Leaving(rs, OursChoice(m.table, 1, true), Added(m.table, m.vals, 1, rs, Some(fx), crc))
      case _ => None
  }

  function Wanted(side: Side, j: Job, m: Memory, rs: seq<Rec>, crc: Crc): Option<seq<Rec>>
    requires j.Valid() && m.Valid() && AllRecords(rs)
  {
    if side.Card? then OnCard(j, m, rs, crc) else InProject(j, m, rs, crc)
  }

  /** Whatever a job wants to leave is records, if there is room for it. */
  lemma WantedAreRecords(side: Side, j: Job, m: Memory, rs: seq<Rec>, crc: Crc)
    requires j.Valid() && m.Valid() && AllRecords(rs) && HasRoom(Wanted(side, j, m, rs, crc))
    ensures AllRecords(Wanted(side, j, m, rs, crc).value)
  {
    if side.Project? {
      ProjectAreRecords(j, m, rs, crc);
    } else {
      match j {
        case StoreValues => AddedAreRecords(rs, m, 0, None, crc);
        case SelectRemix(name) => RemixAreRecords(name, rs, crc);
        case SaveDefault(_, _, _) => DefaultAreRecords(j, m, rs, crc);
        case SaveNewProject(_, _) => DefaultAreRecords(j, m, rs, crc);
        case ClearPart => DefaultAreRecords(j, m, rs, crc);
        case _ => TemplatesAreRecords(j, m, rs, crc);
      }
    }
  }

  lemma AppendedFits(before: seq<Rec>, r: Rec)
    requires HDR + |Flat(before + [r])| <= BUF_LEN
    ensures HDR + |r| <= BUF_LEN
  {
    FlatPush(before, r);
  }

  lemma DefaultAreRecords(j: Job, m: Memory, rs: seq<Rec>, crc: Crc)
    requires j.SaveDefault? || j.SaveNewProject? || j.ClearPart?
    requires j.Valid() && m.Valid() && AllRecords(rs) && HasRoom(OnCard(j, m, rs, crc))
    ensures AllRecords(OnCard(j, m, rs, crc).value)
  {
    match j {
      case SaveDefault(Some(e), vals, clear) =>
        DropIsSized(Default(e.id));
        DefaultsAre(e.id, e.layout, e.keys, vals, clear, crc);
        RewrittenAre(rs, DropOwned(Default(e.id)), DefaultRecords(e, vals, clear, crc));
      case SaveNewProject(ram, clear) =>
        DropIsSized(AnyDefault(PS_STORE));
        DefaultsAre(PS_STORE, PS_LAYOUT, ProjectKeys(), ram, clear, crc);
        RewrittenAre(rs, DropOwned(AnyDefault(PS_STORE)), ProjectDefaults(ram, clear, crc));
      case ClearPart =>
        DropIsSized(AnyDefault(PART_STORE));
        RewrittenAre(rs, DropOwned(AnyDefault(PART_STORE)), []);
    }
  }

  lemma TemplatesAreRecords(j: Job, m: Memory, rs: seq<Rec>, crc: Crc)
    requires j.DeleteNth? || j.RenameNth? || j.EditNth? || j.SaveNew? || j.MakeNthDefault? || j.StoreNames?
      || j.SaveAll?
    requires j.Valid() && m.Valid() && AllRecords(rs) && HasRoom(OnCard(j, m, rs, crc))
    ensures AllRecords(OnCard(j, m, rs, crc).value)
  {
    match j {
      case DeleteNth(t, i) =>
        DropAtIsSized(Nth(rs, Of(t), i));
        RewrittenAre(rs, DropAt(Nth(rs, Of(t), i)), []);
      case RenameNth(t, i, name) =>
        var choice := RenameAt(Nth(rs, Of(t), i).value, name, crc);
        RenameIsSized(Nth(rs, Of(t), i).value, name, crc);
        RewrittenAre(rs, choice, []);
      case EditNth(t, i, keys, vals, image) =>
        var choice := EditAt(Nth(rs, Of(t), i).value, keys, vals, image, crc);
        EditIsSized(Nth(rs, Of(t), i).value, keys, vals, image, crc);
        RewrittenAre(rs, choice, []);
      case SaveNew(t, name, values) =>
        var k := FirstCalled(rs, Of(t), Called(t, name), 0);
        AppendedFits(Survivors(rs, DropAt(k)), NewTemplate(t, name, values, crc));
        TemplateReads(t, name, values, crc);
        DropAtIsSized(k);
        RewrittenAre(rs, DropAt(k), [NewTemplate(t, name, values, crc)]);
      case MakeNthDefault(t, i, which, past) =>
        NewDefaultAreRecords(t, which, rs[Nth(rs, Of(t), i).value], past, rs, crc);
    }
  }

  lemma NewDefaultAreRecords(t: Target, which: Which, r: Rec, past: byte, rs: seq<Rec>, crc: Crc)
    requires 1 <= |t.id| <= 63 && IsTemplate(r, t) && AllRecords(rs) && HasRoom(WithDefault(t, which, r, past, rs, crc))
    ensures AllRecords(WithDefault(t, which, r, past, rs, crc).value)
  {
    var choice, d := DropOwned(DefaultsOf(which, t.id)), DefaultOf(which, t.layout, Payload(r), past).value;
    AppendedFits(Survivors(rs, choice), NewRecord(K_DEFAULT, t.id, d, crc));
    SetIsDefault(t, which, Payload(r), past, crc);
    DropIsSized(DefaultsOf(which, t.id));
    RewrittenAre(rs, choice, [NewRecord(K_DEFAULT, t.id, d, crc)]);
  }

  lemma AddedAreRecords(rs: seq<Rec>, m: Memory, scope: nat, project: Option<seq<Effect>>, crc: Crc)
    requires m.Valid() && AllRecords(rs) && (project.Some? ==> EffectsFit(project.value))
    requires HasRoom(Leaving(rs, OursChoice(m.table, scope, project.Some?),
                             Added(m.table, m.vals, scope, rs, project, crc)))
    ensures AllRecords(Leaving(rs, OursChoice(m.table, scope, project.Some?),
                                 Added(m.table, m.vals, scope, rs, project, crc)).value)
  {
    var choice, added := OursChoice(m.table, scope, project.Some?), Added(m.table, m.vals, scope, rs, project, crc);
    FlatJoin(Survivors(rs, choice), added);
    AddedAre(m.table, m.vals, scope, rs, project, crc);
    DropIsSized(OwnedBy(m.table, scope, project.Some?));
    RewrittenAre(rs, choice, added);
  }

  lemma RemixAreRecords(name: Remix.Text, rs: seq<Rec>, crc: Crc)
    requires AllRecords(rs) && HasRoom(WithRemix(name, rs, crc))
    ensures AllRecords(WithRemix(name, rs, crc).value)
  {
    Remix.OwnAreRecords(rs);
    Remix.OthersAreOthers(rs);
    var others, pay := Remix.Sorted(rs, false), Remix.SavedPayload(name, Remix.Sorted(rs, true)).value;
    Remix.SavedFits(others, pay, crc);
    Remix.SavedRecords(others, pay, crc);
  }

  lemma ProjectAreRecords(j: Job, m: Memory, rs: seq<Rec>, crc: Crc)
    requires j.Valid() && m.Valid() && AllRecords(rs) && HasRoom(InProject(j, m, rs, crc))
    ensures AllRecords(InProject(j, m, rs, crc).value)
  {
    match j {
      case StoreNames(parts) =>
        NamesRecordsAre(parts, |parts|, crc);
        DropIsSized(IsNames());
        RewrittenAre(rs, DropOwned(IsNames()), NamesRecords(parts, |parts|, crc));
      case StoreValues => AddedAreRecords(rs, m, 1, None, crc);
      case SaveAll(fx) => AddedAreRecords(rs, m, 1, Some(fx), crc);
    }
  }

  // ---- what a job does to the pairs ----------------------------------------------------

  function WriteOf(side: Side, t: Turn): Write {
    if side.Card? then t.ws.card else t.ws.project
  }

  /** The job's write of a pair's .work. */
  ghost function EditOf(side: Side, t: Turn, crc: Crc): Step
    requires t.Valid()
  {
    var edit := (rs: seq<Rec>) => if AllRecords(rs) then Wanted(side, t.job, t.m, rs, crc) else None;
    Step.Edit(if side.Card? then 0 else 2, edit, WriteOf(side, t))
  }

  /** SAVE PROJECT's copies: the card's as it is, the project's once it is written. */
  ghost predicate Copies(side: Side, t: Turn, p: Pair, crc: Crc)
    requires t.Valid()
  {
    t.job.SaveAll? && (side.Card? || Done(p, EditOf(side, t, crc), crc))
  }

  function CopyOf(side: Side, t: Turn): Step {
    if side.Card? then Step.Copy(1, t.ws.cardCopy) else Step.Copy(3, t.ws.projectCopy)
  }

  ghost function Steps(side: Side, t: Turn, p: Pair, crc: Crc): seq<Step>
    requires t.Valid()
  {
    if Copies(side, t, p, crc) then [EditOf(side, t, crc), CopyOf(side, t)] else [EditOf(side, t, crc)]
  }

  /** A pair after a job. */
  ghost function PairAfter(side: Side, t: Turn, p: Pair, crc: Crc): Pair
    requires t.Valid()
  {
    AfterAll(p, Steps(side, t, p, crc), crc)
  }

  ghost function CardsAfter(t: Turn, c: Cards, crc: Crc): Cards
    requires t.Valid()
  {
    Cards(PairAfter(Card, t, c.card, crc), PairAfter(Project, t, c.project, crc))
  }

  /** Every .work the job is to write was written, and whole. */
  ghost predicate Succeeds(t: Turn, c: Cards, crc: Crc)
    requires t.Valid()
  {
    && (t.job.StoreNames? || t.job.SaveAll? || Done(c.card, EditOf(Card, t, crc), crc))
    && (t.job.StoreNames? || t.job.SaveAll? || (t.job.StoreValues? && HasProject(t.m.table))
        ==> Done(c.project, EditOf(Project, t, crc), crc))
  }

  lemma StepsKeep(side: Side, t: Turn, p: Pair, crc: Crc)
    requires t.Valid()
    ensures Keeps(EditOf(side, t, crc)) && AllKeep(Steps(side, t, p, crc))
  {
    var s := EditOf(side, t, crc);
    forall rs | AllRecords(rs) && HasRoom(s.edit(rs)) ensures AllRecords(s.edit(rs).value) {
      WantedAreRecords(side, t.job, t.m, rs, crc);
    }
  }

  lemma StepsDo(side: Side, t: Turn, p: Pair, crc: Crc)
    requires t.Valid()
    ensures var q := After(p, EditOf(side, t, crc), crc);
      PairAfter(side, t, p, crc) == if Copies(side, t, p, crc) then After(q, CopyOf(side, t), crc) else q
  {
    OneThenTwo(p, EditOf(side, t, crc), CopyOf(side, t), crc);
  }

  lemma OneThenTwo(p: Pair, a: Step, b: Step, crc: Crc)
    ensures AfterAll(p, [a], crc) == After(p, a, crc)
    ensures AfterAll(p, [a, b], crc) == After(After(p, a, crc), b, crc)
  {
    assert [a][..0] == [] && [a, b][..1] == [a];
  }

  /** A job that wants nothing of a pair, and copies nothing, leaves it. */
  lemma PairIsLeft(side: Side, t: Turn, p: Pair, crc: Crc)
    requires t.Valid() && !t.job.SaveAll? && Wanted(side, t.job, t.m, Records(p, crc), crc).None?
    ensures PairAfter(side, t, p, crc) == p && !Done(p, EditOf(side, t, crc), crc)
  {
    StepsDo(side, t, p, crc);
  }

  /** A writer that wrote what the job wants. */
  lemma PairIsWritten(side: Side, t: Turn, p: Pair, q: Pair, choice: Choice, added: seq<Rec>, err: nat, crc: Crc)
    requires t.Valid() && Wanted(side, t.job, t.m, Records(p, crc), crc) == Leaving(Records(p, crc), choice, added)
    requires Wrote(p, q, if side.Card? then 0 else 2, choice, added, WriteOf(side, t), err, crc)
    ensures q == After(p, EditOf(side, t, crc), crc) && (err == 0 <==> Done(p, EditOf(side, t, crc), crc))
    ensures !t.job.SaveAll? ==> q == PairAfter(side, t, p, crc)
  {
    WroteIsAfter(p, q, EditOf(side, t, crc), choice, added, err, crc);
    StepsDo(side, t, p, crc);
  }

  lemma DamagedPair(side: Side, t: Turn, p: Pair, crc: Crc)
    requires t.Valid() && Current(p, crc).Damaged? && !t.job.SaveAll?
    ensures PairAfter(side, t, p, crc) == p && !Done(p, EditOf(side, t, crc), crc)
  {
    StepsDo(side, t, p, crc);
  }

  // ---- the job itself -----------------------------------------------------------------------

  /** The jobs on card.work, by the writer each calls. */
  method CardJob(store: Store, t: Turn, p: Pair) returns (q: Pair, err: nat)
    requires store.Valid() && t.Valid() && !t.job.StoreNames? && !t.job.StoreValues? && !t.job.SaveAll?
    modifies store.buf, store.out
    ensures q == PairAfter(Card, t, p, store.crc)
    ensures err == 0 <==> Done(p, EditOf(Card, t, store.crc), store.crc)
  {
    var j := t.job;
    if j.SaveNewProject? {
      q, err := WriteProjectDefaults(store, p, j.ram, j.clear, t.ws.card);
      var added := ProjectDefaults(j.ram, j.clear, store.crc);
      PairIsWritten(Card, t, p, q, DropOwned(AnyDefault(PS_STORE)), added, err, store.crc);
    } else if j.ClearPart? {
      q, err := ClearPartDefault(store, p, t.ws.card);
      PairIsWritten(Card, t, p, q, DropOwned(AnyDefault(PART_STORE)), [], err, store.crc);
    } else if j.SelectRemix? {
      q, err := RemixJob(store, t, p);
    } else if j.SaveDefault? {
      q, err := DefaultJob(store, t, p);
    } else {
      q, err := TemplateJob(store, t, p);
    }
  }

  method DefaultJob(store: Store, t: Turn, p: Pair) returns (q: Pair, err: nat)
    requires store.Valid() && t.Valid() && t.job.SaveDefault?
    modifies store.buf, store.out
    ensures q == PairAfter(Card, t, p, store.crc)
    ensures err == 0 <==> Done(p, EditOf(Card, t, store.crc), store.crc)
  {
    var e, vals, clear := t.job.entry, t.job.vals, t.job.clear;
    q, err := WriteDefault(store, p, e, vals, clear, t.ws.card);
    if e.None? {
      PairIsLeft(Card, t, p, store.crc);
    } else {
      ghost var added := DefaultRecords(e.value, vals, clear, store.crc);
      PairIsWritten(Card, t, p, q, DropOwned(Default(e.value.id)), added, err, store.crc);
    }
  }

  method RemixJob(store: Store, t: Turn, p: Pair) returns (q: Pair, err: nat)
    requires store.Valid() && t.Valid() && t.job.SelectRemix?
    modifies store.buf, store.out
    ensures q == PairAfter(Card, t, p, store.crc)
    ensures err == 0 <==> Done(p, EditOf(Card, t, store.crc), store.crc)
  {
    q, err := Remix.Save(store, p, t.job.text, t.ws.card);
    RemixIsSaved(t, p, q, err, store.crc);
  }

  lemma RemixIsSaved(t: Turn, p: Pair, q: Pair, err: nat, crc: Crc)
    requires t.Valid() && t.job.SelectRemix? && Remix.Saved(p, q, t.job.text, t.ws.card, err, crc)
    ensures q == PairAfter(Card, t, p, crc) && (err == 0 <==> Done(p, EditOf(Card, t, crc), crc))
  {
    var rs := Records(p, crc);
    var wanted := WithRemix(t.job.text, rs, crc);
    assert EditOf(Card, t, crc).edit(rs) == wanted;
    StepsDo(Card, t, p, crc);
    if Current(p, crc).Damaged? || wanted.None? {
      assert q == p && err != 0;
    } else {
      assert Finished(p, q, 0, wanted.value, t.ws.card, err, crc);
    }
  }

  method TemplateJob(store: Store, t: Turn, p: Pair) returns (q: Pair, err: nat)
    requires store.Valid() && t.Valid()
    requires t.job.DeleteNth? || t.job.RenameNth? || t.job.EditNth? || t.job.SaveNew? || t.job.MakeNthDefault?
    modifies store.buf, store.out
    ensures q == PairAfter(Card, t, p, store.crc)
    ensures err == 0 <==> Done(p, EditOf(Card, t, store.crc), store.crc)
  {
    ghost var rs := Records(p, store.crc);
    var j := t.job;
    if j.MakeNthDefault? {
      q, err := SetDefault(store, p, j.t, j.which, j.i, j.past, t.ws.card);
      DefaultIsSet(t, p, q, err, store.crc);
    } else if j.DeleteNth? {
      q, err := DeleteTemplate(store, p, j.t, j.i, t.ws.card);
      NthIsWritten(t, p, q, Nth(rs, Of(j.t), j.i), DropAt(Nth(rs, Of(j.t), j.i)), err, store.crc);
    } else if j.SaveNew? {
      q, err := SaveTemplate(store, p, j.t, j.name, j.values, t.ws.card);
      ghost var choice := DropAt(FirstCalled(rs, Of(j.t), Called(j.t, j.name), 0));
      PairIsWritten(Card, t, p, q, choice, [NewTemplate(j.t, j.name, j.values, store.crc)], err, store.crc);
    } else {
      q, err := ChangeJob(store, t, p);
    }
  }

  method ChangeJob(store: Store, t: Turn, p: Pair) returns (q: Pair, err: nat)
    requires store.Valid() && t.Valid() && (t.job.RenameNth? || t.job.EditNth?)
    modifies store.buf, store.out
    ensures q == PairAfter(Card, t, p, store.crc)
    ensures err == 0 <==> Done(p, EditOf(Card, t, store.crc), store.crc)
  {
    ghost var k := Nth(Records(p, store.crc), Of(t.job.t), t.job.i);
    ghost var keep: Choice := (j, r) => Keep;
    match t.job {
      case RenameNth(of, i, name) =>
        q, err := RenameTemplate(store, p, of, i, name, t.ws.card);
        NthIsWritten(t, p, q, k, if k.None? then keep else RenameAt(k.value, name, store.crc), err, store.crc);
      case EditNth(of, i, keys, vals, image) =>
        q, err := EditTemplate(store, p, of, i, keys, vals, image, t.ws.card);
        ghost var choice := if k.None? then keep else EditAt(k.value, keys, vals, image, store.crc);
        NthIsWritten(t, p, q, k, choice, err, store.crc);
    }
  }

  lemma NthIsWritten(t: Turn, p: Pair, q: Pair, k: Option<nat>, choice: Choice, err: nat, crc: Crc)
    requires t.Valid() && !t.job.SaveAll?
    requires OnCard(t.job, t.m, Records(p, crc), crc) == if k.None? then None else Leaving(Records(p, crc), choice, [])
    requires if Current(p, crc).Damaged? then err == 2 && q == p
      else if k.None? then err == 1 && q == p
      else Wrote(p, q, 0, choice, [], t.ws.card, err, crc)
    ensures q == PairAfter(Card, t, p, crc) && (err == 0 <==> Done(p, EditOf(Card, t, crc), crc))
  {
    if Current(p, crc).Damaged? {
      DamagedPair(Card, t, p, crc);
    } else if k.None? {
      PairIsLeft(Card, t, p, crc);
    } else {
      PairIsWritten(Card, t, p, q, choice, [], err, crc);
    }
  }

  lemma DefaultIsSet(t: Turn, p: Pair, q: Pair, err: nat, crc: Crc)
    requires t.Valid() && t.job.MakeNthDefault?
    requires var j, rs := t.job, Records(p, crc);
      var k := Nth(rs, Of(j.t), j.i);
      if Current(p, crc).Damaged? then err == 2 && q == p
      else if k.None? then err == 1 && q == p
      else SetAs(p, q, j.t, j.which, rs[k.value], j.past, t.ws.card, err, crc)
    ensures q == PairAfter(Card, t, p, crc) && (err == 0 <==> Done(p, EditOf(Card, t, crc), crc))
  {
    var j, rs := t.job, Records(p, crc);
    var k := Nth(rs, Of(j.t), j.i);
    if Current(p, crc).Damaged? {
      DamagedPair(Card, t, p, crc);
    } else if k.None? || DefaultOf(j.which, j.t.layout, Payload(rs[k.value]), j.past).None? {
      PairIsLeft(Card, t, p, crc);
    } else {
      var d := DefaultOf(j.which, j.t.layout, Payload(rs[k.value]), j.past).value;
      var choice, added := DropOwned(DefaultsOf(j.which, j.t.id)), [NewRecord(K_DEFAULT, j.t.id, d, crc)];
      PairIsWritten(Card, t, p, q, choice, added, err, crc);
    }
  }

  method NamesJob(store: Store, t: Turn, p: Pair) returns (q: Pair, err: nat)
    requires store.Valid() && t.Valid() && t.job.StoreNames?
    modifies store.buf, store.out
    ensures q == PairAfter(Project, t, p, store.crc)
    ensures err == 0 <==> Done(p, EditOf(Project, t, store.crc), store.crc)
  {
    q, err := WriteNames(store, p, t.m.named, t.job.parts, t.ws.project);
    if !t.m.named {
      PairIsLeft(Project, t, p, store.crc);
    } else {
      ghost var added := NamesRecords(t.job.parts, |t.job.parts|, store.crc);
      PairIsWritten(Project, t, p, q, DropOwned(IsNames()), added, err, store.crc);
    }
  }

  /** The memory is the value table's. */
  ghost predicate InMemory(values: Values, m: Memory)
    reads values.values
  {
    m.table == values.table && m.vals == values.values[..]
  }

  /** One scope of the values, into its pair. */
  method ScopeJob(store: Store, values: Values, t: Turn, side: Side, p: Pair) returns (q: Pair, err: nat)
    requires store.Valid() && values.Valid() && t.Valid() && InMemory(values, t.m) && t.job.StoreValues?
    requires side.Project? ==> HasProject(t.m.table)
    modifies store.buf, store.out
    ensures q == PairAfter(side, t, p, store.crc)
    ensures err == 0 <==> Done(p, EditOf(side, t, store.crc), store.crc)
  {
    var scope := if side.Card? then 0 else 1;
    q, err := values.StoreSettings(store, p, scope, t.m.named, None, WriteOf(side, t));
    if side.Project? && !t.m.named {
      PairIsLeft(side, t, p, store.crc);
    } else {
      ghost var added := Added(t.m.table, t.m.vals, scope, Records(p, store.crc), None, store.crc);
      PairIsWritten(side, t, p, q, OursChoice(t.m.table, scope, false), added, err, store.crc);
    }
  }

  method FindProject(t: Table) returns (project: bool)
    ensures project <==> HasProject(t)
  {
    var e := 0;
    project := false;
    while e < |t|
      invariant 0 <= e <= |t| && (project <==> exists f | 0 <= f < e :: t[f].scope == 1)
    {
      if t[e].scope == 1 { project := true; }
      e := e + 1;
    }
  }

  /** SETTINGS: the card's values, then the project's if the table has any; the first
      error counts. */
  method ValuesJob(store: Store, values: Values, t: Turn, c: Cards) returns (d: Cards, err: nat)
    requires store.Valid() && values.Valid() && t.Valid() && InMemory(values, t.m) && t.job.StoreValues?
    modifies store.buf, store.out
    ensures d == CardsAfter(t, c, store.crc)
    ensures err == 0 <==> Succeeds(t, c, store.crc)
  {
    var card, e1 := ScopeJob(store, values, t, Card, c.card);
    var project := FindProject(values.table);
    if !project {
      PairIsLeft(Project, t, c.project, store.crc);
      return Cards(card, c.project), e1;
    }
    var q, e2 := ScopeJob(store, values, t, Project, c.project);
    return Cards(card, q), if e1 == 0 then e2 else e1;
  }

  /** SAVE PROJECT. */
  method SaveJob(store: Store, values: Values, t: Turn, c: Cards) returns (d: Cards, err: nat)
    requires store.Valid() && values.Valid() && t.Valid() && InMemory(values, t.m) && t.job.SaveAll?
    modifies store.buf, store.out
    ensures d == CardsAfter(t, c, store.crc)
    ensures err == 0 <==> Succeeds(t, c, store.crc)
  {
    var card, project, e := values.SaveProject(store, c.card, c.project, t.m.named, t.job.fx, t.ws.project,
                                               t.ws.cardCopy, t.ws.projectCopy);
    d, err := Cards(card, project), e;
    StepsDo(Card, t, c.card, store.crc);
    ProjectIsSaved(t, c.project, project, err, store.crc);
  }

  lemma ProjectIsSaved(t: Turn, p: Pair, q: Pair, err: nat, crc: Crc)
    requires t.Valid() && t.job.SaveAll?
    requires !t.m.named ==> err == 5 && q == p
    requires t.m.named ==> ProjectSaved(p, q, t.m.table, t.m.vals, t.job.fx, t.ws.project, t.ws.projectCopy, err, crc)
    ensures q == PairAfter(Project, t, p, crc) && (err == 0 <==> Done(p, EditOf(Project, t, crc), crc))
  {
    StepsDo(Project, t, p, crc);
    if t.m.named {
      var choice := OursChoice(t.m.table, 1, true);
      var added := Added(t.m.table, t.m.vals, 1, Records(p, crc), Some(t.job.fx), crc);
      var r :| Wrote(p, r, 2, choice, added, t.ws.project, err, crc)
        && q == if err == 0 then Copied(r, 3, t.ws.projectCopy, crc) else r;
      PairIsWritten(Project, t, p, r, choice, added, err, crc);
    }
  }

  /** A job, on the two pairs. */
  method RunJob(store: Store, values: Values, job: Job, named: bool, ws: Writes, c: Cards) returns (d: Cards, err: nat)
    requires store.Valid() && values.Valid() && job.Valid()
    modifies store.buf, store.out
    ensures var t := Turn(job, Memory(values.table, values.values[..], named), ws);
      d == CardsAfter(t, c, store.crc) && (err == 0 <==> Succeeds(t, c, store.crc))
  {
    var t := Turn(job, Memory(values.table, values.values[..], named), ws);
    if job.StoreNames? {
      var q, e := NamesJob(store, t, c.project);
      PairIsLeft(Card, t, c.card, store.crc);
      return Cards(c.card, q), e;
    }
    if job.StoreValues? {
      d, err := ValuesJob(store, values, t, c);
      return;
    }
    if job.SaveAll? {
      d, err := SaveJob(store, values, t, c);
      return;
    }
    var q, e := CardJob(store, t, c.card);
    PairIsLeft(Project, t, c.project, store.crc);
    return Cards(q, c.project), e;
  }

  // ---- runs of jobs ------------------------------------------------------------------------

  ghost predicate AllValid(ts: seq<Turn>) {
    forall k | 0 <= k < |ts| :: ts[k].Valid()
  }

  /** The pairs after some jobs, one after the other. */
  ghost function RunAfter(c: Cards, ts: seq<Turn>, crc: Crc): Cards
    requires AllValid(ts)
  {
    if ts == [] then c else CardsAfter(ts[|ts| - 1], RunAfter(c, ts[..|ts| - 1], crc), crc)
  }

  /** The pair job k finds. */
  ghost function Before(side: Side, c: Cards, ts: seq<Turn>, k: nat, crc: Crc): Pair
    requires AllValid(ts) && k <= |ts|
  {
    RunAfter(c, ts[..k], crc).At(side)
  }

  /** All the steps of a run, one job's after the other's. */
  ghost function AllSteps(side: Side, c: Cards, ts: seq<Turn>, crc: Crc): seq<Step>
    requires AllValid(ts)
  {
    if ts == [] then []
    else
      var n := |ts| - 1;
      AllSteps(side, c, ts[..n], crc) + Steps(side, ts[n], Before(side, c, ts, n, crc), crc)
  }

  /** So a run of jobs is a run of the pair's steps. */
  lemma {:induction false} JobsAreSteps(side: Side, c: Cards, ts: seq<Turn>, crc: Crc)
    requires AllValid(ts)
    ensures AllKeep(AllSteps(side, c, ts, crc))
    ensures RunAfter(c, ts, crc).At(side) == AfterAll(c.At(side), AllSteps(side, c, ts, crc), crc)
  {
    if ts != [] {
      var n := |ts| - 1;
      var p := Before(side, c, ts, n, crc);
      JobsAreSteps(side, c, ts[..n], crc);
      StepsKeep(side, ts[n], p, crc);
      AfterJoin(c.At(side), AllSteps(side, c, ts[..n], crc), Steps(side, ts[n], p, crc), crc);
    }
  }

  lemma {:induction false} AfterJoin(p: Pair, a: seq<Step>, b: seq<Step>, crc: Crc)
    ensures AfterAll(p, a + b, crc) == AfterAll(AfterAll(p, a, crc), b, crc)
    decreases |b|
  {
    if b == [] {
      assert a + b == a;
    } else {
      var n := |b| - 1;
      AfterJoin(p, a, b[..n], crc);
      assert (a + b)[..|a + b| - 1] == a + b[..n];
    }
  }

  /** From a good .strd, whatever becomes of the writes of .work, a pair loads after
      every run of jobs whose copies are whole or leave a good .strd. */
  lemma {:induction false} JobsLoad(side: Side, c: Cards, ts: seq<Turn>, crc: Crc)
    requires AllValid(ts) && Good(c.At(side).strd, crc)
    requires forall k | 0 <= k < |ts| :: CopyHolds(CopyOf(side, ts[k]), crc)
    ensures var p := RunAfter(c, ts, crc).At(side); Good(p.strd, crc) && Loadable(p, crc)
  {
    if ts != [] {
      var n := |ts| - 1;
      JobsLoad(side, c, ts[..n], crc);
      var p := RunAfter(c, ts[..n], crc).At(side);
      StepsKeep(side, ts[n], p, crc);
      WorkMayTear(p, Steps(side, ts[n], p, crc), crc);
    }
  }

  /** With whole writes a pair is a list of records: what a job wants of it, when there
      is room, and otherwise the list there was. */
  ghost function Account(side: Side, ts: seq<Turn>, rs: seq<Rec>, crc: Crc): (out: seq<Rec>)
    requires AllValid(ts) && AllRecords(rs)
    ensures AllRecords(out)
  {
    if ts == [] then rs
    else
      var t, last := ts[|ts| - 1], Account(side, ts[..|ts| - 1], rs, crc);
      var wanted := Wanted(side, t.job, t.m, last, crc);
      if HasRoom(wanted) then (WantedAreRecords(side, t.job, t.m, last, crc); wanted.value) else last
  }

  ghost predicate AllWhole(ts: seq<Turn>) {
    forall k | 0 <= k < |ts| :: ts[k].ws == Writes(Completed, Completed, Completed, Completed)
  }

  lemma {:induction false} JobsAccount(side: Side, c: Cards, ts: seq<Turn>, crc: Crc)
    requires AllValid(ts) && AllWhole(ts) && !Current(c.At(side), crc).Damaged?
    ensures var p := RunAfter(c, ts, crc).At(side);
      !Current(p, crc).Damaged? && Records(p, crc) == Account(side, ts, Records(c.At(side), crc), crc)
  {
    if ts != [] {
      var n := |ts| - 1;
      JobsAccount(side, c, ts[..n], crc);
      TurnAccount(side, ts[n], RunAfter(c, ts[..n], crc).At(side), crc);
    }
  }

  lemma TurnAccount(side: Side, t: Turn, p: Pair, crc: Crc)
    requires t.Valid() && AllWhole([t]) && !Current(p, crc).Damaged?
    ensures var q, wanted := PairAfter(side, t, p, crc), Wanted(side, t.job, t.m, Records(p, crc), crc);
      !Current(q, crc).Damaged? && Records(q, crc) == if HasRoom(wanted) then wanted.value else Records(p, crc)
  {
    var e, wanted := EditOf(side, t, crc), Wanted(side, t.job, t.m, Records(p, crc), crc);
    assert [t][0].ws == t.ws;
    StepsDo(side, t, p, crc);
    var q := After(p, e, crc);
    if HasRoom(wanted) {
      WantedAreRecords(side, t.job, t.m, Records(p, crc), crc);
      WrittenIsGood(e.kind, wanted.value, crc);
    }
    CopyAccount(q, CopyOf(side, t), crc);
  }

  lemma CopyAccount(p: Pair, s: Step, crc: Crc)
    requires s.Copy? && !Current(p, crc).Damaged?
    ensures !Current(After(p, s, crc), crc).Damaged? && Records(After(p, s, crc), crc) == Records(p, crc)
  {
  }

  // ---- what a run leaves, with torn writes ---------------------------------------------------

  /** Job k wrote the pair's .work, and wrote it whole. */
  ghost predicate WroteAt(side: Side, c: Cards, ts: seq<Turn>, k: nat, crc: Crc)
    requires AllValid(ts) && k < |ts|
  {
    Done(Before(side, c, ts, k, crc), EditOf(side, ts[k], crc), crc)
  }

  /** What job k wanted of the records it found. */
  ghost function WantedAt(side: Side, c: Cards, ts: seq<Turn>, k: nat, crc: Crc): (rs: Option<seq<Rec>>)
    requires AllValid(ts) && k < |ts|
    ensures WroteAt(side, c, ts, k, crc) ==> rs.Some?
  {
    Wanted(side, ts[k].job, ts[k].m, Records(Before(side, c, ts, k, crc), crc), crc)
  }

  /** A job copied a good .work to .strd, whole. */
  ghost predicate Saves(side: Side, t: Turn, p: Pair, crc: Crc)
    requires t.Valid()
  {
    Copies(side, t, p, crc) && CopyOf(side, t).w.Completed? && Good(After(p, EditOf(side, t, crc), crc).work, crc)
  }

  /** The records of the last whole write, or else the first ones. */
  ghost function Latest(side: Side, c: Cards, first: seq<Rec>, ts: seq<Turn>, crc: Crc): seq<Rec>
    requires AllValid(ts)
  {
    if ts == [] then first
    else
      var n := |ts| - 1;
      if WroteAt(side, c, ts, n, crc) then WantedAt(side, c, ts, n, crc).value
      else Latest(side, c, first, ts[..n], crc)
  }

  /** The latest records at the last whole copy, or else those first saved. */
  ghost function LatestSaved(side: Side, c: Cards, first: Ledger, ts: seq<Turn>, crc: Crc): seq<Rec>
    requires AllValid(ts)
  {
    if ts == [] then first.saved
    else
      var n := |ts| - 1;
      if Saves(side, ts[n], Before(side, c, ts, n, crc), crc) then Latest(side, c, first.latest, ts, crc)
      else LatestSaved(side, c, first, ts[..n], crc)
  }

  /** A job's torn writes leave a file as it was, or no good file. */
  ghost predicate FairTurn(side: Side, t: Turn, p: Pair, crc: Crc)
    requires t.Valid()
  {
    var ss := Steps(side, t, p, crc);
    forall k | 0 <= k < |ss| :: Fair(AfterAll(p, ss[..k], crc), ss[k], crc)
  }

  ghost predicate FairAt(side: Side, c: Cards, ts: seq<Turn>, k: nat, crc: Crc)
    requires AllValid(ts) && k < |ts|
  {
    FairTurn(side, ts[k], Before(side, c, ts, k, crc), crc)
  }

  lemma TwoNoted(l: Ledger, p: Pair, a: Step, b: Step, crc: Crc)
    ensures NotedAll(l, p, [a], crc) == Noted(l, p, a, crc)
    ensures NotedAll(l, p, [a, b], crc) == Noted(Noted(l, p, a, crc), After(p, a, crc), b, crc)
  {
    OneThenTwo(p, a, b, crc);
    assert [a][..0] == [] && [a, b][..1] == [a];
  }

  lemma TurnNoted(side: Side, l: Ledger, t: Turn, p: Pair, crc: Crc)
    requires t.Valid()
    ensures var m, e := NotedAll(l, p, Steps(side, t, p, crc), crc), EditOf(side, t, crc);
      && m.latest == (if Done(p, e, crc) then Wanted(side, t.job, t.m, Records(p, crc), crc).value else l.latest)
      && m.saved == if Saves(side, t, p, crc) then m.latest else l.saved
  {
    TwoNoted(l, p, EditOf(side, t, crc), CopyOf(side, t), crc);
  }

  /** One job: a pair that agrees with a ledger agrees with what the job makes of it. */
  lemma TurnAgrees(side: Side, l: Ledger, t: Turn, p: Pair, crc: Crc)
    requires t.Valid() && Agrees(p, l, crc) && FairTurn(side, t, p, crc)
    ensures Agrees(PairAfter(side, t, p, crc), NotedAll(l, p, Steps(side, t, p, crc), crc), crc)
  {
    StepsKeep(side, t, p, crc);
    LoadedIsLatestOrSaved(p, l, Steps(side, t, p, crc), crc);
  }

  lemma FairInFront(side: Side, c: Cards, ts: seq<Turn>, n: nat, crc: Crc)
    requires AllValid(ts) && n <= |ts| && forall k | 0 <= k < |ts| :: FairAt(side, c, ts, k, crc)
    ensures forall k | 0 <= k < n :: FairAt(side, c, ts[..n], k, crc)
  {
    forall k | 0 <= k < n ensures FairAt(side, c, ts[..n], k, crc) {
      assert ts[..n][..k] == ts[..k] && FairAt(side, c, ts, k, crc);
    }
  }

  ghost function Book(side: Side, c: Cards, first: Ledger, ts: seq<Turn>, crc: Crc): Ledger
    requires AllValid(ts)
  {
    Ledger(Latest(side, c, first.latest, ts, crc), LatestSaved(side, c, first, ts, crc))
  }

  lemma BookEnd(side: Side, c: Cards, first: Ledger, ts: seq<Turn>, crc: Crc)
    requires AllValid(ts) && ts != []
    ensures var n := |ts| - 1;
      var p := Before(side, c, ts, n, crc);
      Book(side, c, first, ts, crc) == NotedAll(Book(side, c, first, ts[..n], crc), p, Steps(side, ts[n], p, crc), crc)
  {
    var n := |ts| - 1;
    TurnNoted(side, Book(side, c, first, ts[..n], crc), ts[n], Before(side, c, ts, n, crc), crc);
  }

  lemma {:induction false} JobsAgree(side: Side, c: Cards, first: Ledger, ts: seq<Turn>, crc: Crc)
    requires AllValid(ts) && Agrees(c.At(side), first, crc)
    requires forall k | 0 <= k < |ts| :: FairAt(side, c, ts, k, crc)
    ensures Agrees(RunAfter(c, ts, crc).At(side), Book(side, c, first, ts, crc), crc)
  {
    if ts != [] {
      var n := |ts| - 1;
      FairInFront(side, c, ts, n, crc);
      JobsAgree(side, c, first, ts[..n], crc);
      var p := Before(side, c, ts, n, crc);
      assert FairAt(side, c, ts, n, crc);
      TurnAgrees(side, Book(side, c, first, ts[..n], crc), ts[n], p, crc);
      BookEnd(side, c, first, ts, crc);
    }
  }

  /** After any run of jobs, however their writes tear, a pair loads what the job of the
      last whole write wanted, while .work is good, and otherwise what that was at the
      last whole copy. */
  lemma JobsLoadLatestOrSaved(side: Side, c: Cards, first: Ledger, ts: seq<Turn>, crc: Crc)
    requires AllValid(ts) && Agrees(c.At(side), first, crc)
    requires forall k | 0 <= k < |ts| :: FairAt(side, c, ts, k, crc)
    ensures var p := RunAfter(c, ts, crc).At(side);
      Loadable(p, crc) ==> Records(p, crc) == if Good(p.work, crc) then Latest(side, c, first.latest, ts, crc)
                                              else LatestSaved(side, c, first, ts, crc)
  {
    JobsAgree(side, c, first, ts, crc);
  }
}
