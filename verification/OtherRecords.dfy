/** What BRAIN's writers leave alone, told by the records' own bytes: their kind, their
    id and the first words of their payload. */
module OtherRecords {
  import opened Words
  import opened Bytes
  import opened RecordFile
  import opened CardStore
  import opened Settings
  import opened SettingsRoundTrip
  import opened SettingsStore
  import Remix
  import opened StoreWriters
  import opened TemplateStore
  import opened TemplateEdits
  import opened Sequences

  ghost function Not(mine: Rec -> bool): Rec -> bool {
    (r: Rec) => !mine(r)
  }

  /** A good file that has every record of before that is not one of `mine`, in order
      and byte for byte, and of those exactly `added`. */
  ghost predicate Exchanged(was: Pair, p: Pair, mine: Rec -> bool, added: seq<Rec>, crc: Crc) {
    && Good(p.work, crc) && p.strd == was.strd
    && Filter(Records(p, crc), Not(mine)) == Filter(Records(was, crc), Not(mine))
    && Filter(Records(p, crc), mine) == added
  }

  lemma {:induction false} PartIsFilter(rs: seq<Rec>, owned: Rec -> bool, own: bool, p: Rec -> bool)
    requires forall r | r in rs :: p(r) <==> owned(r) == own
    ensures Part(rs, owned, own) == Filter(rs, p)
  {
    if rs != [] { PartIsFilter(rs[..|rs| - 1], owned, own, p); }
  }

  lemma ReplacedIsExchanged(was: Pair, p: Pair, owned: Rec -> bool, mine: Rec -> bool, added: seq<Rec>, crc: Crc)
    requires Replaced(was, p, owned, added, crc) && forall r | IsRecord(r) :: owned(r) <==> mine(r)
    ensures Exchanged(was, p, mine, added, crc)
  {
    PartIsFilter(Records(p, crc), owned, false, Not(mine));
    PartIsFilter(Records(was, crc), owned, false, Not(mine));
    PartIsFilter(Records(p, crc), owned, true, mine);
  }

  /** SAVE FX DEFAULT and its clearing touch the defaults of that effect for no target
      and no mode, and nothing else: no other effect's, no other mode's. */
  lemma DefaultLeaves(was: Pair, p: Pair, e: Entry, vals: seq<byte>, clear: bool, w: Write, crc: Crc)
    requires e.Valid() && |vals| == 12
    requires Wrote(was, p, 0, DropOwned(Default(e.id)), DefaultRecords(e, vals, clear, crc), w, 0, crc)
    ensures var mine := (r: Rec) =>
        && IsRecord(r) && Kind(r) == 2 && Id(r) == e.id
        && |Payload(r)| >= 4 && Be16(Payload(r), 0) == 0 && Be16(Payload(r), 2) == 0xffff;
      Exchanged(was, p, mine, DefaultRecords(e, vals, clear, crc), crc)
  {
    var mine := (r: Rec) =>
      && IsRecord(r) && Kind(r) == 2 && Id(r) == e.id
      && |Payload(r)| >= 4 && Be16(Payload(r), 0) == 0 && Be16(Payload(r), 2) == 0xffff;
    DefaultWritten(was, p, e, vals, clear, w, crc);
    ReplacedIsExchanged(was, p, Default(e.id), mine, DefaultRecords(e, vals, clear, crc), crc);
  }

  /** SAVE NEW PROJECT touches the defaults of "stock.project". */
  lemma ProjectDefaultLeaves(was: Pair, p: Pair, ram: seq<byte>, clear: bool, w: Write, crc: Crc)
    requires |ram| == 0x70
    requires Wrote(was, p, 0, DropOwned(AnyDefault(PS_STORE)), ProjectDefaults(ram, clear, crc), w, 0, crc)
    ensures var mine := (r: Rec) =>
        IsRecord(r) && Kind(r) == 2 && Id(r) == [115, 116, 111, 99, 107, 46, 112, 114, 111, 106, 101, 99, 116];
      Exchanged(was, p, mine, ProjectDefaults(ram, clear, crc), crc)
  {
    var mine := (r: Rec) =>
      IsRecord(r) && Kind(r) == 2 && Id(r) == [115, 116, 111, 99, 107, 46, 112, 114, 111, 106, 101, 99, 116];
    ProjectDefaultsWritten(was, p, ram, clear, w, crc);
    ReplacedIsExchanged(was, p, AnyDefault(PS_STORE), mine, ProjectDefaults(ram, clear, crc), crc);
  }

  /** CLEAR DEFAULT of the Part default touches the defaults of "stock.part2". */
  lemma PartClearLeaves(was: Pair, p: Pair, w: Write, crc: Crc)
    requires Wrote(was, p, 0, DropOwned(AnyDefault(PART_STORE)), [], w, 0, crc)
    ensures var mine := (r: Rec) =>
        IsRecord(r) && Kind(r) == 2 && Id(r) == [115, 116, 111, 99, 107, 46, 112, 97, 114, 116, 50];
      Exchanged(was, p, mine, [], crc)
  {
    var mine := (r: Rec) =>
      IsRecord(r) && Kind(r) == 2 && Id(r) == [115, 116, 111, 99, 107, 46, 112, 97, 114, 116, 50];
    PartDefaultCleared(was, p, w, crc);
    ReplacedIsExchanged(was, p, AnyDefault(PART_STORE), mine, [], crc);
  }

  /** The knob names touch the field blocks of "stock.midi". */
  lemma NamesLeave(was: Pair, p: Pair, parts: seq<PartNames>, w: Write, crc: Crc)
    requires AllNames(parts) && Wrote(was, p, 2, DropOwned(IsNames()), NamesRecords(parts, |parts|, crc), w, 0, crc)
    ensures var mine := (r: Rec) =>
        IsRecord(r) && Kind(r) == 5 && Id(r) == [115, 116, 111, 99, 107, 46, 109, 105, 100, 105];
      Exchanged(was, p, mine, NamesRecords(parts, |parts|, crc), crc)
  {
    var mine := (r: Rec) =>
      IsRecord(r) && Kind(r) == 5 && Id(r) == [115, 116, 111, 99, 107, 46, 109, 105, 100, 105];
    NamesWritten(was, p, parts, w, crc);
    ReplacedIsExchanged(was, p, IsNames(), mine, NamesRecords(parts, |parts|, crc), crc);
  }

  /** SET AS DEFAULT touches the defaults of the template's target; of an effect's, only
      those for no target and no mode. */
  lemma SetDefaultLeaves(was: Pair, p: Pair, t: Target, which: Which, r: Rec, past: byte, w: Write, crc: Crc)
    requires 1 <= |t.id| <= 63 && IsTemplate(r, t) && SetAs(was, p, t, which, r, past, w, 0, crc)
    ensures var mine := (o: Rec) =>
        && IsRecord(o) && Kind(o) == 2 && Id(o) == t.id
        && (which == OfEffect ==> |Payload(o)| >= 4 && Be16(Payload(o), 0) == 0 && Be16(Payload(o), 2) == 0xffff);
      var d := DefaultOf(which, t.layout, Payload(r), past);
      d.Some? && Exchanged(was, p, mine, [NewRecord(2, t.id, d.value, crc)], crc)
  {
    var mine := (o: Rec) =>
      && IsRecord(o) && Kind(o) == 2 && Id(o) == t.id
      && (which == OfEffect ==> |Payload(o)| >= 4 && Be16(Payload(o), 0) == 0 && Be16(Payload(o), 2) == 0xffff);
    var d := DefaultOf(which, t.layout, Payload(r), past);
    DefaultSet(was, p, t, which, r, past, w, crc);
    ReplacedIsExchanged(was, p, DefaultsOf(which, t.id), mine, [NewRecord(K_DEFAULT, t.id, d.value, crc)], crc);
  }

  /** Storing a scope touches the settings records of the ids that the table has in that
      scope, and when a project is saved its own record of "octabam.brain". */
  lemma SettingsLeave(t: Table, vals: seq<int>, was: Pair, p: Pair, scope: nat, project: Option<seq<Effect>>,
                      kind: byte, w: Write, crc: Crc)
    requires |vals| == |t| && WellFormed(t) && (project.Some? ==> EffectsFit(project.value))
    requires var added := Added(t, vals, scope, Records(was, crc), project, crc);
      Wrote(was, p, kind, OursChoice(t, scope, project.Some?), added, w, 0, crc)
    ensures var mine := (r: Rec) =>
        && IsRecord(r)
        && (|| (Kind(r) == 1 && exists e | 0 <= e < |t| :: t[e].scope == scope && t[e].id == Id(r))
            || (project.Some? && Kind(r) == 4
                && Id(r) == [111, 99, 116, 97, 98, 97, 109, 46, 98, 114, 97, 105, 110]));
      Exchanged(was, p, mine, Added(t, vals, scope, Records(was, crc), project, crc), crc)
  {
    var mine := (r: Rec) =>
      && IsRecord(r)
      && (|| (Kind(r) == 1 && exists e | 0 <= e < |t| :: t[e].scope == scope && t[e].id == Id(r))
          || (project.Some? && Kind(r) == 4 && Id(r) == [111, 99, 116, 97, 98, 97, 109, 46, 98, 114, 97, 105, 110]));
    SettingsWritten(t, vals, was, p, scope, project, kind, w, crc);
    var owned := OwnedBy(t, scope, project.Some?);
    forall r | IsRecord(r) ensures owned(r) <==> mine(r) {
      assert StoreId(r).Some? ==> forall e | 0 <= e < |t| ::
        InStore(t[e], scope, StoreId(r).value) <==> t[e].scope == scope && t[e].id == Id(r);
    }
    ReplacedIsExchanged(was, p, owned, mine, Added(t, vals, scope, Records(was, crc), project, crc), crc);
  }

  lemma {:induction false} SortedIsFilter(rs: seq<Rec>, own: bool, p: Rec -> bool)
    requires forall r | r in rs :: p(r) <==> Remix.Mine(r) == own
    ensures Remix.Sorted(rs, own) == Filter(rs, p)
  {
    if rs != [] { SortedIsFilter(rs[..|rs| - 1], own, p); }
  }

  /** Selecting a remix touches the settings record of "octabam.remix-switch", and
      leaves one, which holds the name. */
  lemma RemixLeaves(was: Pair, p: Pair, name: Remix.Text, w: Write, crc: Crc)
    requires Remix.Saved(was, p, name, w, 0, crc)
    ensures exists r ::
      Remix.Sound(r, crc) && Remix.NameIn(Payload(r)) == name && Exchanged(was, p, IsRemix(), [r], crc)
  {
    Remix.SaveThenGet(was, p, name, w, crc);
    RemixIsExchanged(was, p, IsRemix(), crc);
    var r := Remix.Sorted(Records(p, crc), true)[0];
    assert Remix.Sound(r, crc) && Remix.NameIn(Payload(r)) == name && Exchanged(was, p, IsRemix(), [r], crc);
  }

  ghost function IsRemix(): Rec -> bool {
    (o: Rec) =>
      && IsRecord(o) && Kind(o) == 1
      && Id(o) == [111, 99, 116, 97, 98, 97, 109, 46, 114, 101, 109, 105, 120, 45, 115, 119, 105, 116, 99, 104]
  }

  lemma RemixIsExchanged(was: Pair, p: Pair, mine: Rec -> bool, crc: Crc)
    requires Good(p.work, crc) && p.strd == was.strd && forall r | IsRecord(r) :: Remix.Mine(r) <==> mine(r)
    requires Remix.Sorted(Records(p, crc), false) == Remix.Sorted(Records(was, crc), false)
    requires |Remix.Sorted(Records(p, crc), true)| == 1
    ensures Exchanged(was, p, mine, [Remix.Sorted(Records(p, crc), true)[0]], crc)
  {
    SortedIsFilter(Records(p, crc), true, mine);
    SortedIsFilter(Records(p, crc), false, Not(mine));
    SortedIsFilter(Records(was, crc), false, Not(mine));
  }
}
