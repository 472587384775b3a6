/** CHORDS FACTORY's page (adapter.c): the bank of slots and the encoder and key
    edits that change it. */
module Atelier {
  import opened Words
  import opened VoiceCost
  import opened ChordTypes
  import opened ChordBuild
  import opened VoiceLead
  import opened ChordSlots

  /** What an edit asks for: nothing, the slot as given, the slot as given with no LEAD
      answers left, or the slot as given and its notes made again. */
  datatype Edit = Ignored | Kept(slot: ChSlot) | Revoiced(slot: ChSlot) | Remade(slot: ChSlot)

  function Wrap(v: int, n: nat): (w: nat)
    requires n > 0
    ensures w < n
  {
    v % n
  }

  /** The chord changed: LEAD after a slot that holds one, else built. */
  function Rechosen(c: ChSlot, leadOk: bool): ChSlot {
    c.(lead := 0, mode := if leadOk then LEAD else BUILT)
  }

  function Moved(v: ChVoicing, i: nat, delta: int): ChVoicing
    requires v.Valid()
  {
    if i >= v.n then v else
    v.(note := v.note[i := Clamp(v.note[i] + delta, if i > 0 then v.note[i - 1] + 1 else 0,
                                 if i + 1 < v.n then v.note[i + 1] - 1 else NOTE_MAX)])
  }

  /** An encoder turned with FUNC held. `diatonic` is what the scale gives
      for the degree after, if the table of types has it. */
  function FuncTurn(c: ChSlot, index: nat, delta: int, leadOk: bool, diatonic: Option<(nat, nat)>): Edit
    requires c.Valid()
  {
    if index < VOICES then
      if c.v.n == 0 || Moved(c.v, index, delta) == c.v then Ignored
      else Revoiced(c.(v := Moved(c.v, index, delta), mode := EDIT))
    else if index == 4 then
      var d := c.(flags := 1 - c.flags);
      if c.v.n > 0 then Remade(d) else Kept(d)
    else if index == 5 && diatonic.Some? then
      Remade(Rechosen(c.(degree := if c.degree < 7 then Wrap(c.degree + delta, 7) else 0,
                         root := diatonic.value.0, kind := diatonic.value.1), leadOk))
    else Ignored
  }

  /** An encoder turned. `named` is the chord the notes are, if they are one. */
  function Turn(c: ChSlot, index: nat, delta: int, leadOk: bool, answers: nat, named: Option<(nat, nat)>): Edit
    requires c.Valid()
  {
    match index
    case 0 => Remade(Rechosen(c.(root := Wrap(c.root + delta, 12), degree := NONE), leadOk))
    case 1 => Remade(Rechosen(c.(kind := Wrap(c.kind + delta, |TYPES|), degree := NONE), leadOk))
    case 2 => Remade(c.(inv := ClampNat(c.inv + delta, 0, |TYPES[c.kind]| - 1), mode := BUILT))
    case 3 => Remade(c.(spread := ClampNat(c.spread + delta, 0, SPREADS - 1), mode := BUILT))
    case 4 => Remade(c.(oct := ClampNat(c.oct + delta, 1, OCT_MAX - 1), mode := BUILT))
    case 5 =>
      if c.v.n == 0 || !leadOk then Ignored
      else if c.mode != LEAD || answers == 0 then
        var d := if c.mode == EDIT && named.Some? then c.(root := named.value.0, kind := named.value.1) else c;
        Remade(d.(mode := LEAD, lead := 0))
      else Remade(c.(lead := ClampNat(c.lead + delta, 0, answers - 1)))
    case _ => Ignored
  }

  function ClampNat(x: int, lo: int, hi: int): (r: nat)
    requires 0 <= lo
    ensures lo <= hi ==> lo <= r <= hi
  {
    if x < lo then lo else if x > hi then (if hi < 0 then 0 else hi) else x
  }

  predicate IsChord(chord: Option<(nat, nat)>) {
    chord.Some? ==> chord.value.0 < 12 && chord.value.1 < |TYPES|
  }

  /** No knob takes a slot's parameters out of their ranges. */
  lemma TurnKeepsParameters(c: ChSlot, index: nat, delta: int, leadOk: bool, answers: nat, named: Option<(nat, nat)>)
    requires c.Valid() && IsChord(named) && answers <= LEAD_MAX
    ensures var e := Turn(c, index, delta, leadOk, answers, named);
      !e.Ignored? ==> e.slot.Valid()
  {
    TypesWellFormed(c.kind);
  }

  lemma MovedValid(v: ChVoicing, i: nat, delta: int)
    requires v.Valid()
    ensures Moved(v, i, delta).Valid()
  {
  }

  /** A slot after a chord has n LEAD answers. */
  ghost predicate HasAnswers(prev: ChVoicing, c: ChSlot, n: nat)
    requires 0 < prev.n <= |prev.note| && c.kind < |TYPES|
  {
    exists found :: TopChoices(Question(c, prev), LEAD_MAX, found) && |found| == n
  }

  method CountAnswers(prev: ChVoicing, c: ChSlot) returns (n: nat)
    requires prev.Valid() && prev.n > 0 && c.Valid()
    ensures n <= LEAD_MAX && HasAnswers(prev, c, n)
  {
    var out := new Voicing[LEAD_MAX];
    n := Lead(prev.Notes(), c.root, c.kind, c.flags % 2 == 1, out, LEAD_MAX);
    assert TopChoices(Question(c, prev), LEAD_MAX, out[..n]);
  }

  class Page {
    const bank: array2<ChSlot>
    var page: nat
    var slot: nat
    var answers: nat

    /** Every slot of every bank is well formed. */
    ghost predicate Valid()
      reads this, bank
    {
      && bank.Length0 == BANKS && bank.Length1 == SLOTS && page < BANKS && slot < SLOTS && answers <= LEAD_MAX
      && forall b, i | 0 <= b < BANKS && 0 <= i < SLOTS :: bank[b, i].Valid()
    }

    constructor ()
      ensures Valid() && fresh(bank)
      ensures forall b, i | 0 <= b < BANKS && 0 <= i < SLOTS :: bank[b, i] == CLEARED
    {
      bank := new ChSlot[BANKS, SLOTS]((b, i) => CLEARED);
      page, slot, answers := 0, 0, 0;
    }

    /** The chord of the slot before, if there is one. */
    function Before(): Option<ChVoicing>
      requires bank.Length0 == BANKS && bank.Length1 == SLOTS && page < BANKS && slot < SLOTS
      reads this, bank
    {
      if slot > 0 then Some(bank[page, slot - 1].v) else None
    }

    function LeadOk(): bool
      requires bank.Length0 == BANKS && bank.Length1 == SLOTS && page < BANKS && slot < SLOTS
      reads this, bank
    {
      Before().Some? && Before().value.n > 0
    }

    /** No slot but the one edited changed. */
    twostate predicate OthersSame()
      requires old(Valid()) && Valid() && old(page) == page && old(slot) == slot
      reads this, bank
    {
      forall b, i | 0 <= b < BANKS && 0 <= i < SLOTS && !(b == page && i == slot) :: bank[b, i] == old(bank[b, i])
    }

    /** What an edit leaves in the slot. */
    twostate predicate Carried(e: Edit)
      requires old(Valid()) && Valid() && old(page) == page && old(slot) == slot
      reads this, bank
    {
      match e
      case Ignored => bank[page, slot] == old(bank[page, slot]) && answers == old(answers)
      case Kept(s) => bank[page, slot] == s && answers == old(answers)
      case Revoiced(s) => bank[page, slot] == s && answers == 0
      case Remade(s) => s.kind < |TYPES| && exists found :: Applied(s, old(Before()), found, bank[page, slot], answers)
    }

    method Carry(e: Edit)
      requires Valid() && (!e.Ignored? ==> e.slot.Valid())
      modifies `answers, bank
      ensures Valid() && OthersSame() && Carried(e)
    {
      match e
      case Ignored =>
      case Kept(s) =>
        bank[page, slot] := s;
      case Revoiced(s) =>
        bank[page, slot] := s;
        answers := 0;
      case Remade(s) =>
        var t, n, found := SlotApply(s, Before());
        bank[page, slot] := t;
        answers := n;
    }

    method EncoderTurned(index: nat, delta: int, func: bool, diatonic: Option<(nat, nat)>, named: Option<(nat, nat)>)
      requires Valid() && IsChord(diatonic) && IsChord(named)
      modifies `answers, bank
      ensures Valid() && OthersSame()
      ensures var c := old(bank[page, slot]);
        Carried(if func then FuncTurn(c, index, delta, old(LeadOk()), diatonic)
                else Turn(c, index, delta, old(LeadOk()), old(answers), named))
    {
      var c := bank[page, slot];
      if func {
        MovedValid(c.v, index, delta);
        Carry(FuncTurn(c, index, delta, LeadOk(), diatonic));
      } else {
        TurnKeepsParameters(c, index, delta, LeadOk(), answers, named);
        Carry(Turn(c, index, delta, LeadOk(), answers, named));
      }
    }

    /** A trig key with FUNC held: its note in or out of the chord. */
    method NoteKey(k: nat, named: Option<(nat, nat)>)
      requires Valid() && k < 16 && IsChord(named)
      modifies `answers, bank
      ensures Valid() && OthersSame()
      ensures var c, d, note := old(bank[page, slot]), bank[page, slot], old(bank[page, slot]).oct * 12 + k;
        if note !in c.v.Notes() && (c.v.n == VOICES || note > NOTE_MAX) then d == c && answers == old(answers)
        else
          && answers == 0
          && (forall x :: x in d.v.Notes() <==> (x in c.v.Notes()) != (x == note))
          && d == c.(v := d.v, mode := EDIT, root := if named.Some? then named.value.0 else c.root,
                     kind := if named.Some? then named.value.1 else c.kind)
    {
      var c := bank[page, slot];
      var v, changed := Toggle(c.v, c.oct * 12 + k);
      if !changed { return; }
      c := c.(v := v, mode := EDIT);
      answers := 0;
      if named.Some? { c := c.(root := named.value.0, kind := named.value.1); }
      bank[page, slot] := c;
    }

    /** A trig key selects its slot; how many LEAD answers there are is found anew. */
    method SelectSlot(i: nat)
      requires Valid() && i < SLOTS
      modifies `slot, `answers
      ensures Valid() && slot == i && page == old(page)
      ensures if bank[page, i].v.n > 0 && bank[page, i].mode == LEAD && LeadOk()
        then HasAnswers(Before().value, bank[page, i], answers)
        else answers == 0
    {
      slot := i;
      answers := 0;
      var c := bank[page, slot];
      if c.v.n > 0 && c.mode == LEAD && LeadOk() { answers := CountAnswers(Before().value, c); }
    }

    /** chords.work read: whatever it holds, every slot is well formed. */
    method Load(bytes: array<nat>)
      requires Valid() && bytes.Length == BANKS * SLOTS * SLOT_B
      modifies bank
      ensures Valid()
      ensures forall b, i | 0 <= b < BANKS && 0 <= i < SLOTS ::
        bank[b, i] == ReadSlot(bytes[Offset(b, i)..Offset(b, i) + SLOT_B])
    {
      Unpack(bytes, bank);
      assert forall b, i | 0 <= b < BANKS && 0 <= i < SLOTS :: IsRead(bytes[..], bank[b, i], Offset(b, i));
      forall b, i | 0 <= b < BANKS && 0 <= i < SLOTS
        ensures bank[b, i] == ReadSlot(bytes[Offset(b, i)..Offset(b, i) + SLOT_B])
      {
        assert bytes[..][Offset(b, i)..Offset(b, i) + SLOT_B] == bytes[Offset(b, i)..Offset(b, i) + SLOT_B];
      }
    }
  }

  /** chords.work written and read gives back every slot, whatever edits made them. */
  method SaveThenLoad(p: Page, bytes: array<nat>)
    requires p.Valid() && bytes.Length == BANKS * SLOTS * SLOT_B
    modifies p.bank, bytes
    ensures p.Valid() && forall b, i | 0 <= b < BANKS && 0 <= i < SLOTS :: p.bank[b, i] == old(p.bank[b, i])
  {
    Pack(p.bank, bytes);
    forall b, i | 0 <= b < BANKS && 0 <= i < SLOTS
      ensures ReadSlot(bytes[Offset(b, i)..Offset(b, i) + SLOT_B]) == p.bank[b, i]
    {
      BankRoundTrip(p.bank, bytes[..], b, i);
      assert bytes[..][Offset(b, i)..Offset(b, i) + SLOT_B] == bytes[Offset(b, i)..Offset(b, i) + SLOT_B];
    }
    p.Load(bytes);
  }
}
