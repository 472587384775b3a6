/** What each knob of CHORDS FACTORY's page moves (adapter.c, `ch_page_enc`): which
    parameter, which way, and that a turn back undoes it. */
module ChordKnobs {
  import opened Words
  import opened ChordTypes
  import opened ChordBuild
  import opened ChordSlots
  import opened Atelier

  /** Knobs 0 and 1 turn the root and the type round and round, forget the degree, and lead
      from the chord before when there is one. */
  lemma RootAndType(c: ChSlot, delta: int, leadOk: bool, answers: nat, named: Option<(nat, nat)>)
    requires c.Valid()
    ensures var e := Turn(c, 0, delta, leadOk, answers, named);
      && e.Remade? && e.slot.root == (c.root + delta) % 12
      && e.slot == c.(root := e.slot.root, degree := NONE, lead := 0, mode := if leadOk then LEAD else BUILT)
    ensures var e := Turn(c, 1, delta, leadOk, answers, named);
      && e.Remade? && e.slot.kind == (c.kind + delta) % |TYPES|
      && e.slot == c.(kind := e.slot.kind, degree := NONE, lead := 0, mode := if leadOk then LEAD else BUILT)
  {
  }

  /** A turn back brings the root and the type back. */
  lemma TurnedBack(c: ChSlot, delta: int, leadOk: bool, answers: nat, named: Option<(nat, nat)>)
    requires c.Valid() && answers <= LEAD_MAX && IsChord(named)
    ensures var e := Turn(c, 0, delta, leadOk, answers, named);
      e.slot.Valid() && Turn(e.slot, 0, -delta, leadOk, answers, named).slot.root == c.root
    ensures var e := Turn(c, 1, delta, leadOk, answers, named);
      e.slot.Valid() && Turn(e.slot, 1, -delta, leadOk, answers, named).slot.kind == c.kind
  {
    TurnKeepsParameters(c, 0, delta, leadOk, answers, named);
    TurnKeepsParameters(c, 1, delta, leadOk, answers, named);
    WrapBack(c.root, delta, 12);
    WrapBack(c.kind, delta, |TYPES|);
  }

  lemma WrapBack(x: nat, delta: int, n: nat)
    requires x < n
    ensures ((x + delta) % n - delta) % n == x
  {
    DivBounds(x + delta, n, (x + delta) / n);
    var y := (x + delta) % n - delta;
    assert y == x + -((x + delta) / n) * n;
    DivUnique(y, n, -((x + delta) / n));
  }

  /** Knobs 2, 3 and 4 move the inversion, the spread and the octave by the turn, up to the
      end of their ranges, and build the chord. */
  lemma BuiltKnobs(c: ChSlot, delta: int, leadOk: bool, answers: nat, named: Option<(nat, nat)>)
    requires c.Valid()
    ensures var e := Turn(c, 2, delta, leadOk, answers, named);
      && e.Remade? && e.slot == c.(inv := e.slot.inv, mode := BUILT)
      && Limited(c.inv, delta, 0, |TYPES[c.kind]| - 1, e.slot.inv)
    ensures var e := Turn(c, 3, delta, leadOk, answers, named);
      e.Remade? && e.slot == c.(spread := e.slot.spread, mode := BUILT) && Limited(c.spread, delta, 0, 6, e.slot.spread)
    ensures var e := Turn(c, 4, delta, leadOk, answers, named);
      && e.Remade? && e.slot == c.(oct := e.slot.oct, mode := BUILT)
      && Limited(c.oct, delta, 1, OCT_MAX - 1, e.slot.oct)
  {
    TypesWellFormed(c.kind);
  }

  /** y is x moved by delta, or the end of the range it would pass. */
  predicate Limited(x: int, delta: int, lo: int, hi: int, y: int) {
    lo <= y <= hi && (y == x + delta || (y == lo && x + delta < lo) || (y == hi && x + delta > hi))
  }

  /** Knob 5 walks the LEAD answers; from a chord that is not led, or has no answers, it
      starts at the first, an edited one as the chord it is named. Without a chord here or
      before it does nothing. */
  lemma VoiceKnob(c: ChSlot, delta: int, leadOk: bool, answers: nat, named: Option<(nat, nat)>)
    requires c.Valid() && answers <= LEAD_MAX
    ensures var e := Turn(c, 5, delta, leadOk, answers, named);
      && (e.Ignored? <==> c.v.n == 0 || !leadOk)
      && (!e.Ignored? ==> e.Remade? && e.slot.mode == LEAD)
      && (!e.Ignored? && c.mode == LEAD && answers > 0 ==>
            e.slot == c.(lead := e.slot.lead) && Limited(c.lead, delta, 0, answers - 1, e.slot.lead))
      && (!e.Ignored? && (c.mode != LEAD || answers == 0) ==>
            && e.slot.lead == 0
            && (c.mode == EDIT && named.Some? ==>
                  e.slot == c.(root := named.value.0, kind := named.value.1, mode := LEAD, lead := 0))
            && (c.mode != EDIT || named.None? ==> e.slot == c.(mode := LEAD, lead := 0)))
  {
  }

  /** With FUNC knobs 0 to 3 move one note each, between its neighbours, and leave the rest;
      the chord is then an edited one. A turn that moves nothing does nothing. */
  lemma NoteKnobs(c: ChSlot, i: nat, delta: int, leadOk: bool, diatonic: Option<(nat, nat)>)
    requires c.Valid() && i < 4
    ensures var e := FuncTurn(c, i, delta, leadOk, diatonic);
      var lo := if 0 < i < c.v.n then c.v.note[i - 1] + 1 else 0;
      var hi := if i + 1 < c.v.n then c.v.note[i + 1] - 1 else 127;
      && (e.Ignored? || e.Revoiced?)
      && (i >= c.v.n ==> e.Ignored?)
      && (i < c.v.n && e.Ignored? ==> Limited(c.v.note[i], delta, lo, hi, c.v.note[i]))
      && (i < c.v.n && e.Revoiced? ==>
            && |e.slot.v.note| == 4 && e.slot == c.(v := e.slot.v, mode := EDIT) && e.slot.v.n == c.v.n
            && e.slot.v.note == c.v.note[i := e.slot.v.note[i]] && e.slot.v.note[i] != c.v.note[i]
            && Limited(c.v.note[i], delta, lo, hi, e.slot.v.note[i]))
  {
  }

  /** With FUNC knob 4 turns the root in the bass on and off, and knob 5 takes the scale's
      chord on the next degree, from the first when there was none. */
  lemma BassAndDegree(c: ChSlot, delta: int, leadOk: bool, diatonic: Option<(nat, nat)>)
    requires c.Valid()
    ensures var e := FuncTurn(c, 4, delta, leadOk, diatonic);
      && !e.Ignored? && e.slot == c.(flags := 1 - c.flags) && (e.Remade? <==> c.v.n > 0) && !e.Revoiced?
    ensures var e := FuncTurn(c, 5, delta, leadOk, diatonic);
      && (e.Ignored? <==> diatonic.None?)
      && (diatonic.Some? ==>
            && e.Remade? && e.slot.degree == (if c.degree < 7 then (c.degree + delta) % 7 else 0)
            && e.slot == c.(degree := e.slot.degree, root := diatonic.value.0, kind := diatonic.value.1,
                            lead := 0, mode := if leadOk then LEAD else BUILT))
  {
  }

  /** A chord read from its places is the notes put there. */
  lemma PaddedIs(notes: seq<nat>)
    requires |notes| <= VOICES
    ensures var v := Padded(notes);
      v.n == |notes| && |v.note| == VOICES && v.Notes() == notes && forall k | |notes| <= k < VOICES :: v.note[k] == 255
  {
  }
}
