/** FREE LOOP's recording state (freeloop.c, `fl_gate`, `fl_rec`, `fl_play`, `fl_hold`,
    `fl_undo`, `fl_pattern`): which recorder trigs record, over whole runs, and what the
    pedals answer. */
module LoopGates {
  import opened Words
  import opened TempoSolver
  import opened LoopTrack
  import opened LoopHistory
  import opened LoopPedal
  import opened LoopRuns

  /** A recorder trig now records: the track's own fires, or its UNDO buffer's recorder
      takes it. */
  ghost predicate TrigRecords(c: Config, s: System, t: nat)
    requires c.Valid() && s.Sane() && t < TRACKS
  {
    var g := Gate(c.track[t], UndoOf(c, t), s.fl.track[t]);
    g.fires || g.injects
  }

  /** And a pass then records, on a track with an undo buffer. */
  ghost predicate TrigBegins(c: Config, s: System, t: nat)
    requires c.Valid() && s.Sane() && t < TRACKS
  {
    TrackAfter(c, s, Trig(t), t).pass.rec != 0
  }

  ghost predicate RecHeld(k: Track, e: Event) {
    e.Tick? && k.press.held == RecPedal && LongDue(k.press, e.now)
  }

  /** The event arms the track again, or may: REC, its long press, or a pattern that enters
      it with ARM or REPLACE. */
  ghost predicate Arms(c: Config, s: System, e: Event, t: nat)
    requires c.Valid() && s.Sane() && t < TRACKS
  {
    || (e.RecDown? && e.t == t)
    || (RecHeld(s.fl.track[t], e) && e.t == t)
    || (e.PatternIs? && (c.entry[e.id % PATTERNS][t] == Arm || c.entry[e.id % PATTERNS][t] == Replace))
  }

  /** The event cuts a running overdub, or may. */
  ghost predicate Cuts(c: Config, s: System, e: Event, t: nat)
    requires c.Valid() && s.Sane() && t < TRACKS
  {
    || (e.RecDown? && e.t == t)
    || (RecHeld(s.fl.track[t], e) && e.t == t)
    || (e.UndoDown? && e.t == t && UndoOf(c, t) != 0 && s.fl.track[t].pass.rec != 0)
    || (e.PatternIs? && c.entry[e.id % PATTERNS][t] != Keep)
    || e.Stop? || e.ResetAllTracks?
  }

  // ---- one event ----------------------------------------------------------------------

  lemma IdleStays(c: Config, s: System, e: Event, t: nat)
    requires c.Valid() && s.Sane() && At(e) < TRACKS && t < TRACKS && !Arms(c, s, e, t)
    requires s.fl.track[t].st == IDLE
    ensures TrackAfter(c, s, e, t).st == IDLE
  {
    if !Global(e) && At(e) != t { OthersUntouched(c, s, e, t); }
  }

  lemma OverdubStays(c: Config, s: System, e: Event, t: nat)
    requires c.Valid() && s.Sane() && At(e) < TRACKS && t < TRACKS && !Cuts(c, s, e, t)
    requires s.fl.track[t].st == OVERDUB
    ensures TrackAfter(c, s, e, t).st == OVERDUB
  {
    if !Global(e) && At(e) != t { OthersUntouched(c, s, e, t); }
  }

  /** A trig on a track that is idle records nothing, and ends the pass there is. */
  lemma IdleIsSilent(c: Config, s: System, t: nat)
    requires c.Valid() && s.Sane() && t < TRACKS && c.track[t].role != ROLE_OFF && s.fl.track[t].st == IDLE
    ensures !TrigRecords(c, s, t) && (s.playing ==> !TrigBegins(c, s, t))
  {
  }

  /** One on a track that overdubs records, and goes on overdubbing. */
  lemma OverdubRecords(c: Config, s: System, t: nat)
    requires c.Valid() && s.Sane() && t < TRACKS && c.track[t].role != ROLE_OFF && s.fl.track[t].st == OVERDUB
    ensures TrigRecords(c, s, t) && (s.playing && UndoOf(c, t) != 0 ==> TrigBegins(c, s, t))
  {
  }

  /** One on an armed track records; the track then overdubs, or, armed by a REPLACE entry,
      is idle again and due to mute its source once. */
  lemma ArmedRecords(c: Config, s: System, t: nat)
    requires c.Valid() && s.Sane() && t < TRACKS && c.track[t].role != ROLE_OFF && s.playing
    requires s.fl.track[t].st == ARMED
    ensures TrigRecords(c, s, t) && (UndoOf(c, t) != 0 ==> TrigBegins(c, s, t))
    ensures var k, k' := s.fl.track[t], TrackAfter(c, s, Trig(t), t);
      && k'.has && !(k.repl && k'.repl)
      && (k.repl ==> k'.st == IDLE && ReplaceStart(k').1 == MUTE && k'.qpend == 0)
      && (!k.repl ==> k'.st == OVERDUB && k'.rpass == k.rpass && k'.qpend == k.qpend)
  {
  }

  // ---- over runs ------------------------------------------------------------------------

  ghost predicate NoneArms(c: Config, s: System, es: seq<Event>, t: nat)
    requires c.Valid() && s.Sane() && t < TRACKS && forall e | e in es :: At(e) < TRACKS
  {
    forall i | 0 <= i < |es| :: !Arms(c, Run(c, s, es[..i]), es[i], t)
  }

  ghost predicate NoneCuts(c: Config, s: System, es: seq<Event>, t: nat)
    requires c.Valid() && s.Sane() && t < TRACKS && forall e | e in es :: At(e) < TRACKS
  {
    forall i | 0 <= i < |es| :: !Cuts(c, Run(c, s, es[..i]), es[i], t)
  }

  lemma NoneArmsBefore(c: Config, s: System, es: seq<Event>, t: nat)
    requires c.Valid() && s.Sane() && t < TRACKS && (forall e | e in es :: At(e) < TRACKS) && es != []
    requires NoneArms(c, s, es, t)
    ensures var init := es[..|es| - 1];
      && NoneArms(c, s, init, t) && es[|es| - 1] in es && !Arms(c, Run(c, s, init), es[|es| - 1], t)
  {
    var n := |es| - 1;
    forall i | 0 <= i < n ensures !Arms(c, Run(c, s, es[..n][..i]), es[..n][i], t) { assert es[..n][..i] == es[..i]; }
  }

  lemma NoneCutsBefore(c: Config, s: System, es: seq<Event>, t: nat)
    requires c.Valid() && s.Sane() && t < TRACKS && (forall e | e in es :: At(e) < TRACKS) && es != []
    requires NoneCuts(c, s, es, t)
    ensures var init := es[..|es| - 1];
      && NoneCuts(c, s, init, t) && es[|es| - 1] in es && !Cuts(c, Run(c, s, init), es[|es| - 1], t)
  {
    var n := |es| - 1;
    forall i | 0 <= i < n ensures !Cuts(c, Run(c, s, es[..n][..i]), es[..n][i], t) { assert es[..n][..i] == es[..i]; }
  }

  lemma {:induction false} IdleThroughRun(c: Config, s: System, es: seq<Event>, t: nat)
    requires c.Valid() && s.Sane() && t < TRACKS && (forall e | e in es :: At(e) < TRACKS)
    requires s.fl.track[t].st == IDLE && NoneArms(c, s, es, t)
    ensures Run(c, s, es).fl.track[t].st == IDLE
    decreases |es|
  {
    if es != [] {
      var n := |es| - 1;
      NoneArmsBefore(c, s, es, t);
      IdleThroughRun(c, s, es[..n], t);
      IdleStays(c, Run(c, s, es[..n]), es[n], t);
    }
  }

  lemma {:induction false} OverdubThroughRun(c: Config, s: System, es: seq<Event>, t: nat)
    requires c.Valid() && s.Sane() && t < TRACKS && (forall e | e in es :: At(e) < TRACKS)
    requires s.fl.track[t].st == OVERDUB && NoneCuts(c, s, es, t)
    ensures Run(c, s, es).fl.track[t].st == OVERDUB
    decreases |es|
  {
    if es != [] {
      var n := |es| - 1;
      NoneCutsBefore(c, s, es, t);
      OverdubThroughRun(c, s, es[..n], t);
      OverdubStays(c, Run(c, s, es[..n]), es[n], t);
    }
  }

  /** A REPLACE entry records one pass: its trig records, and however the run goes on,
      until something arms the track again no later trig records or begins a pass. */
  lemma ReplaceRecordsOnce(c: Config, s: System, es: seq<Event>, t: nat)
    requires c.Valid() && s.Sane() && t < TRACKS && (forall e | e in es :: At(e) < TRACKS)
    requires c.track[t].role != ROLE_OFF && s.playing && s.fl.track[t].st == ARMED && s.fl.track[t].repl
    requires NoneArms(c, Next(c, s, Trig(t)), es, t)
    ensures TrigRecords(c, s, t) && (UndoOf(c, t) != 0 ==> TrigBegins(c, s, t))
    ensures var r := Run(c, Next(c, s, Trig(t)), es);
      !TrigRecords(c, r, t) && (r.playing ==> !TrigBegins(c, r, t))
  {
    ArmedRecords(c, s, t);
    IdleThroughRun(c, Next(c, s, Trig(t)), es, t);
    IdleIsSilent(c, Run(c, Next(c, s, Trig(t)), es), t);
  }

  /** An overdub armed otherwise records at its trig and at every later one until it is
      cut. */
  lemma OverdubRecordsOn(c: Config, s: System, es: seq<Event>, t: nat)
    requires c.Valid() && s.Sane() && t < TRACKS && (forall e | e in es :: At(e) < TRACKS)
    requires c.track[t].role != ROLE_OFF && s.playing && s.fl.track[t].st == ARMED && !s.fl.track[t].repl
    requires NoneCuts(c, Next(c, s, Trig(t)), es, t)
    ensures TrigRecords(c, s, t) && (UndoOf(c, t) != 0 ==> TrigBegins(c, s, t))
    ensures var r := Run(c, Next(c, s, Trig(t)), es);
      TrigRecords(c, r, t) && (r.playing && UndoOf(c, t) != 0 ==> TrigBegins(c, r, t))
  {
    ArmedRecords(c, s, t);
    OverdubThroughRun(c, Next(c, s, Trig(t)), es, t);
    OverdubRecords(c, Run(c, Next(c, s, Trig(t)), es), t);
  }

  /** The undo buffer is the recorder set, if that is one of the eight and not the track's
      own; else there is none. */
  lemma UndoBufferIs(k: Settings, t: nat)
    requires t < 8
    ensures 1 <= k.ubuf <= 8 && k.ubuf != t + 1 ==> UndoBuffer(k, t) == k.ubuf
    ensures k.ubuf == 0 || k.ubuf > 8 || k.ubuf == t + 1 ==> UndoBuffer(k, t) == 0
  {
  }

  // ---- the pedals' answers -----------------------------------------------------------------

  /** The mute an action leaves. */
  function MutedAfter(muted: bool, a: Action): bool {
    if a.mute == MUTE then true else if a.mute == UNMUTE then false else muted
  }

  /** PLAY set to MUTE NOW changes the mute at once; held long it takes that back, and
      asks for the change at the loop's start instead. */
  lemma MuteNowHeldIsEnd(c: Settings, u: nat, t: nat, k: Track, now: nat, later: nat, muted: bool,
                         solved: Option<FlTempo>)
    requires c.role != ROLE_OFF && !c.endmute && k.st != TAKE && k.qpend == 0 && W32(later - now) >= LONG_PRESS
    ensures var (down, a) := Play(c, t, k, now, true, muted, false, solved);
      var (held, b) := Hold(c, u, t, down, later, true, MutedAfter(muted, a));
      && MutedAfter(muted, a) == !muted && MutedAfter(MutedAfter(muted, a), b) == muted
      && held.qpend == (if muted then UNMUTE else MUTE)
      && held.st == k.st && held.pass == k.pass && held.has == k.has
  {
  }

  /** PLAY set to END asks for the change at the loop's start, and pressed twice for none. */
  lemma PlayIsEnd(c: Settings, t: nat, k: Track, now: nat, again: nat, muted: bool, solved: Option<FlTempo>)
    requires c.role != ROLE_OFF && c.endmute && k.st != TAKE && k.qpend == 0
    ensures var (once, a) := Play(c, t, k, now, true, muted, false, solved);
      var (twice, b) := Play(c, t, once, again, true, muted, false, solved);
      && MutedAfter(muted, a) == MutedAfter(muted, b) == muted
      && once.qpend == (if muted then UNMUTE else MUTE) && twice.qpend == 0
  {
  }

  /** Stopped, PLAY starts the sequencer with the track heard, and END acts at once. */
  lemma StoppedPedals(c: Settings, t: nat, k: Track, now: nat, muted: bool, solved: Option<FlTempo>)
    requires c.role != ROLE_OFF && k.st != TAKE
    ensures var (p, a) := Play(c, t, k, now, false, muted, false, solved);
      a.kind == DoPlay && !MutedAfter(muted, a) && p.st == k.st && p.pass == k.pass && p.qpend == k.qpend
    ensures var (p, a) := End(c.role, t, k, false, muted); p == k && MutedAfter(muted, a) == !muted
  {
  }

  /** A pattern's entry: OFF leaves the track idle, ARM and REPLACE armed, REPLACE for one
      pass; KEEP, a take and a track that is off stay as they are, and no pass changes. */
  lemma EnteredIs(role: nat, m: Entry, k: Track)
    ensures var k' := Entered(role, m, k);
      && (role == ROLE_OFF || k.st == TAKE || m == Keep ==> k' == k)
      && (role != ROLE_OFF && k.st != TAKE && m != Keep ==>
            && (m == Off <==> k'.st == IDLE) && (m != Off <==> k'.st == ARMED) && (k'.repl <==> m == Replace))
      && k'.pass == k.pass && k'.press == k.press && k'.has == k.has && k'.qpend == k.qpend && k'.rpass == k.rpass
  {
  }

  /** UNDO while a pass records cuts the recorder and leaves the track idle; at rest it only
      says what it did: nothing to undo, undone, or redone. */
  lemma UndoAnswers(role: nat, u: nat, t: nat, k: Track)
    requires role != ROLE_OFF && u != 0
    ensures var (k', a) := Undo(role, u, t, k);
      && (k.pass.rec != 0 <==> a.kind == DoCut) && (k.pass.rec != 0 ==> k'.st == IDLE && k'.pass.rec == 0)
      && (k.pass.rec == 0 ==> a.kind == OnlyToast && k'.st == k.st && k'.rpass == k.rpass)
      && (k.pass.rec == 0 ==>
            a.toast == if !k.pass.valid then NoUndo else if k.pass.undone then Redone else LoopTrack.Undone)
      && (k'.pass.cur != k.pass.cur <==>
            if k.pass.rec != 0 then k.pass.inplace || !k.pass.swap else k.pass.valid)
      && a.mute == 0 && (k.rpass == MuteDue && k.pass.rec != 0 && !k.pass.inplace ==> ReplaceStart(k').1 == 0)
  {
  }

  /** REC, by what is on: it ends the take, is refused while another track takes, starts
      one on an idle FREE track of a stopped sequencer with no loop (not a slave's), and
      otherwise arms an idle track or stops one armed or overdubbing. */
  lemma RecAnswers(c: Settings, t: nat, k: Track, playing: bool, slave: bool, taking: bool, anyLoop: bool,
                   solved: Option<FlTempo>, now: nat)
    requires c.role != ROLE_OFF && (k.st == TAKE ==> taking)
    ensures var (k', a) := Rec(c, t, k, playing, slave, taking, anyLoop, solved, now);
      var starts := !playing && c.role == ROLE_FREE && !anyLoop && k.st == IDLE && !taking;
      && (a.kind == DoLaunch <==> k.st == TAKE && solved.Some?)
      && (a.kind == DoLaunch ==> k'.st == IDLE && k'.has && a.tempo == solved)
      && (k.st == TAKE && solved.None? ==> k' == k && a.toast == OutOfRange)
      && (k.st != TAKE && taking ==> k' == k && a.toast == Busy)
      && (starts && slave ==> k' == k && a.toast == Slave)
      && (a.kind == DoTake <==> starts && !slave) && (a.kind == DoTake <==> k'.st == TAKE && k.st != TAKE)
      && (!taking && !starts ==>
            k'.st == (if k.st == IDLE then ARMED else IDLE) && (k.st != IDLE ==> !k'.repl) && k'.pass == k.pass)
  {
  }

  /** REC held long, once a press: it is UNDO on a track heard while the sequencer runs,
      but for the press that started the take, and otherwise clears the track. */
  lemma RecHeldAnswers(c: Settings, u: nat, t: nat, k: Track, now: nat, later: nat, playing: bool, muted: bool)
    requires c.role != ROLE_OFF && k.press.held == RecPedal && LongDue(k.press, now)
    ensures var (k', a) := Hold(c, u, t, k, now, playing, muted);
      && (a.kind == DoClear <==> k.press.started == 2 || !playing || muted)
      && (a.kind == DoClear ==> k'.st == IDLE && !k'.has && k'.pass == k.pass)
      && (a.kind != DoClear && k.pass.rec == 0 ==> k'.st == k.press.undo)
      && (a.kind != DoClear && u != 0 ==> (k.pass.rec != 0 <==> a.kind == DoCut))
      && k'.press == k.press.(longTaken := true) && !LongDue(k'.press, later)
  {
  }

  /** A long press is due 132000000 timer counts after its press, through the timer's wrap,
      and only while the pedal is down. */
  lemma LongPressIs(p: Press, now: nat)
    requires p.down < 0x1_0000_0000 && now < 0x1_0000_0000
    ensures LongDue(p, now) <==>
      && p.held != Up && !p.longTaken
      && (if now >= p.down then now - p.down else now + 0x1_0000_0000 - p.down) >= 132000000
  {
  }

  /** A stop leaves nothing armed, overdubbing or pending, and no pass; a take goes on. */
  lemma StopIs(k: Track)
    ensures var k' := Stopped(k);
      && k'.st != ARMED && k'.st != OVERDUB && (k.st == TAKE <==> k'.st == TAKE) && k'.qpend == 0 && !k'.repl
      && k'.pass.rec == 0 && k'.has == k.has && k'.press == k.press
  {
  }

  /** A clear forgets the loop and its passes; a reset also what is on. */
  lemma ClearIs(k: Track)
    ensures var k' := ClearedTrack(k);
      !k'.has && k'.pass == NO_PASS && !k'.repl && k'.st == k.st && k'.qpend == k.qpend && k'.press == k.press
    ensures var r := ResetTrack(k);
      && !r.has && r.pass == NO_PASS && !r.repl && r.st == IDLE && r.qpend == 0 && r.press.held == Up
      && ReplaceStart(r).1 == 0
  {
  }
}
