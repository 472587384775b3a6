/** FREE LOOP over whole runs: the engine between its pedals, the step handler
    and the recorders. The gate is asked only while the sequencer runs. A stop of
    the transport (`Halt`) reaches the engine at the next tick (`Stop`); a press may
    come between. */
module LoopRuns {
  import opened Words
  import opened TempoSolver
  import opened LoopTrack
  import opened LoopHistory
  import opened LoopPedal

  /** The engine, the eight recorder buffers and the transport. */
  datatype System = System(fl: State, buf: seq<Loop>, playing: bool) {
    ghost predicate Sane() {
      fl.Valid() && |buf| == TRACKS
    }
  }

  datatype Event =
    | RecDown(t: nat, slave: bool, solved: Option<FlTempo>, now: nat)
    | PlayDown(t: nat, now: nat, muted: bool, solved: Option<FlTempo>)
    | EndDown(t: nat, muted: bool)
    | UndoDown(t: nat)
    | Tick(t: nat, now: nat, muted: bool)
    | PedalReleased(t: nat, pedal: Pedal)
    | Trig(t: nat)
    | InjectTaken(r: nat)
    | Running(t: nat)
    | LoopStarts(t: nat)
    | ReplaceStarts(t: nat)
    | HeardAgain(t: nat)
    | PatternIs(id: nat)
    | Start
    | Halt
    | Stop
    | BuffersCleared(t: nat)
    | ResetAllTracks
    | LoopSeen(t: nat, has: bool)
    | Samples(t: nat, take: Loop)

  ghost function At(e: Event): nat {
    match e
    case RecDown(t, _, _, _) => t
    case PlayDown(t, _, _, _) => t
    case EndDown(t, _) => t
    case UndoDown(t) => t
    case Tick(t, _, _) => t
    case PedalReleased(t, _) => t
    case Trig(t) => t
    case InjectTaken(r) => r
    case Running(t) => t
    case LoopStarts(t) => t
    case ReplaceStarts(t) => t
    case HeardAgain(t) => t
    case PatternIs(_) => 0
    case Start => 0
    case Halt => 0
    case Stop => 0
    case BuffersCleared(t) => t
    case ResetAllTracks => 0
    case LoopSeen(t, _) => t
    case Samples(t, _) => t
  }

  ghost function UndoOf(c: Config, t: nat): nat
    requires c.Valid() && t < TRACKS
  {
    UndoBuffer(c.track[t], t)
  }

  /** The buffer that cur (or a pass) `b` of track `t` names. */
  ghost function Index(c: Config, t: nat, b: Bit): (r: nat)
    requires c.Valid() && t < TRACKS
    ensures r < TRACKS
  {
    if b == 1 && UndoOf(c, t) != 0 then UndoOf(c, t) - 1 else t
  }

  /** Whether samples reach the track's buffers: its pass or its take records, or, with
      no UNDO buffer, any trig let through. A track that is off records on its own,
      outside the engine: its recorder's buffer is no looping track's here. */
  ghost predicate Records(c: Config, k: Track, t: nat)
    requires c.Valid() && t < TRACKS
  {
    c.track[t].role != ROLE_OFF && (k.pass.rec != 0 || k.st == TAKE || UndoOf(c, t) == 0)
  }

  ghost predicate Runs(a: Action) {
    a.kind == DoLaunch || a.kind == DoPlay
  }

  /** One event. The track an event names is one of the eight. */
  ghost function Next(c: Config, s: System, e: Event): (r: System)
    requires c.Valid() && s.Sane() && At(e) < TRACKS
    ensures r.Sane()
  {
    var t := At(e);
    var k, g, u := s.fl.track[t], c.track[t], UndoOf(c, t);
    match e
    case RecDown(_, slave, solved, now) =>
      var (k', a) := Rec(g, t, k, s.playing, slave, s.fl.Taking(), s.fl.AnyLoop(), solved, now);
      s.(fl := s.fl.With(t, k'), playing := s.playing || Runs(a))
    case PlayDown(_, now, muted, solved) =>
      var (k', a) := Play(g, t, k, now, s.playing, muted, s.fl.Taking(), solved);
      s.(fl := s.fl.With(t, k'), playing := s.playing || Runs(a))
    case EndDown(_, muted) => s.(fl := s.fl.With(t, End(g.role, t, k, s.playing, muted).0))
    case UndoDown(_) => s.(fl := s.fl.With(t, Undo(g.role, u, t, k).0))
    case Tick(_, now, muted) => s.(fl := s.fl.With(t, Hold(g, u, t, k, now, s.playing, muted).0))
    case PedalReleased(_, pedal) => s.(fl := s.fl.With(t, k.(press := Release(k.press, pedal))))
    case Trig(_) => if s.playing then s.(fl := GateAll(c, s.fl, t)) else s
    case InjectTaken(_) => s.(fl := s.fl.(inj := s.fl.inj[t := 0]))
    case Running(_) => s.(fl := s.fl.With(t, k.(pass := RecRunning(k.pass))))
    case LoopStarts(_) => s.(fl := s.fl.With(t, k.(qpend := 0)))
    case ReplaceStarts(_) => s.(fl := s.fl.With(t, ReplaceStart(k).0))
    case HeardAgain(_) => s.(fl := s.fl.With(t, if k.rpass == UnmuteNow then k.(rpass := NoMute) else k))
    case PatternIs(id) => if s.fl.seen && s.fl.pattern == id then s else s.(fl := EnteredAll(c, s.fl, id))
    case Start => s.(playing := true)
    case Halt => s.(playing := false)
    case Stop => s.(fl := StoppedAll(s.fl), playing := false)
    case BuffersCleared(_) =>
      s.(fl := s.fl.With(t, ClearedTrack(k)), buf := s.buf[t := []][Index(c, t, 1) := []])
    case ResetAllTracks => s.(fl := ResetAll(s.fl), buf := seq(TRACKS, _ => []))
    case LoopSeen(_, has) => s.(fl := s.fl.With(t, k.(has := has)))
    case Samples(_, take) =>
      if Records(c, k, t) then s.(buf := s.buf[Index(c, t, Target(k.pass)) := take]) else s
  }

  ghost function Run(c: Config, s: System, es: seq<Event>): (r: System)
    requires c.Valid() && s.Sane()
    requires forall e | e in es :: At(e) < TRACKS
    ensures r.Sane()
    decreases |es|
  {
    if es == [] then s else Next(c, Run(c, s, es[..|es| - 1]), es[|es| - 1])
  }

  ghost function PowerUp(): System {
    System(State(seq(TRACKS, _ => STOCK), seq(TRACKS, _ => 0), 0, false), seq(TRACKS, _ => []), false)
  }

  // ---- the invariant ---------------------------------------------------------

  /** REC's held press restores an idle, armed or overdubbing track, never a
      take, although the byte's value 1 also stands for PLAY's mute. */
  ghost predicate PressInv(k: Track) {
    && k.st <= OVERDUB
    && (k.press.held == RecPedal ==> k.press.undo == IDLE || k.press.undo == ARMED || k.press.undo == OVERDUB)
  }

  ghost predicate TrackInv(c: Config, t: nat, k: Track)
    requires c.Valid() && t < TRACKS
  {
    PassInv(c.track[t].undoto, UndoOf(c, t), k.pass) && PressInv(k) && (k.pass.rec != 0 ==> k.st != TAKE)
  }

  ghost predicate OneTake(s: System) {
    && s.Sane() && (forall t | 0 <= t < TRACKS :: PressInv(s.fl.track[t]))
    && (forall t, r | 0 <= t < TRACKS && 0 <= r < TRACKS && s.fl.track[t].st == TAKE && s.fl.track[r].st == TAKE ::
          t == r)
  }

  ghost predicate Inv(c: Config, s: System)
    requires c.Valid()
  {
    OneTake(s) && AllTracksInv(c, s)
  }

  ghost predicate AllTracksInv(c: Config, s: System)
    requires c.Valid()
  {
    s.Sane() && forall t | 0 <= t < TRACKS :: TrackInv(c, t, s.fl.track[t])
  }

  ghost predicate ByteSettings(c: Config)
    requires c.Valid()
  {
    forall t | 0 <= t < TRACKS :: c.track[t].undoto < 256
  }

  // ---- what an event does to one track -----------------------------------------

  /** The track after the event. */
  ghost function TrackAfter(c: Config, s: System, e: Event, t: nat): Track
    requires c.Valid() && s.Sane() && At(e) < TRACKS && t < TRACKS
  {
    Next(c, s, e).fl.track[t]
  }

  /** Whether the long press due now is an UNDO. */
  ghost predicate HoldUndoes(c: Settings, u: nat, k: Track, now: nat, playing: bool, muted: bool) {
    && u != 0 && c.role != ROLE_OFF && LongDue(k.press, now)
    && k.press.held == RecPedal && k.press.started != 2 && playing && !muted
  }

  /** A track's passes change only at its own gate, undo, launch, clear and
      recorder start, at a stop and at a reset. */
  ghost function PassAfter(c: Config, s: System, e: Event, t: nat): Pass
    requires c.Valid() && s.Sane() && At(e) < TRACKS && t < TRACKS
  {
    var k, g, u := s.fl.track[t], c.track[t], UndoOf(c, t);
    if e == Trig(t) && s.playing then Gate(g, u, k).track.pass
    else if e == UndoDown(t) && g.role != ROLE_OFF && u != 0 then UndoPass(k.pass)
    else if e.Tick? && e.t == t && HoldUndoes(g, u, k, e.now, s.playing, e.muted) then UndoPass(k.pass)
    else if e == Running(t) then RecRunning(k.pass)
    else if e == Stop then PassDrop(k.pass)
    else if e == BuffersCleared(t) || e == ResetAllTracks then NO_PASS
    else k.pass
  }

  /** The track's take is launched. */
  ghost predicate IsLaunch(c: Settings, k: Track, k': Track) {
    k.st == TAKE && k'.st == IDLE && k'.pass == PassLaunched(c.undoto, k.pass)
  }

  /** The events that concern every track at once. */
  ghost predicate Global(e: Event) {
    e.PatternIs? || e.Start? || e.Halt? || e.Stop? || e.ResetAllTracks?
  }

  ghost predicate IsPress(e: Event) {
    e.RecDown? || e.PlayDown?
  }

  lemma OthersUntouched(c: Config, s: System, e: Event, t: nat)
    requires c.Valid() && s.Sane() && At(e) < TRACKS && t < TRACKS && !Global(e) && At(e) != t
    ensures TrackAfter(c, s, e, t) == s.fl.track[t]
  {
  }

  lemma RecEffect(c: Settings, t: nat, k: Track, playing: bool, slave: bool, taking: bool, anyLoop: bool,
                  solved: Option<FlTempo>, now: nat)
    requires k.st == TAKE ==> taking
    ensures var k' := Rec(c, t, k, playing, slave, taking, anyLoop, solved, now).0;
      && (k'.pass == k.pass || IsLaunch(c, k, k'))
      && (PressInv(k) ==> PressInv(k')) && (k'.st == TAKE && k.st != TAKE ==> !taking && !playing)
  {
  }

  lemma PlayEffect(c: Settings, t: nat, k: Track, now: nat, playing: bool, muted: bool, taking: bool,
                   solved: Option<FlTempo>)
    ensures var k' := Play(c, t, k, now, playing, muted, taking, solved).0;
      && (k'.pass == k.pass || IsLaunch(c, k, k'))
      && (PressInv(k) ==> PressInv(k')) && (k'.st == TAKE ==> k.st == TAKE)
  {
  }

  lemma HoldEffect(c: Settings, u: nat, t: nat, k: Track, now: nat, playing: bool, muted: bool)
    ensures var k' := Hold(c, u, t, k, now, playing, muted).0;
      && k'.pass == (if HoldUndoes(c, u, k, now, playing, muted) then UndoPass(k.pass) else k.pass)
      && (PressInv(k) ==> PressInv(k') && (k'.st == TAKE ==> k.st == TAKE))
  {
  }

  /** An event that is no pedal press on this track neither starts a take nor
      makes a held press restore one. */
  ghost predicate Quiet(k: Track, k': Track) {
    && k'.press.undo == k.press.undo && (k'.press.held == k.press.held || k'.press.held == Up)
    && (k'.st == k.st || (k'.st != TAKE && k'.st <= OVERDUB))
  }

  ghost predicate QuietPass(c: Config, s: System, e: Event, t: nat)
    requires c.Valid() && s.Sane() && At(e) < TRACKS && t < TRACKS
  {
    var k' := TrackAfter(c, s, e, t);
    k'.pass == PassAfter(c, s, e, t) && Quiet(s.fl.track[t], k')
  }

  lemma GlobalEffect(c: Config, s: System, e: Event, t: nat)
    requires c.Valid() && s.Sane() && At(e) < TRACKS && t < TRACKS && Global(e)
    ensures QuietPass(c, s, e, t)
  {
  }

  /** The gate, UNDO and the recorder: the events of the track's passes. */
  lemma PassEventEffect(c: Config, s: System, e: Event, t: nat)
    requires c.Valid() && s.Sane() && t < TRACKS
      && (e == Trig(t) || e == UndoDown(t) || e == Running(t) || e == BuffersCleared(t))
    ensures QuietPass(c, s, e, t)
  {
  }

  lemma OtherEventEffect(c: Config, s: System, e: Event, t: nat)
    requires c.Valid() && s.Sane() && At(e) == t && t < TRACKS && !Global(e) && !IsPress(e) && !e.Tick?
    requires e != Trig(t) && e != UndoDown(t) && e != Running(t) && e != BuffersCleared(t)
    ensures QuietPass(c, s, e, t)
  {
  }

  /** What a press or a long press leaves of the track. */
  ghost predicate Pressed(c: Config, s: System, e: Event, t: nat)
    requires c.Valid() && s.Sane() && At(e) < TRACKS && t < TRACKS
  {
    var k, k' := s.fl.track[t], TrackAfter(c, s, e, t);
    && (k'.pass == PassAfter(c, s, e, t) || (IsPress(e) && IsLaunch(c.track[t], k, k')))
    && (PressInv(k) ==> PressInv(k') && (k'.st == TAKE && k.st != TAKE ==> !s.fl.Taking() && !s.playing && e.RecDown?))
  }

  lemma RecDownEffect(c: Config, s: System, e: Event, t: nat)
    requires c.Valid() && s.Sane() && e.RecDown? && At(e) == t && t < TRACKS
    ensures Pressed(c, s, e, t)
  {
    var k := s.fl.track[t];
    RecEffect(c.track[t], t, k, s.playing, e.slave, s.fl.Taking(), s.fl.AnyLoop(), e.solved, e.now);
  }

  lemma PlayDownEffect(c: Config, s: System, e: Event, t: nat)
    requires c.Valid() && s.Sane() && e.PlayDown? && At(e) == t && t < TRACKS
    ensures Pressed(c, s, e, t)
  {
    PlayEffect(c.track[t], t, s.fl.track[t], e.now, s.playing, e.muted, s.fl.Taking(), e.solved);
  }

  lemma TickEffect(c: Config, s: System, e: Event, t: nat)
    requires c.Valid() && s.Sane() && e.Tick? && At(e) == t && t < TRACKS
    ensures Pressed(c, s, e, t)
  {
    HoldEffect(c.track[t], UndoOf(c, t), t, s.fl.track[t], e.now, s.playing, e.muted);
  }

  /** What any event does to a track: its passes change as above, or its take is
      launched; a take starts only at REC, stopped, with no other. */
  ghost predicate Affected(c: Config, s: System, e: Event, t: nat)
    requires c.Valid() && s.Sane() && At(e) < TRACKS && t < TRACKS
  {
    var k, k' := s.fl.track[t], TrackAfter(c, s, e, t);
    && (k'.pass == PassAfter(c, s, e, t) || (IsPress(e) && At(e) == t && IsLaunch(c.track[t], k, k')))
    && (PressInv(k) ==>
          && PressInv(k')
          && (k'.st == TAKE && k.st != TAKE ==> !s.fl.Taking() && !s.playing && e.RecDown? && At(e) == t))
  }

  lemma PressedIsAffected(c: Config, s: System, e: Event, t: nat)
    requires c.Valid() && s.Sane() && At(e) == t && t < TRACKS && Pressed(c, s, e, t)
    ensures Affected(c, s, e, t)
  {
  }

  lemma QuietIsAffected(c: Config, s: System, e: Event, t: nat)
    requires c.Valid() && s.Sane() && At(e) < TRACKS && t < TRACKS && QuietPass(c, s, e, t)
    ensures Affected(c, s, e, t)
  {
  }

  lemma UntouchedIsQuiet(c: Config, s: System, e: Event, t: nat)
    requires c.Valid() && s.Sane() && At(e) < TRACKS && t < TRACKS && !Global(e) && At(e) != t
    ensures QuietPass(c, s, e, t)
  {
    OthersUntouched(c, s, e, t);
  }

  lemma PressEffect(c: Config, s: System, e: Event, t: nat)
    requires c.Valid() && s.Sane() && At(e) == t && t < TRACKS && (IsPress(e) || e.Tick?)
    ensures Affected(c, s, e, t)
  {
    if e.RecDown? {
      RecDownEffect(c, s, e, t);
    } else if e.PlayDown? {
      PlayDownEffect(c, s, e, t);
    } else {
      TickEffect(c, s, e, t);
    }
    PressedIsAffected(c, s, e, t);
  }

  lemma Effect(c: Config, s: System, e: Event, t: nat)
    requires c.Valid() && s.Sane() && At(e) < TRACKS && t < TRACKS
    ensures Affected(c, s, e, t)
  {
    if At(e) == t && (IsPress(e) || e.Tick?) {
      PressEffect(c, s, e, t);
    } else {
      if Global(e) {
        GlobalEffect(c, s, e, t);
      } else if At(e) != t {
        UntouchedIsQuiet(c, s, e, t);
      } else if e == Trig(t) || e == UndoDown(t) || e == Running(t) || e == BuffersCleared(t) {
        PassEventEffect(c, s, e, t);
      } else {
        OtherEventEffect(c, s, e, t);
      }
      QuietIsAffected(c, s, e, t);
    }
  }

  // ---- takes -----------------------------------------------------------------------

  /** Every event leaves at most one track taking. */
  lemma StepKeepsOneTake(c: Config, s: System, e: Event)
    requires c.Valid() && OneTake(s) && At(e) < TRACKS
    ensures OneTake(Next(c, s, e))
  {
    forall t | 0 <= t < TRACKS ensures Affected(c, s, e, t) { Effect(c, s, e, t); }
    NoSecondTake(c, s, e);
  }

  lemma NoSecondTake(c: Config, s: System, e: Event)
    requires c.Valid() && OneTake(s) && At(e) < TRACKS && forall t | 0 <= t < TRACKS :: Affected(c, s, e, t)
    ensures OneTake(Next(c, s, e))
  {
    var s' := Next(c, s, e);
    forall t | 0 <= t < TRACKS ensures PressInv(s'.fl.track[t]) { assert Affected(c, s, e, t); }
    forall t, r | 0 <= t < TRACKS && 0 <= r < TRACKS && s'.fl.track[t].st == TAKE && s'.fl.track[r].st == TAKE
      ensures t == r
    {
      assert Affected(c, s, e, t) && Affected(c, s, e, r);
    }
  }

  lemma {:induction false} RunKeepsOneTake(c: Config, s: System, es: seq<Event>)
    requires c.Valid() && OneTake(s) && forall e | e in es :: At(e) < TRACKS
    ensures OneTake(Run(c, s, es))
    decreases |es|
  {
    if es != [] {
      RunKeepsOneTake(c, s, es[..|es| - 1]);
      StepKeepsOneTake(c, Run(c, s, es[..|es| - 1]), es[|es| - 1]);
    }
  }

  /** From power-up, over any events in any order, never two takes at once: even
      with presses between a stop and the tick that sees it. */
  lemma AtMostOneTake(c: Config, es: seq<Event>, t: nat, r: nat)
    requires c.Valid()
    requires forall e | e in es :: At(e) < TRACKS
    requires t < TRACKS && r < TRACKS
    requires Run(c, PowerUp(), es).fl.track[t].st == TAKE && Run(c, PowerUp(), es).fl.track[r].st == TAKE
    ensures t == r
  {
    RunKeepsOneTake(c, PowerUp(), es);
  }

  // ---- passes ------------------------------------------------------------------------

  lemma PassAfterInv(c: Config, s: System, e: Event, t: nat)
    requires c.Valid() && ByteSettings(c) && s.Sane() && At(e) < TRACKS && t < TRACKS
    requires PassInv(c.track[t].undoto, UndoOf(c, t), s.fl.track[t].pass)
    ensures PassInv(c.track[t].undoto, UndoOf(c, t), PassAfter(c, s, e, t))
    ensures PassAfter(c, s, e, t).rec != 0 ==>
      s.fl.track[t].pass.rec != 0 || (e == Trig(t) && s.playing && Goes(s.fl.track[t]))
    ensures e == Stop ==> PassAfter(c, s, e, t).rec == 0
  {
    var k, n, u := s.fl.track[t], c.track[t].undoto, UndoOf(c, t);
    if c.track[t].role != ROLE_OFF { GateRefines(c.track[t], u, k, [], []); }
    UndoRefines(n, u, k.pass, [], []);
    StopRefines(n, u, k.pass, [], []);
    RunningRefines(n, u, k.pass, [], []);
  }

  /** REC on a FREE track that is idle while its pass still records, no loop there and no
      take: the transport has stopped, and the stop is not seen yet. */
  ghost predicate TakesOver(c: Config, s: System, e: Event)
    requires c.Valid() && s.Sane() && At(e) < TRACKS
  {
    var k := s.fl.track[At(e)];
    && e.RecDown? && k.pass.rec != 0 && k.st == IDLE && !s.playing && !e.slave
    && c.track[e.t].role == ROLE_FREE && !s.fl.AnyLoop() && !s.fl.Taking()
  }

  /** A recording track is not taking after the event, unless the event is that one. */
  lemma OneTrack(c: Config, s: System, e: Event, t: nat)
    requires c.Valid() && ByteSettings(c) && Inv(c, s) && At(e) < TRACKS && t < TRACKS
    ensures !(TakesOver(c, s, e) && At(e) == t) ==> TrackInv(c, t, TrackAfter(c, s, e, t))
  {
    var k := s.fl.track[t];
    assert TrackInv(c, t, k) && PressInv(k);
    Effect(c, s, e, t);
    PassAfterInv(c, s, e, t);
    if k.st == TAKE { LaunchKeeps(c.track[t].undoto, UndoOf(c, t), k.pass, [], []); }
    if e == Trig(t) && Goes(k) { GateNoTake(c, s, t); }
  }

  lemma GateNoTake(c: Config, s: System, t: nat)
    requires c.Valid() && s.Sane() && t < TRACKS && Goes(s.fl.track[t])
    ensures TrackAfter(c, s, Trig(t), t).st != TAKE
  {
  }

  lemma AllTracks(c: Config, s: System, e: Event)
    requires c.Valid() && ByteSettings(c) && Inv(c, s) && At(e) < TRACKS && !TakesOver(c, s, e)
    ensures AllTracksInv(c, Next(c, s, e))
  {
    var s' := Next(c, s, e);
    forall t | 0 <= t < TRACKS ensures TrackInv(c, t, s'.fl.track[t]) { OneTrack(c, s, e, t); }
  }

  lemma OtherwiseKept(c: Config, s: System, e: Event)
    requires c.Valid() && ByteSettings(c) && Inv(c, s) && At(e) < TRACKS && !TakesOver(c, s, e)
    ensures Inv(c, Next(c, s, e))
  {
    StepKeepsOneTake(c, s, e);
    AllTracks(c, s, e);
  }

  lemma TakenOver(c: Config, s: System, e: Event)
    requires c.Valid() && s.Sane() && At(e) < TRACKS && TakesOver(c, s, e)
    ensures !Inv(c, Next(c, s, e))
  {
    var k' := TrackAfter(c, s, e, e.t);
    RecDownEffect(c, s, e, e.t);
    assert !TrackInv(c, e.t, k');
  }

  /** Every event keeps the whole invariant, but for exactly that one. */
  lemma StepKeepsInv(c: Config, s: System, e: Event)
    requires c.Valid() && ByteSettings(c) && Inv(c, s) && At(e) < TRACKS
    ensures Inv(c, Next(c, s, e)) <==> !TakesOver(c, s, e)
  {
    if TakesOver(c, s, e) { TakenOver(c, s, e); } else { OtherwiseKept(c, s, e); }
  }

  ghost predicate NeverTakesOver(c: Config, s: System, es: seq<Event>)
    requires c.Valid() && s.Sane() && forall e | e in es :: At(e) < TRACKS
  {
    forall i | 0 <= i < |es| :: !TakesOver(c, Run(c, s, es[..i]), es[i])
  }

  lemma {:induction false} RunKeepsInv(c: Config, s: System, es: seq<Event>)
    requires c.Valid() && ByteSettings(c) && Inv(c, s)
    requires forall e | e in es :: At(e) < TRACKS
    requires NeverTakesOver(c, s, es)
    ensures Inv(c, Run(c, s, es))
    decreases |es|
  {
    if es != [] {
      var most := es[..|es| - 1];
      forall i | 0 <= i < |most| ensures !TakesOver(c, Run(c, s, most[..i]), most[i]) { assert most[..i] == es[..i]; }
      RunKeepsInv(c, s, most);
      assert es[..|most|] == most;
      StepKeepsInv(c, Run(c, s, most), es[|es| - 1]);
    }
  }

  /** While the transport is stopped no pass records. */
  ghost predicate Settled(s: System) {
    s.Sane() && (!s.playing ==> forall t | 0 <= t < TRACKS :: s.fl.track[t].pass.rec == 0)
  }

  lemma SettledTrack(c: Config, s: System, e: Event, t: nat)
    requires c.Valid() && ByteSettings(c) && Inv(c, s) && Settled(s) && At(e) < TRACKS && e != Halt && t < TRACKS
    requires !Next(c, s, e).playing
    ensures TrackAfter(c, s, e, t).pass.rec == 0
  {
    assert TrackInv(c, t, s.fl.track[t]);
    Effect(c, s, e, t);
    PassAfterInv(c, s, e, t);
  }

  lemma SettledTakes(c: Config, s: System, e: Event)
    requires c.Valid() && Settled(s) && At(e) < TRACKS
    ensures !TakesOver(c, s, e)
  {
  }

  lemma SettledStep(c: Config, s: System, e: Event)
    requires c.Valid() && ByteSettings(c) && Inv(c, s) && Settled(s) && At(e) < TRACKS && e != Halt
    ensures !TakesOver(c, s, e) && Settled(Next(c, s, e))
  {
    SettledTakes(c, s, e);
    forall t | 0 <= t < TRACKS && !Next(c, s, e).playing ensures TrackAfter(c, s, e, t).pass.rec == 0 {
      SettledTrack(c, s, e, t);
    }
  }

  /** When every stop is seen at once, that event never comes: over every such run
      from power-up the invariant holds. */
  lemma {:induction false} SettledRun(c: Config, es: seq<Event>)
    requires c.Valid() && ByteSettings(c)
    requires forall e | e in es :: At(e) < TRACKS && e != Halt
    ensures Inv(c, Run(c, PowerUp(), es)) && Settled(Run(c, PowerUp(), es))
    decreases |es|
  {
    if es != [] {
      var most := es[..|es| - 1];
      var last := es[|es| - 1];
      assert last in es && forall e | e in most :: e in es;
      SettledRun(c, most);
      SettledStep(c, Run(c, PowerUp(), most), last);
      StepKeepsInv(c, Run(c, PowerUp(), most), last);
    }
  }

  // ---- a track and the two buffers that are its own ------------------------

  /** No other looping track records into track `t`'s buffers, or clears them: a track
      without an UNDO buffer clears the one its Flex slot names, here always its own.
      What stock recordings of a track that is off do to a buffer lent to this one is
      outside the engine. */
  ghost predicate Private(c: Config, t: nat)
    requires c.Valid() && t < TRACKS
  {
    && c.track[t].role != ROLE_OFF && UndoOf(c, t) != 0
    && forall r, b: Bit, d: Bit | 0 <= r < TRACKS && r != t && c.track[r].role != ROLE_OFF ::
      Index(c, r, b) != Index(c, t, d)
  }

  ghost function LoopIn(c: Config, s: System, t: nat, b: Bit): Loop
    requires c.Valid() && t < TRACKS && s.Sane()
  {
    s.buf[Index(c, t, b)]
  }

  ghost function PassOf(s: System, t: nat): Pass
    requires s.Sane() && t < TRACKS
  {
    s.fl.track[t].pass
  }

  ghost function HistoryAt(c: Config, s: System, t: nat): History
    requires c.Valid() && t < TRACKS && s.Sane()
  {
    HistoryOf(c.track[t].undoto, PassOf(s, t), LoopIn(c, s, t, 0), LoopIn(c, s, t, 1))
  }

  ghost predicate PassInvAt(c: Config, s: System, t: nat)
    requires c.Valid() && t < TRACKS
  {
    s.Sane() && PassInv(c.track[t].undoto, UndoOf(c, t), PassOf(s, t))
  }

  /** The event clears this track's buffers, or those of a track that is off, which
      may be one of them. */
  ghost predicate Clears(c: Config, t: nat, e: Event)
    requires c.Valid() && t < TRACKS && At(e) < TRACKS
  {
    e.BuffersCleared? && (e.t == t || c.track[e.t].role == ROLE_OFF)
  }

  /** The events that write one of the track's two buffers. */
  ghost predicate Writes(c: Config, t: nat, e: Event)
    requires c.Valid() && t < TRACKS && At(e) < TRACKS
  {
    Clears(c, t, e) || e.ResetAllTracks? || (e.Samples? && e.t == t)
  }

  lemma BufferFrame(c: Config, s: System, e: Event, t: nat, b: Bit)
    requires c.Valid() && s.Sane() && At(e) < TRACKS && t < TRACKS && Private(c, t)
    requires !Writes(c, t, e) || (e.Samples? && PassOf(s, t).rec != 0 && b != Target(PassOf(s, t)))
    ensures LoopIn(c, Next(c, s, e), t, b) == LoopIn(c, s, t, b)
  {
    if e.BuffersCleared? { assert Index(c, e.t, 0) != Index(c, t, b) && Index(c, e.t, 1) != Index(c, t, b); }
  }

  /** The events that may put a new loop where UNDO TO's was: a REPLACE pass,
      a clear, a reset, a new take. */
  ghost predicate Renews(c: Config, s: System, t: nat, e: Event)
    requires c.Valid() && t < TRACKS && s.Sane() && At(e) < TRACKS
  {
    var k := s.fl.track[t];
    || (e == Trig(t) && s.playing && Replaces(k))
    || Clears(c, t, e) || e.ResetAllTracks?
    || (k.st == TAKE && At(e) == t && (IsPress(e) || e.Samples?))
  }

  /** At the gate UNDO TO's loop stays named and in its buffer. */
  lemma GateKeeps(c: Settings, u: nat, k: Track)
    requires PassInv(c.undoto, u, k.pass) && c.undoto < 256 && HasAnchor(c.undoto, k.pass) && !Replaces(k)
    ensures var p := Gate(c, u, k).track.pass;
      HasAnchor(c.undoto, p) && Kept(p) == Kept(k.pass)
  {
  }

  lemma PassKept(c: Config, s: System, e: Event, t: nat)
    requires c.Valid() && ByteSettings(c) && At(e) < TRACKS && t < TRACKS && PassInvAt(c, s, t)
    requires HasAnchor(c.track[t].undoto, PassOf(s, t)) && !Renews(c, s, t, e)
    ensures var p, p' := PassOf(s, t), PassAfter(c, s, e, t);
      HasAnchor(c.track[t].undoto, p') && Kept(p') == Kept(p)
  {
    if !Replaces(s.fl.track[t]) { GateKeeps(c.track[t], UndoOf(c, t), s.fl.track[t]); }
  }

  /** UNDO TO names a loop in `b`, which holds `loop`. */
  ghost predicate Keeping(c: Config, s: System, t: nat, b: Bit, loop: Loop)
    requires c.Valid() && t < TRACKS
  {
    PassInvAt(c, s, t) && HasAnchor(c.track[t].undoto, PassOf(s, t)) && Kept(PassOf(s, t)) == b
      && LoopIn(c, s, t, b) == loop
  }

  /** UNDO TO's loop outlives every other event: it stays named, in the same
      buffer, with the same samples. */
  lemma KeptThroughStep(c: Config, s: System, e: Event, t: nat, b: Bit, loop: Loop)
    requires c.Valid() && ByteSettings(c) && At(e) < TRACKS && t < TRACKS && Private(c, t)
    requires Keeping(c, s, t, b, loop) && !Renews(c, s, t, e)
    ensures Keeping(c, Next(c, s, e), t, b, loop)
  {
    Effect(c, s, e, t);
    PassAfterInv(c, s, e, t);
    PassKept(c, s, e, t);
    if e.Samples? && e.t == t && PassOf(s, t).rec == 0 {
      assert Next(c, s, e) == s;
    } else {
      BufferFrame(c, s, e, t, b);
    }
  }

  ghost predicate NeverRenews(c: Config, s: System, t: nat, es: seq<Event>)
    requires c.Valid() && s.Sane() && t < TRACKS
    requires forall e | e in es :: At(e) < TRACKS
  {
    forall i | 0 <= i < |es| :: !Renews(c, Run(c, s, es[..i]), t, es[i])
  }

  lemma {:induction false} KeptThroughRun(c: Config, s: System, es: seq<Event>, t: nat, b: Bit, loop: Loop)
    requires c.Valid() && ByteSettings(c) && t < TRACKS && Private(c, t)
    requires forall e | e in es :: At(e) < TRACKS
    requires Keeping(c, s, t, b, loop) && NeverRenews(c, s, t, es)
    ensures Keeping(c, Run(c, s, es), t, b, loop)
    decreases |es|
  {
    if es != [] {
      var most, last := es[..|es| - 1], es[|es| - 1];
      forall i | 0 <= i < |most| ensures !Renews(c, Run(c, s, most[..i]), t, most[i]) {
        assert most[..i] == es[..i];
      }
      KeptThroughRun(c, s, most, t, b, loop);
      assert es[..|most|] == most;
      KeptThroughStep(c, Run(c, s, most), last, t, b, loop);
    }
  }

  /** The track is at rest on the loop `loop` in buffer `b`. */
  ghost predicate RestsOn(c: Config, s: System, t: nat, b: Bit, loop: Loop)
    requires c.Valid() && t < TRACKS && s.Sane()
  {
    var h := HistoryAt(c, s, t);
    PassOf(s, t).cur == b && PassOf(s, t).rec == 0 && h.deck.Rest? && h.deck.heard == loop
  }

  /** UNDO TO n keeps its loop: however long the run, and whatever the pass in
      progress, a single UNDO from the other buffer plays the loop named, with the
      samples it had then. */
  lemma UndoToReturns(c: Config, s: System, es: seq<Event>, t: nat, b: Bit, loop: Loop)
    requires c.Valid() && ByteSettings(c) && t < TRACKS && Private(c, t)
    requires forall e | e in es :: At(e) < TRACKS
    requires Keeping(c, s, t, b, loop) && NeverRenews(c, s, t, es)
    requires PassOf(Run(c, s, es), t).cur != b
    ensures RestsOn(c, Next(c, Run(c, s, es), UndoDown(t)), t, b, loop)
  {
    KeptThroughRun(c, s, es, t, b, loop);
    UndoRests(c, Run(c, s, es), t, b, loop);
  }

  lemma UndoRests(c: Config, s: System, t: nat, b: Bit, loop: Loop)
    requires c.Valid() && ByteSettings(c) && t < TRACKS && Private(c, t)
    requires Keeping(c, s, t, b, loop) && PassOf(s, t).cur != b
    ensures RestsOn(c, Next(c, s, UndoDown(t)), t, b, loop)
  {
    PassEventEffect(c, s, UndoDown(t), t);
    PassAfterInv(c, s, UndoDown(t), t);
    BufferFrame(c, s, UndoDown(t), t, b);
  }

  // ---- the recordings counted --------------------------------------------------

  /** The n-th recording is what UNDO TO names: the gate that ends the pass counted
      n names the buffer the pass recorded into, with what it recorded. */
  lemma NthPassIsNamed(c: Config, s: System, t: nat)
    requires c.Valid() && ByteSettings(c) && t < TRACKS && Private(c, t) && PassInvAt(c, s, t) && s.playing
    requires PassOf(s, t).rec != 0 && PassOf(s, t).npass + 1 == c.track[t].undoto < 128 && !Replaces(s.fl.track[t])
    ensures var b := Target(PassOf(s, t)); Keeping(c, Next(c, s, Trig(t)), t, b, LoopIn(c, s, t, b))
  {
    var n, u, k, b := c.track[t].undoto, UndoOf(c, t), s.fl.track[t], Target(PassOf(s, t));
    PassEventEffect(c, s, Trig(t), t);
    PassAfterInv(c, s, Trig(t), t);
    PassOverSettles(n, u, k.pass, [], []);
    var q := PassOver(n, k.pass);
    AnchorByteHolds(n, q.cur, q);
    GateKeeps(c.track[t], u, k.(pass := q));
    BufferFrame(c, s, Trig(t), t, b);
  }

  /** The take is the loop's 1st recording, and with UNDO TO 1 launching it names the
      buffer played, which is the take's own exactly when the track plays that. */
  lemma TakeIsNamed(c: Config, s: System, t: nat, take: Loop, launch: Event)
    requires c.Valid() && ByteSettings(c) && t < TRACKS && Private(c, t) && PassInvAt(c, s, t) && PassOf(s, t).rec == 0
    requires s.fl.track[t].st == TAKE && c.track[t].undoto == 1 && IsPress(launch) && launch.t == t
      && launch.solved.Some?
    ensures var m := Next(c, s, Samples(t, take));
      var r := Next(c, m, launch);
      && HasAnchor(1, PassOf(r, t)) && Kept(PassOf(r, t)) == PassOf(s, t).cur
      && LoopIn(c, r, t, Kept(PassOf(r, t))) == (if PassOf(s, t).cur == 0 then take else LoopIn(c, s, t, 1))
      && (take != LoopIn(c, s, t, 1) ==> (LoopIn(c, r, t, Kept(PassOf(r, t))) == take <==> PassOf(s, t).cur == 0))
  {
    var m := Next(c, s, Samples(t, take));
    assert Index(c, t, 0) != Index(c, t, 1);
    assert m == s.(buf := s.buf[t := take]);
    var k := s.fl.track[t];
    LaunchKeeps(1, UndoOf(c, t), k.pass, [], []);
    LaunchHappens(c, m, t, launch);
    BufferFrame(c, m, launch, t, k.pass.cur);
  }

  lemma LaunchHappens(c: Config, s: System, t: nat, launch: Event)
    requires c.Valid() && s.Sane() && t < TRACKS && c.track[t].role != ROLE_OFF && s.fl.track[t].st == TAKE
    requires IsPress(launch) && launch.t == t && launch.solved.Some?
    ensures IsLaunch(c.track[t], s.fl.track[t], TrackAfter(c, s, launch, t))
  {
  }

  lemma {:induction false} RunFront(c: Config, s: System, e: Event, es: seq<Event>)
    requires c.Valid() && s.Sane() && At(e) < TRACKS && forall x | x in es :: At(x) < TRACKS
    ensures (forall x | x in [e] + es :: At(x) < TRACKS) && Run(c, s, [e] + es) == Run(c, Next(c, s, e), es)
    decreases |es|
  {
    var all := [e] + es;
    if es == [] {
      assert all[..0] == [];
    } else {
      var n := |es| - 1;
      RunFront(c, s, e, es[..n]);
      assert all[..n + 1] == [e] + es[..n];
    }
  }

  lemma {:induction false} RunJoin(c: Config, s: System, es: seq<Event>, fs: seq<Event>)
    requires c.Valid() && s.Sane() && (forall x | x in es :: At(x) < TRACKS) && forall x | x in fs :: At(x) < TRACKS
    ensures (forall x | x in es + fs :: At(x) < TRACKS) && Run(c, s, es + fs) == Run(c, Run(c, s, es), fs)
    decreases |fs|
  {
    if fs == [] {
      assert es + fs == es;
    } else {
      var n := |fs| - 1;
      RunJoin(c, s, es, fs[..n]);
      assert (es + fs)[..|es + fs| - 1] == es + fs[..n];
    }
  }

  lemma RunTwo(c: Config, s: System, e: Event, f: Event)
    requires c.Valid() && s.Sane() && At(e) < TRACKS && At(f) < TRACKS
    ensures Run(c, s, [e, f]) == Next(c, Next(c, s, e), f)
  {
    RunFront(c, s, e, [f]);
    RunFront(c, Next(c, s, e), f, []);
    assert [e, f] == [e] + [f] && [f] == [f] + [];
  }

  /** Four events, one after the other. */
  lemma RunFour(c: Config, s: System, e: Event, f: Event, g: Event, h: Event, m: System)
    requires c.Valid() && s.Sane() && At(e) < TRACKS && At(f) < TRACKS && At(g) < TRACKS && At(h) < TRACKS
    requires m == Next(c, Next(c, s, e), f)
    ensures Run(c, s, [e, f, g, h]) == Next(c, Next(c, m, g), h)
  {
    RunJoin(c, s, [e, f], [g, h]);
    RunTwo(c, s, e, f);
    RunTwo(c, m, g, h);
    assert [e, f, g, h] == [e, f] + [g, h];
  }

  /** Track t's state and the transport; every other track as at power-up. */
  ghost predicate Only(s: System, t: nat, k: Track, playing: bool)
    requires t < TRACKS
  {
    && s.Sane() && s.fl.track[t] == k && s.playing == playing
    && forall r | 0 <= r < TRACKS && r != t :: s.fl.track[r] == STOCK
  }

  lemma OnlyStep(c: Config, s: System, t: nat, k: Track, playing: bool, e: Event, k': Track, playing': bool)
    requires c.Valid() && t < TRACKS && Only(s, t, k, playing) && At(e) == t && !Global(e)
    requires Next(c, s, e).playing == playing' && TrackAfter(c, s, e, t) == k'
    ensures Only(Next(c, s, e), t, k', playing')
  {
    forall r | 0 <= r < TRACKS && r != t ensures TrackAfter(c, s, e, r) == STOCK { OthersUntouched(c, s, e, r); }
  }

  lemma OnlyQuiet(s: System, t: nat, k: Track, playing: bool)
    requires t < TRACKS && Only(s, t, k, playing)
    ensures k.st != TAKE ==> !s.fl.Taking()
    ensures !k.has ==> !s.fl.AnyLoop()
  {
  }

  /** REC on a stock track, playing: armed. */
  const ARMED_TRACK := STOCK.(press := Press(RecPedal, false, IDLE, 0, 0), st := ARMED)
  /** Its overdub into Y, then that overdub cut, over, and played. */
  const DUBBED_TRACK := ARMED_TRACK.(st := OVERDUB, has := true, pass := NO_PASS.(rec := 2, cur := 1))

  function RecNow(t: nat): Event {
    RecDown(t, false, None, 0)
  }

  lemma OverdubBegins(c: Config, t: nat)
    requires c.Valid() && t < TRACKS && c.track[t].role == ROLE_FREE && UndoOf(c, t) != 0
    ensures Only(Run(c, PowerUp(), [Start, RecNow(t), Trig(t), Running(t)]), t, DUBBED_TRACK, true)
  {
    var s1 := Next(c, PowerUp(), Start);
    var s2 := Next(c, s1, RecNow(t));
    var s3 := Next(c, s2, Trig(t));
    RunFour(c, PowerUp(), Start, RecNow(t), Trig(t), Running(t), s2);
    assert Only(s1, t, STOCK, true);
    OnlyQuiet(s1, t, STOCK, true);
    OnlyStep(c, s1, t, STOCK, true, RecNow(t), ARMED_TRACK, true);
    var k := DUBBED_TRACK.(pass := NO_PASS.(rec := 2, swap := true));
    OnlyStep(c, s2, t, ARMED_TRACK, true, Trig(t), k, true);
    OnlyStep(c, s3, t, k, true, Running(t), DUBBED_TRACK, true);
  }

  /** The overdub on Y over, UNDO TO 1 naming Y. */
  const PLAYS_Y := ARMED_TRACK.(press := Press(RecPedal, false, OVERDUB, 0, 0), st := IDLE, has := true,
                                pass := NO_PASS.(cur := 1, valid := true, npass := 1, anchor := 3))

  lemma OverdubEnds(c: Config, s: System, t: nat, layer: Loop)
    requires c.Valid() && t < TRACKS && c.track[t].role == ROLE_FREE && UndoOf(c, t) != 0 && c.track[t].undoto == 1
    requires Only(s, t, DUBBED_TRACK, true)
    ensures var r := Run(c, s, [Samples(t, layer), RecNow(t), Trig(t), Stop]);
      Only(r, t, PLAYS_Y, false) && LoopIn(c, r, t, 1) == layer
  {
    var s1 := Next(c, s, Samples(t, layer));
    var s2 := Next(c, s1, RecNow(t));
    var s3 := Next(c, s2, Trig(t));
    RunFour(c, s, Samples(t, layer), RecNow(t), Trig(t), Stop, s2);
    OnlyStep(c, s, t, DUBBED_TRACK, true, Samples(t, layer), DUBBED_TRACK, true);
    OnlyQuiet(s1, t, DUBBED_TRACK, true);
    var k := DUBBED_TRACK.(st := IDLE, press := PLAYS_Y.press);
    OnlyStep(c, s1, t, DUBBED_TRACK, true, RecNow(t), k, true);
    OnlyStep(c, s2, t, k, true, Trig(t), PLAYS_Y, true);
  }

  /** Taking, on Y. */
  const TAKES_ON_Y := PLAYS_Y.(has := false, st := TAKE, press := Press(RecPedal, false, IDLE, 2, 0))

  lemma TakeStarts(c: Config, s: System, t: nat)
    requires c.Valid() && t < TRACKS && c.track[t].role == ROLE_FREE && Only(s, t, PLAYS_Y, false)
    ensures var r := Next(c, Next(c, s, LoopSeen(t, false)), RecNow(t));
      Only(r, t, TAKES_ON_Y, false) && LoopIn(c, r, t, 1) == LoopIn(c, s, t, 1)
  {
    var s1, k := Next(c, s, LoopSeen(t, false)), PLAYS_Y.(has := false);
    OnlyStep(c, s, t, PLAYS_Y, false, LoopSeen(t, false), k, false);
    OnlyQuiet(s1, t, k, false);
    OnlyStep(c, s1, t, k, false, RecNow(t), TAKES_ON_Y, false);
  }

  /** A take recorded into X while the track plays Y, and launched. `f` is its tempo. */
  lemma TakeLaunched(c: Config, s: System, t: nat, take: Loop, f: FlTempo)
    requires c.Valid() && t < TRACKS && c.track[t].role == ROLE_FREE && UndoOf(c, t) != 0 && c.track[t].undoto == 1
    requires Only(s, t, PLAYS_Y, false)
    ensures var r := Run(c, s, [LoopSeen(t, false), RecNow(t), Samples(t, take), RecDown(t, false, Some(f), 0)]);
      && HasAnchor(1, PassOf(r, t)) && Kept(PassOf(r, t)) == 1 && PassOf(r, t).cur == 1
      && LoopIn(c, r, t, 0) == take && LoopIn(c, r, t, 1) == LoopIn(c, s, t, 1)
  {
    var s2 := Next(c, Next(c, s, LoopSeen(t, false)), RecNow(t));
    var last := RecDown(t, false, Some(f), 0);
    RunFour(c, s, LoopSeen(t, false), RecNow(t), Samples(t, take), last, s2);
    TakeStarts(c, s, t);
    assert Index(c, t, 0) != Index(c, t, 1);
    LaunchHappens(c, Next(c, s2, Samples(t, take)), t, last);
  }

  /** A run from power-up after which UNDO TO 1 names not the take but the overdub that
      was in Y: an overdub, a stop, a pattern whose buffer on the track is empty, and a
      take. The header's count of recordings has the take as the first. */
  lemma TakeNotNamed(c: Config, t: nat, layer: Loop, take: Loop, f: FlTempo)
    requires c.Valid() && t < TRACKS && c.track[t].role == ROLE_FREE && UndoOf(c, t) != 0 && c.track[t].undoto == 1
    ensures var es := [Start, RecNow(t), Trig(t), Running(t)] + [Samples(t, layer), RecNow(t), Trig(t), Stop]
                      + [LoopSeen(t, false), RecNow(t), Samples(t, take), RecDown(t, false, Some(f), 0)];
      && (forall e | e in es :: At(e) < TRACKS)
      && var r := Run(c, PowerUp(), es);
         HasAnchor(1, PassOf(r, t)) && LoopIn(c, r, t, Kept(PassOf(r, t))) == layer && LoopIn(c, r, t, 0) == take
  {
    var es1, es2 := [Start, RecNow(t), Trig(t), Running(t)], [Samples(t, layer), RecNow(t), Trig(t), Stop];
    var es3 := [LoopSeen(t, false), RecNow(t), Samples(t, take), RecDown(t, false, Some(f), 0)];
    OverdubBegins(c, t);
    var s1 := Run(c, PowerUp(), es1);
    OverdubEnds(c, s1, t, layer);
    TakeLaunched(c, Run(c, s1, es2), t, take, f);
    RunJoin(c, PowerUp(), es1, es2);
    RunJoin(c, PowerUp(), es1 + es2, es3);
  }

  // ---- UNDO TO LAST ----------------------------------------------------------

  /** The side the fresh pass in progress started from. */
  ghost function BaseSide(p: Pass): Bit {
    Flip(Target(p))
  }

  ghost predicate FreshPass(p: Pass) {
    p.rec != 0 && !p.inplace
  }

  /** A fresh pass into `rec`; cur has switched or not. */
  ghost predicate FreshFlags(p: Pass, rec: nat) {
    FreshPass(p) && p.rec == rec <= 2 && (if p.swap then Target(p) != p.cur else Target(p) == p.cur)
  }

  /** And its base holds `loop`. */
  ghost predicate FreshOn(c: Config, s: System, t: nat, rec: nat, loop: Loop)
    requires c.Valid() && t < TRACKS
  {
    s.Sane() && FreshFlags(PassOf(s, t), rec) && LoopIn(c, s, t, BaseSide(PassOf(s, t))) == loop
  }

  lemma FlagsAfter(c: Config, s: System, e: Event, t: nat, rec: nat)
    requires c.Valid() && s.Sane() && At(e) < TRACKS && t < TRACKS && FreshFlags(PassOf(s, t), rec)
    requires e != Trig(t) && PassAfter(c, s, e, t).rec != 0
    ensures FreshFlags(PassAfter(c, s, e, t), rec)
  {
  }

  /** While a fresh pass lasts it records into the same buffer, and no event
      writes the loop it started from. */
  lemma BaseThroughStep(c: Config, s: System, e: Event, t: nat, rec: nat, loop: Loop)
    requires c.Valid() && At(e) < TRACKS && t < TRACKS && Private(c, t) && FreshOn(c, s, t, rec, loop)
    requires e != Trig(t) && !Clears(c, t, e) && PassOf(Next(c, s, e), t).rec != 0
    ensures FreshOn(c, Next(c, s, e), t, rec, loop)
  {
    Effect(c, s, e, t);
    if PassOf(Next(c, s, e), t) == PassAfter(c, s, e, t) { FlagsAfter(c, s, e, t, rec); }
    if e.ResetAllTracks? { GlobalEffect(c, s, e, t); }
    BufferFrame(c, s, e, t, BaseSide(PassOf(s, t)));
  }

  /** The pass of track `t` lasts through the run: its gate is not asked
      again, and nothing clears its buffers, undoes it or stops the sequencer. */
  ghost predicate PassLasts(c: Config, s: System, t: nat, es: seq<Event>)
    requires c.Valid() && s.Sane() && t < TRACKS
    requires forall e | e in es :: At(e) < TRACKS
  {
    && (forall i | 0 <= i < |es| :: es[i] != Trig(t) && !Clears(c, t, es[i]))
    && (forall i | 0 <= i <= |es| :: PassOf(Run(c, s, es[..i]), t).rec != 0)
  }

  lemma {:induction false} BaseThroughRun(c: Config, s: System, es: seq<Event>, t: nat, rec: nat, loop: Loop)
    requires c.Valid() && t < TRACKS && Private(c, t) && FreshOn(c, s, t, rec, loop)
    requires forall e | e in es :: At(e) < TRACKS
    requires PassLasts(c, s, t, es)
    ensures FreshOn(c, Run(c, s, es), t, rec, loop)
    decreases |es|
  {
    if es != [] {
      var most, last := es[..|es| - 1], es[|es| - 1];
      forall i | 0 <= i <= |most| ensures PassOf(Run(c, s, most[..i]), t).rec != 0 {
        assert most[..i] == es[..i];
      }
      BaseThroughRun(c, s, most, t, rec, loop);
      assert es[..|es|] == es;
      BaseThroughStep(c, Run(c, s, most), last, t, rec, loop);
    }
  }

  /** The events that end a fresh pass and give its base back: a stop, UNDO, or REC's
      long press on the track heard. */
  ghost predicate GivesBack(c: Config, s: System, t: nat, end: Event)
    requires c.Valid() && t < TRACKS && s.Sane()
  {
    || end == Stop || end == UndoDown(t)
    || (end.Tick? && end.t == t && HoldUndoes(c.track[t], UndoOf(c, t), s.fl.track[t], end.now, s.playing, end.muted))
  }

  lemma GivenBack(c: Config, s: System, t: nat, rec: nat, loop: Loop, end: Event)
    requires c.Valid() && t < TRACKS && Private(c, t) && FreshOn(c, s, t, rec, loop) && GivesBack(c, s, t, end)
    ensures RestsOn(c, Next(c, s, end), t, BaseSide(PassOf(s, t)), loop)
  {
    Effect(c, s, end, t);
    BufferFrame(c, s, end, t, BaseSide(PassOf(s, t)));
  }

  /** UNDO TO LAST: the loop an overdub layers upon stays as it was. A fresh pass
      started at the gate, at any later moment of it, undone or stopped, leaves
      the track on the loop it played before, sample for sample. */
  lemma FreshPassIsReversible(c: Config, s: System, es: seq<Event>, t: nat, end: Event)
    requires c.Valid() && ByteSettings(c) && t < TRACKS && Private(c, t) && PassInvAt(c, s, t) && s.playing
    requires forall e | e in es :: At(e) < TRACKS
    requires FreshPass(PassOf(Next(c, s, Trig(t)), t)) && PassLasts(c, Next(c, s, Trig(t)), t, es)
    requires GivesBack(c, Run(c, Next(c, s, Trig(t)), es), t, end)
    ensures var b := PassOver(c.track[t].undoto, PassOf(s, t)).cur;
      RestsOn(c, Next(c, Run(c, Next(c, s, Trig(t)), es), end), t, b, LoopIn(c, s, t, b))
  {
    var g, b := Next(c, s, Trig(t)), PassOver(c.track[t].undoto, PassOf(s, t)).cur;
    FreshStarts(c, s, t);
    BaseThroughRun(c, g, es, t, PassOf(g, t).rec, LoopIn(c, s, t, b));
    GivenBack(c, Run(c, g, es), t, PassOf(g, t).rec, LoopIn(c, s, t, b), end);
  }

  lemma FreshStarts(c: Config, s: System, t: nat)
    requires c.Valid() && ByteSettings(c) && t < TRACKS && Private(c, t) && PassInvAt(c, s, t) && s.playing
    requires FreshPass(PassOf(Next(c, s, Trig(t)), t))
    ensures var g, b := Next(c, s, Trig(t)), PassOver(c.track[t].undoto, PassOf(s, t)).cur;
      FreshOn(c, g, t, PassOf(g, t).rec, LoopIn(c, s, t, b)) && BaseSide(PassOf(g, t)) == b
  {
    var g, b := Next(c, s, Trig(t)), PassOver(c.track[t].undoto, PassOf(s, t)).cur;
    PassEventEffect(c, s, Trig(t), t);
    PassAfterInv(c, s, Trig(t), t);
    FreshBase(c.track[t], UndoOf(c, t), s.fl.track[t]);
    BufferFrame(c, s, Trig(t), t, b);
  }

  /** A fresh pass starts from the buffer played once the pass before it is over. */
  lemma FreshBase(c: Settings, u: nat, k: Track)
    requires PassInv(c.undoto, u, k.pass) && c.undoto < 256 && c.role != ROLE_OFF && FreshPass(Gate(c, u, k).track.pass)
    ensures BaseSide(Gate(c, u, k).track.pass) == PassOver(c.undoto, k.pass).cur
  {
  }

  /** UNDO at rest, then REDO, is the identity on the whole track. */
  lemma UndoThenRedo(role: nat, u: nat, t: nat, k: Track)
    requires role != ROLE_OFF && u != 0 && k.pass.rec == 0
    ensures var (undone, a) := Undo(role, u, t, k);
      && Undo(role, u, t, undone).0 == k
      && (k.pass.valid ==> undone.pass.cur != k.pass.cur)
  {
  }

  /** REC held on a heard track is UNDO: the press's arm or cut is undone and
      CC 92's UNDO done, apart from the press bookkeeping. It is so exactly
      when the press does not cut a REPLACE entry, whose arming a cut forgets. */
  lemma RecHeldIsUndo(c: Settings, u: nat, t: nat, k: Track, slave: bool, anyLoop: bool, solved: Option<FlTempo>,
                      now: nat, later: nat)
    requires PassInv(c.undoto, u, k.pass) && PressInv(k) && c.role != ROLE_OFF && k.st != TAKE
    requires W32(later - now) >= LONG_PRESS
    ensures var pressed := Rec(c, t, k, true, slave, false, anyLoop, solved, now).0;
      var (held, a) := Hold(c, u, t, pressed, later, true, false);
      var (undone, b) := Undo(c.role, u, t, k);
      (held.(press := k.press) == undone && a == b) <==> !(k.repl && k.st != IDLE)
  {
    var pressed := Rec(c, t, k, true, slave, false, anyLoop, solved, now).0;
    assert pressed == k.(press := Press(RecPedal, false, k.st, 0, now), st := if k.st == IDLE then ARMED else IDLE,
                         repl := k.st == IDLE && k.repl);
  }

  /** And it is not: a pattern entered with REPLACE arms the track, and holding REC
      there forgets the REPLACE, which UNDO does not. */
  lemma ReplaceForgotten(c: Config, id: nat, t: nat, now: nat, later: nat)
    requires c.Valid() && t < TRACKS && c.track[t].role != ROLE_OFF && W32(later - now) >= LONG_PRESS
    requires c.entry[id % PATTERNS][t] == Replace
    ensures var s := Run(c, PowerUp(), [Start, PatternIs(id)]);
      var held := Next(c, Next(c, s, RecDown(t, false, None, now)), Tick(t, later, false));
      var undone := Next(c, s, UndoDown(t));
      && s.playing && s.fl.track[t].st == held.fl.track[t].st == undone.fl.track[t].st == ARMED
      && undone.fl.track[t].repl && !held.fl.track[t].repl
  {
    var s1 := Next(c, PowerUp(), Start);
    RunTwo(c, PowerUp(), Start, PatternIs(id));
    var s := Next(c, s1, PatternIs(id));
    assert s.fl.track[t] == STOCK.(repl := true, st := ARMED);
    assert !s.fl.Taking();
  }
}
