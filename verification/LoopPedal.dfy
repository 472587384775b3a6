/** FREE LOOP's engine: the eight tracks' state and every event that changes it
    (freeloop.c). Each method does its updates in the source's order; what it
    leaves is stated by the functions of `LoopTrack`. */
module LoopPedal {
  import opened Words
  import opened TempoSolver
  import opened LoopTrack

  /** The engine's whole state as a value. */
  datatype State = State(track: seq<Track>, inj: seq<nat>, pattern: nat, seen: bool) {
    ghost predicate Valid() {
      |track| == TRACKS && |inj| == TRACKS
    }

    ghost predicate Taking() {
      exists t | 0 <= t < |track| :: track[t].st == TAKE
    }

    ghost predicate AnyLoop() {
      exists t | 0 <= t < |track| :: track[t].has
    }

    ghost function With(t: nat, k: Track): State
      requires t < |track|
    {
      this.(track := track[t := k])
    }
  }

  /** The gate's effect on the whole state: the trig handed to the UNDO
      buffer's recorder is noted there. */
  ghost function GateAll(c: Config, s: State, t: nat): State
    requires c.Valid() && s.Valid() && t < TRACKS
  {
    var u := UndoBuffer(c.track[t], t);
    var g := Gate(c.track[t], u, s.track[t]);
    State(s.track[t := g.track], if g.injects && u != 0 then s.inj[u - 1 := t + 1] else s.inj, s.pattern, s.seen)
  }

  ghost function EnteredAll(c: Config, s: State, id: nat): State
    requires c.Valid() && s.Valid()
  {
    State(seq(TRACKS, t requires 0 <= t < TRACKS => Entered(c.track[t].role, c.entry[id % PATTERNS][t], s.track[t])),
          s.inj, id % PATTERNS, true)
  }

  ghost function StoppedAll(s: State): State
    requires s.Valid()
  {
    s.(track := seq(TRACKS, t requires 0 <= t < TRACKS => Stopped(s.track[t])), inj := seq(TRACKS, _ => 0))
  }

  ghost function ResetAll(s: State): State
    requires s.Valid()
  {
    s.(track := seq(TRACKS, t requires 0 <= t < TRACKS => ResetTrack(s.track[t])), inj := seq(TRACKS, _ => 0))
  }

  ghost predicate SolvedBy(k: Settings, take: nat, r: Option<FlTempo>) {
    IsTempo(k.sig, k.bars, k.bpmLo, k.bpmHi, take, r)
  }

  class FlState {
    var track: array<Track>
    var inj: array<nat>   // per recorder, one more than the track whose pass it is to take, or 0
    var pattern: nat
    var seen: bool

    ghost predicate Valid()
      reads this
    {
      track.Length == TRACKS && inj.Length == TRACKS
    }

    ghost function Model(): (s: State)
      reads this, track, inj
      ensures Valid() ==> s.Valid()
    {
      State(track[..], inj[..], pattern, seen)
    }

    constructor ()
      ensures Valid() && fresh(track) && fresh(inj)
      ensures Model() == State(seq(TRACKS, _ => STOCK), seq(TRACKS, _ => 0), 0, false)
    {
      track := new Track[TRACKS](_ => STOCK);
      inj := new nat[TRACKS](_ => 0);
      pattern, seen := 0, false;
    }

    /** Track `t` became `k`, and no other track changed. */
    twostate predicate Changed(t: nat, k: Track)
      requires old(Valid()) && Valid() && old(track) == track
      reads this, track
    {
      t < TRACKS && track[t] == k && forall i | 0 <= i < TRACKS && i != t :: track[i] == old(track[i])
    }

    method AnyLoop() returns (b: bool)
      requires Valid()
      ensures b <==> Model().AnyLoop()
    {
      for t := 0 to TRACKS
        invariant forall i | 0 <= i < t :: !track[i].has
      {
        if track[t].has { return true; }
      }
      return false;
    }

    /** The track recording a free take, plus 1; 0 none. */
    method Taking() returns (n: nat)
      requires Valid()
      ensures n == 0 <==> !Model().Taking()
      ensures n != 0 ==> n <= TRACKS && track[n - 1].st == TAKE
    {
      for t := 0 to TRACKS
        invariant forall i | 0 <= i < t :: track[i].st != TAKE
      {
        if track[t].st == TAKE { return t + 1; }
      }
      return 0;
    }

    // ---- the pedals ----------------------------------------------------------

    method LaunchTake(c: Config, t: nat, take: nat) returns (a: Action, ghost solved: Option<FlTempo>)
      requires Valid() && c.Valid() && t < TRACKS && take < TWO_32
      modifies track
      ensures SolvedBy(c.track[t], take, solved)
      ensures var (k, b) := Launch(c.track[t], t, old(track[t]), solved);
        a == b && Changed(t, k)
    {
      var k := c.track[t];
      var tempo := Tempo(k.sig, k.bars, k.bpmLo, k.bpmHi, take);
      solved := tempo;
      if tempo.None? { return Act(OnlyToast, t, OutOfRange), solved; }
      a := Act(DoLaunch, t, TempoSet).(tempo := tempo);
      track[t] := track[t].(st := IDLE, has := true);
      var p := track[t].pass;
      p := p.(npass := 1);
      p := p.(anchor := if k.undoto == 1 then 2 + p.cur else 0);
      track[t] := track[t].(pass := p);
    }

    method PressHeld(t: nat, pedal: Pedal, now: nat)
      requires Valid() && t < TRACKS
      modifies track
      ensures Changed(t, Holding(old(track[t]), pedal, now))
    {
      track[t] := track[t].(press := Press(pedal, false, 0, 0, now));
    }

    /** What REC does to the recording: launch, refuse, take, arm or cut. The
        tempo solver is asked when the press ends a take. */
    method RecordPress(c: Config, t: nat, playing: bool, slave: bool, take: nat)
      returns (a: Action, ghost solved: Option<FlTempo>)
      requires Valid() && c.Valid() && t < TRACKS && take < TWO_32
      modifies track
      ensures old(track[t].st) == TAKE ==> SolvedBy(c.track[t], take, solved)
      ensures var (k, b) := RecPress(c.track[t], t, old(track[t]), playing, slave, old(Model().Taking()),
                                     old(Model().AnyLoop()), solved);
        a == b && Changed(t, k)
    {
      solved := None;
      if track[t].st == TAKE {
        a, solved := LaunchTake(c, t, take);
        return;
      }
      var taking := Taking();
      if taking != 0 {
        a := Act(OnlyToast, t, Busy);
        return;
      }
      var loops := AnyLoop();
      if !playing && c.track[t].role == ROLE_FREE && !loops && track[t].st == IDLE {
        if slave {
          a := Act(OnlyToast, t, Slave);
          return;
        }
        track[t] := track[t].(st := TAKE);
        a := Act(DoTake, t, Free);
      } else if track[t].st == IDLE {
        track[t] := track[t].(st := ARMED);
        a := Act(OnlyToast, t, OverdubArmed);
      } else {
        track[t] := track[t].(st := IDLE, repl := false);
        a := Act(OnlyToast, t, OverdubOff);
      }
    }

    /** REC pressed. */
    method RecPedalDown(c: Config, t: nat, playing: bool, slave: bool, take: nat, now: nat)
      returns (a: Action, ghost solved: Option<FlTempo>)
      requires Valid() && c.Valid() && take < TWO_32
      modifies track
      ensures t >= TRACKS ==> a == Act(Nothing, t, NoToast) && unchanged(track)
      ensures t < TRACKS && c.track[t].role != ROLE_OFF && old(track[t].st) == TAKE ==>
        SolvedBy(c.track[t], take, solved)
      ensures t < TRACKS ==>
        var (k, b) := Rec(c.track[t], t, old(track[t]), playing, slave, old(Model().Taking()), old(Model().AnyLoop()),
                          solved, now);
        a == b && Changed(t, k)
    {
      solved := None;
      if t >= TRACKS || c.track[t].role == ROLE_OFF {
        a := Act(Nothing, t, NoToast);
        return;
      }
      var was := track[t].st;
      a, solved := RecordPress(c, t, playing, slave, take);
      if a.kind == DoTake || a.toast == OverdubArmed || a.toast == OverdubOff {
        PressHeld(t, RecPedal, now);
        var p := track[t].press;
        p := p.(undo := was);
        if a.kind == DoTake { p := p.(started := 2); }
        track[t] := track[t].(press := p);
      }
    }

    /** END (CC 93) pressed. */
    method EndPress(c: Config, t: nat, playing: bool, muted: bool) returns (a: Action)
      requires Valid() && c.Valid()
      modifies track
      ensures t >= TRACKS ==> a == Act(Nothing, t, NoToast) && unchanged(track)
      ensures t < TRACKS ==>
        var (k, b) := End(c.track[t].role, t, old(track[t]), playing, muted);
        a == b && Changed(t, k)
    {
      if t >= TRACKS || c.track[t].role == ROLE_OFF { return Act(Nothing, t, NoToast); }
      if !playing {
        a := Act(Nothing, t, if muted then Unmuted else Muted);
        a := a.(mute := if muted then UNMUTE else MUTE);
        return;
      }
      if track[t].qpend != 0 {
        track[t] := track[t].(qpend := 0);
        return Act(OnlyToast, t, EndCancel);
      }
      track[t] := track[t].(qpend := if muted then UNMUTE else MUTE);
      return Act(OnlyToast, t, if muted then EndPlay else EndStop);
    }

    /** PLAY/STOP pressed. */
    method PlayPress(c: Config, t: nat, now: nat, playing: bool, muted: bool, take: nat)
      returns (a: Action, ghost solved: Option<FlTempo>)
      requires Valid() && c.Valid() && take < TWO_32
      modifies track
      ensures t >= TRACKS ==> a == Act(Nothing, t, NoToast) && unchanged(track)
      ensures t < TRACKS && old(track[t].st) == TAKE && c.track[t].role != ROLE_OFF ==>
        SolvedBy(c.track[t], take, solved)
      ensures t < TRACKS ==>
        var (k, b) := Play(c.track[t], t, old(track[t]), now, playing, muted, old(Model().Taking()), solved);
        a == b && Changed(t, k)
    {
      solved := None;
      if t >= TRACKS || c.track[t].role == ROLE_OFF {
        a := Act(Nothing, t, NoToast);
        return;
      }
      var taking := Taking();
      if track[t].st != TAKE && taking != 0 {
        a := Act(OnlyToast, t, Busy);
        return;
      }
      PressHeld(t, PlayPedal, now);
      if track[t].st == TAKE {
        a, solved := LaunchTake(c, t, take);
        if a.kind == DoLaunch { track[t] := track[t].(press := track[t].press.(started := 3)); }
        return;
      }
      if !playing {
        a := Act(DoPlay, t, Plays);
        var p := track[t].press.(started := 1);
        if muted {
          a := a.(mute := UNMUTE);
          p := p.(undo := MUTE);
        }
        track[t] := track[t].(press := p);
        return;
      }
      if c.track[t].endmute {
        track[t] := track[t].(press := track[t].press.(started := 4));
        a := EndPress(c, t, playing, muted);
        return;
      }
      a := Act(Nothing, t, if muted then Unmuted else Muted);
      a := a.(mute := if muted then UNMUTE else MUTE);
      track[t] := track[t].(press := track[t].press.(started := 5, undo := if muted then MUTE else UNMUTE));
    }

    /** A tick while a pedal may be held: a press held for long enough acts. */
    method HoldTick(c: Config, t: nat, now: nat, playing: bool, muted: bool) returns (a: Action)
      requires Valid() && c.Valid()
      modifies track
      ensures t >= TRACKS ==> a == Act(Nothing, t, NoToast) && unchanged(track)
      ensures t < TRACKS ==>
        var (k, b) := Hold(c.track[t], UndoBuffer(c.track[t], t), t, old(track[t]), now, playing, muted);
        a == b && Changed(t, k)
    {
      if t >= TRACKS { return Act(Nothing, t, NoToast); }
      var p := track[t].press;
      if p.held == Up || p.longTaken { return Act(Nothing, t, NoToast); }
      if c.track[t].role == ROLE_OFF || W32(now - p.down) < LONG_PRESS { return Act(Nothing, t, NoToast); }
      track[t] := track[t].(press := p.(longTaken := true));
      if p.held == PlayPedal {
        if p.started != 5 { return Act(Nothing, t, NoToast); }
        a := EndPress(c, t, playing, p.undo == MUTE);
        a := a.(mute := p.undo);
        return;
      }
      if p.started != 2 && playing && !muted {
        if track[t].pass.rec == 0 { track[t] := track[t].(st := p.undo); }
        a := UndoPress(c, t);
        return;
      }
      track[t] := track[t].(st := IDLE, has := false);
      a := Act(DoClear, t, Cleared);
    }

    /** The pedal released. */
    method PedalUp(t: nat, pedal: Pedal)
      requires Valid()
      modifies track
      ensures if t < TRACKS then Changed(t, old(track[t]).(press := Release(old(track[t].press), pedal)))
        else unchanged(track)
    {
      if t < TRACKS && track[t].press.held != Up && track[t].press.held == pedal {
        track[t] := track[t].(press := track[t].press.(held := Up, longTaken := false));
      }
    }

    // ---- the passes ------------------------------------------------------------

    method EndPass(n: nat, t: nat)
      requires Valid() && t < TRACKS
      modifies track
      ensures Changed(t, old(track[t]).(pass := PassOver(n, old(track[t].pass))))
    {
      var p := track[t].pass;
      if p.rec == 0 { return; }
      if p.swap { p := p.(cur := Flip(p.cur)); }
      p := p.(rec := 0, swap := false, valid := true, inplace := false);
      if p.npass < 255 { p := p.(npass := p.npass + 1); }
      if n != 0 && p.npass == n { p := p.(anchor := AnchorByte(n, p.cur)); }
      track[t] := track[t].(pass := p);
    }

    method DropPass(t: nat)
      requires Valid() && t < TRACKS
      modifies track
      ensures Changed(t, old(track[t]).(pass := PassDrop(old(track[t].pass))))
    {
      var p := track[t].pass;
      if p.rec == 0 { return; }
      if p.inplace {
        p := p.(valid := true);
      } else {
        if !p.swap { p := p.(cur := Flip(p.cur)); }
        p := p.(valid := false);
      }
      track[t] := track[t].(pass := p.(rec := 0, swap := false, inplace := false));
    }

    method EndReplace(t: nat)
      requires Valid() && t < TRACKS
      modifies track
      ensures Changed(t, ReplaceOver(old(track[t])))
    {
      track[t] := track[t].(repl := false);
      if track[t].rpass == UnmuteDue {
        track[t] := track[t].(rpass := UnmuteNow);
      } else if track[t].rpass == MuteDue {
        track[t] := track[t].(rpass := NoMute);
      }
    }

    /** A recorder trig of track `t` reaches the gate: whether it fires. */
    method GateTrig(c: Config, t: nat) returns (fires: bool)
      requires Valid() && c.Valid()
      modifies track, inj
      ensures t >= TRACKS ==> fires && unchanged(track) && unchanged(inj)
      ensures t < TRACKS ==>
        var g := Gate(c.track[t], UndoBuffer(c.track[t], t), old(track[t]));
        fires == g.fires && Changed(t, g.track) && inj[..] == GateAll(c, old(Model()), t).inj
    {
      if t >= TRACKS || c.track[t].role == ROLE_OFF { return true; }
      var n := c.track[t].undoto;
      EndPass(n, t);
      var k, go, replace := track[t], track[t].st == OVERDUB, false;
      if k.st == ARMED {
        replace := k.repl;
        k := k.(repl := false);
        k := k.(st := if replace then IDLE else OVERDUB);
        k := k.(has := true);
        go := true;
      }
      var p := k.pass;
      if replace {
        k := k.(rpass := MuteDue, qpend := 0);
        p := p.(npass := 0, anchor := 0);
      }
      var u := UndoBuffer(c.track[t], t);
      var own := go;
      if go && u != 0 {
        p := p.(undone := false);
        if !replace && n != 0 && p.anchor / 2 == n && p.anchor % 2 != p.cur {
          p := p.(rec := if p.cur == 1 then 2 else 1, swap := false, inplace := true, valid := true);
          own := p.cur == 0;
        } else {
          p := p.(rec := if p.cur == 1 then 1 else 2, swap := true, valid := false, inplace := false);
          own := p.cur == 1;
        }
        if !own { inj[u - 1] := t + 1; }
      }
      track[t] := k.(pass := p);
      return own;
    }

    /** The pass recorder `r` takes now: the track + 1, or 0. */
    method Inject(r: nat) returns (t: nat)
      requires Valid()
      modifies inj
      ensures r >= TRACKS ==> t == 0 && unchanged(inj)
      ensures r < TRACKS ==> t == old(inj[r]) && inj[..] == old(inj[..])[r := 0]
    {
      if r >= TRACKS { return 0; }
      t := inj[r];
      inj[r] := 0;
    }

    /** The recorder of the pass runs. */
    method RecorderRuns(t: nat)
      requires Valid()
      modifies track
      ensures if t < TRACKS then Changed(t, old(track[t]).(pass := RecRunning(old(track[t].pass))))
        else unchanged(track)
    {
      if t >= TRACKS || !track[t].pass.swap { return; }
      var p := track[t].pass;
      p := p.(swap := false);
      p := p.(cur := Flip(p.cur));
      track[t] := track[t].(pass := p);
    }

    /** UNDO (CC 92) pressed. */
    method UndoPress(c: Config, t: nat) returns (a: Action)
      requires Valid() && c.Valid()
      modifies track
      ensures t >= TRACKS ==> a == Act(Nothing, t, NoToast) && unchanged(track)
      ensures t < TRACKS ==>
        var (k, b) := Undo(c.track[t].role, UndoBuffer(c.track[t], t), t, old(track[t]));
        a == b && Changed(t, k)
    {
      if t >= TRACKS || c.track[t].role == ROLE_OFF { return Act(Nothing, t, NoToast); }
      if UndoBuffer(c.track[t], t) == 0 { return Act(OnlyToast, t, NoBuffer); }
      var p := track[t].pass;
      if p.rec != 0 && p.inplace {
        p := p.(rec := 0, inplace := false, valid := true, cur := Flip(p.cur), undone := true);
        track[t] := track[t].(pass := p, st := IDLE);
        return Act(DoCut, t, Undone);
      }
      if p.rec != 0 {
        DropPass(t);
        track[t] := track[t].(st := IDLE);
        if track[t].rpass == MuteDue { track[t] := track[t].(rpass := NoMute); }
        return Act(DoCut, t, UndoCut);
      }
      if !p.valid { return Act(OnlyToast, t, NoUndo); }
      p := p.(cur := Flip(p.cur));
      p := p.(undone := !p.undone);
      track[t] := track[t].(pass := p);
      return Act(OnlyToast, t, if p.undone then Undone else Redone);
    }

    // ---- the transport, the patterns, the clears -----------------------------

    /** The playing pattern is `id`: on a change, every track takes its entry mode. */
    method PatternPlays(c: Config, id: nat) returns (changed: bool)
      requires Valid() && c.Valid()
      modifies this, track
      ensures Valid() && track == old(track) && inj == old(inj)
      ensures changed == !(old(seen) && old(pattern) == id)
      ensures Model() == if changed then EnteredAll(c, old(Model()), id) else old(Model())
    {
      if seen && pattern == id { return false; }
      seen := true;
      pattern := id % PATTERNS;
      for t := 0 to TRACKS
        invariant Valid() && track == old(track) && inj == old(inj) && seen && pattern == id % PATTERNS
        invariant inj[..] == old(inj[..])
        invariant forall i | 0 <= i < TRACKS ::
          track[i] == if i < t then Entered(c.track[i].role, c.entry[id % PATTERNS][i], old(track[i]))
            else old(track[i])
      {
        var m := c.entry[id % PATTERNS][t];
        if c.track[t].role == ROLE_OFF || track[t].st == TAKE { continue; }
        if m == Keep { continue; }
        track[t] := track[t].(repl := m == Replace);
        track[t] := track[t].(st := if m == Off then IDLE else ARMED);
      }
      return true;
    }

    method StopTrack(t: nat)
      requires Valid() && t < TRACKS
      modifies track
      ensures Changed(t, Stopped(old(track[t])))
    {
      var k := track[t];
      if k.st == ARMED || k.st == OVERDUB { k := k.(st := IDLE); }
      track[t] := k.(qpend := 0);
      EndReplace(t);
      DropPass(t);
    }

    /** The sequencer stopped, by any means. */
    method SequencerStopped()
      requires Valid()
      modifies track, inj
      ensures Model() == StoppedAll(old(Model()))
    {
      for t := 0 to TRACKS
        invariant forall i | 0 <= i < TRACKS :: track[i] == if i < t then Stopped(old(track[i])) else old(track[i])
        invariant forall i | 0 <= i < TRACKS :: inj[i] == if i < t then 0 else old(inj[i])
      {
        StopTrack(t);
        inj[t] := 0;
      }
    }

    /** The END toggle due at the track's loop start, taken. */
    method LoopStart(t: nat) returns (q: nat)
      requires Valid()
      modifies track
      ensures t >= TRACKS ==> q == 0 && unchanged(track)
      ensures t < TRACKS ==> q == old(track[t].qpend) && Changed(t, old(track[t]).(qpend := 0))
    {
      if t >= TRACKS { return 0; }
      q := track[t].qpend;
      track[t] := track[t].(qpend := 0);
    }

    /** A REPLACE pass's mute due at the track's loop start, taken. */
    method ReplaceLoopStart(t: nat) returns (m: nat)
      requires Valid()
      modifies track
      ensures t >= TRACKS ==> m == 0 && unchanged(track)
      ensures t < TRACKS ==>
        var (k, r) := ReplaceStart(old(track[t]));
        m == r && Changed(t, k)
    {
      if t >= TRACKS { return 0; }
      if track[t].rpass == MuteDue {
        track[t] := track[t].(rpass := UnmuteDue);
        return MUTE;
      }
      if track[t].rpass != UnmuteDue { return 0; }
      track[t] := track[t].(rpass := NoMute);
      return UNMUTE;
    }

    /** The track's buffers were cleared. */
    method BufferCleared(t: nat)
      requires Valid()
      modifies track
      ensures if t < TRACKS then Changed(t, ClearedTrack(old(track[t]))) else unchanged(track)
    {
      if t >= TRACKS { return; }
      var p := track[t].pass;
      p := p.(cur := 0, rec := 0, swap := false, valid := false, undone := false);
      p := p.(npass := 0, anchor := 0, inplace := false);
      track[t] := track[t].(has := false, pass := p);
      EndReplace(t);
    }

    /** Every track back to stock but the pedal bookkeeping the source keeps. */
    method Reset()
      requires Valid()
      modifies track, inj
      ensures Model() == ResetAll(old(Model()))
    {
      for t := 0 to TRACKS
        invariant forall i | 0 <= i < TRACKS :: track[i] == if i < t then ResetTrack(old(track[i])) else old(track[i])
        invariant forall i | 0 <= i < TRACKS :: inj[i] == if i < t then 0 else old(inj[i])
      {
        var p := track[t].press.(held := Up, longTaken := false);
        track[t] := track[t].(st := IDLE, has := false, press := p, qpend := 0);
        inj[t] := 0;
        BufferCleared(t);
      }
    }
  }
}
