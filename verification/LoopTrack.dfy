/** FREE LOOP, one track: its state, its settings and what each event does to
    it (freeloop.h's FlConfig and FlState, freeloop.c's `fl_*`). */
module LoopTrack {
  import opened Words
  import opened TempoSolver

  const TRACKS := 8
  const PATTERNS := 256
  const LONG_PRESS := 132000000

  const ROLE_OFF := 0
  const ROLE_FREE := 2

  // A track's recording state. The press's mute to undo shares its byte with
  // the recording state to restore, so both are numbers: MUTE is TAKE's.
  const IDLE := 0
  const TAKE := 1
  const ARMED := 2
  const OVERDUB := 3
  const MUTE := 1
  const UNMUTE := 2

  datatype Pedal = Up | PlayPedal | RecPedal
  datatype Entry = Keep | Arm | Off | Replace
  datatype ReplaceMute = NoMute | MuteDue | UnmuteDue | UnmuteNow
  datatype Kind = Nothing | DoTake | DoLaunch | DoPlay | DoClear | OnlyToast | DoCut
  datatype Toast = NoToast | Free | TempoSet | OverdubArmed | OverdubOff | Plays | Cleared | Slave | OutOfRange | Busy
                 | Muted | Unmuted | EndStop | EndPlay | EndCancel | Undone | Redone | UndoCut | NoUndo | NoBuffer

  type Bit = b: nat | b < 2

  /** One track's settings; `ubuf` is the UNDO buffer as set, recorder 1..8. */
  datatype Settings = Settings(role: nat, sig: nat, bars: nat, bpmLo: nat, bpmHi: nat,
                               ubuf: nat, undoto: nat, endmute: bool)

  datatype Config = Config(track: seq<Settings>, entry: seq<seq<Entry>>) {
    ghost predicate Valid() {
      && |track| == TRACKS && |entry| == PATTERNS
      && forall p | 0 <= p < PATTERNS :: |entry[p]| == TRACKS
    }
  }

  /** The pedal held: which, its long press taken, the press's mute (PLAY) or
      recording state (REC) to undo, what it started, and when. */
  datatype Press = Press(held: Pedal, longTaken: bool, undo: nat, started: nat, down: nat)

  /** The overdub passes: the buffer played (0 the track's own, 1 its UNDO
      buffer), the one recorded (0 none, 1 own, 2 UNDO), and UNDO's bookkeeping. */
  datatype Pass = Pass(cur: Bit, rec: nat, valid: bool, swap: bool, undone: bool,
                       npass: nat, anchor: nat, inplace: bool)

  /** FlState's arrays at one track. */
  datatype Track = Track(st: nat, has: bool, press: Press, qpend: nat, pass: Pass, repl: bool, rpass: ReplaceMute)

  const NO_PRESS := Press(Up, false, 0, 0, 0)
  const NO_PASS := Pass(0, 0, false, false, false, 0, 0, false)
  const STOCK := Track(IDLE, false, NO_PRESS, 0, NO_PASS, false, NoMute)

  datatype Action = Action(kind: Kind, track: nat, toast: Toast, mute: nat, tempo: Option<FlTempo>)

  function Act(kind: Kind, t: nat, toast: Toast): Action {
    Action(kind, t, toast, 0, None)
  }

  function Flip(b: Bit): Bit {
    1 - b
  }

  /** The recorder, counted from 1, that serves as the track's UNDO buffer; never its own,
      and 0 for none. */
  function UndoBuffer(k: Settings, t: nat): (u: nat)
    ensures u <= TRACKS
  {
    if 1 <= k.ubuf <= TRACKS && k.ubuf != t + 1 then k.ubuf else 0
  }

  /** The byte naming recording `n` in the buffer that `cur` plays. */
  function AnchorByte(n: nat, cur: Bit): nat {
    (2 * n + cur) % 256
  }

  /** UNDO TO n's loop is held, in the buffer `Kept` names. */
  predicate HasAnchor(n: nat, p: Pass) {
    n != 0 && p.anchor / 2 == n
  }

  function Kept(p: Pass): Bit {
    p.anchor % 2
  }

  // ---- the passes ----------------------------------------------------------

  /** The pass in progress is over: counted, and the n-th recording named. */
  function PassOver(n: nat, p: Pass): Pass {
    if p.rec == 0 then p else
    var cur := if p.swap then Flip(p.cur) else p.cur;
    var npass := if p.npass < 255 then p.npass + 1 else p.npass;
    p.(cur := cur, rec := 0, swap := false, valid := true, inplace := false, npass := npass,
       anchor := if n != 0 && npass == n then AnchorByte(n, cur) else p.anchor)
  }

  /** The pass in progress is dropped: the track is back on what it played. */
  function PassDrop(p: Pass): Pass {
    if p.rec == 0 then p else
    p.(cur := if !p.inplace && !p.swap then Flip(p.cur) else p.cur,
       rec := 0, swap := false, valid := p.inplace, inplace := false)
  }

  /** A pass begins: UNDO TO's loop in the other buffer, it overdubs the one
      played in place; else it records into the buffer not played. */
  function PassBegins(inPlace: bool, p: Pass): Pass {
    var rec := if p.cur == 1 then 2 else 1;
    if inPlace then p.(undone := false, rec := rec, swap := false, inplace := true, valid := true)
    else p.(undone := false, rec := if p.cur == 1 then 1 else 2, swap := true, inplace := false, valid := false)
  }

  function RecRunning(p: Pass): Pass {
    if p.swap then p.(swap := false, cur := Flip(p.cur)) else p
  }

  /** UNDO on the passes: stop an in-place pass and switch, drop a fresh one,
      or at rest switch to the other buffer and back. */
  function UndoPass(p: Pass): Pass {
    if p.rec != 0 && p.inplace then
      p.(rec := 0, inplace := false, valid := true, cur := Flip(p.cur), undone := true)
    else if p.rec != 0 then PassDrop(p)
    else if !p.valid then p
    else p.(cur := Flip(p.cur), undone := !p.undone)
  }

  function ReplaceOver(k: Track): Track {
    k.(repl := false,
       rpass := if k.rpass == UnmuteDue then UnmuteNow else if k.rpass == MuteDue then NoMute else k.rpass)
  }

  /** A trig at the gate records: the track is armed or overdubbing. */
  predicate Goes(k: Track) {
    k.st == ARMED || k.st == OVERDUB
  }

  predicate Replaces(k: Track) {
    k.st == ARMED && k.repl
  }

  /** The passes once the gate has ended the one in progress; a REPLACE counts anew. */
  function PassAtGate(n: nat, k: Track): Pass {
    var p := PassOver(n, k.pass);
    if Replaces(k) then p.(npass := 0, anchor := 0) else p
  }

  datatype Gated = Gated(track: Track, fires: bool, injects: bool)

  /** A recorder trig at the gate: whether the track's own trig fires, and
      whether the UNDO buffer's recorder is to take it instead. */
  function Gate(c: Settings, u: nat, k: Track): Gated {
    if c.role == ROLE_OFF then Gated(k, true, false) else
    var p := PassAtGate(c.undoto, k);
    var o :=
      if k.st != ARMED then k
      else if k.repl then k.(repl := false, st := IDLE, has := true, rpass := MuteDue, qpend := 0)
      else k.(st := OVERDUB, has := true);
    if !Goes(k) || u == 0 then Gated(o.(pass := p), Goes(k), false)
    else
      var inPlace := !Replaces(k) && HasAnchor(c.undoto, p) && Kept(p) != p.cur;
      Gated(o.(pass := PassBegins(inPlace, p)), inPlace == (p.cur == 0), inPlace == (p.cur == 1))
  }

  /** UNDO. */
  function Undo(role: nat, u: nat, t: nat, k: Track): (Track, Action) {
    if role == ROLE_OFF then (k, Act(Nothing, t, NoToast))
    else if u == 0 then (k, Act(OnlyToast, t, NoBuffer))
    else if k.pass.rec != 0 && k.pass.inplace then (k.(pass := UndoPass(k.pass), st := IDLE), Act(DoCut, t, Undone))
    else if k.pass.rec != 0 then
      (k.(pass := UndoPass(k.pass), st := IDLE, rpass := if k.rpass == MuteDue then NoMute else k.rpass),
       Act(DoCut, t, UndoCut))
    else if !k.pass.valid then (k, Act(OnlyToast, t, NoUndo))
    else (k.(pass := UndoPass(k.pass)), Act(OnlyToast, t, if k.pass.undone then Redone else Undone))
  }

  function Stopped(k: Track): Track {
    ReplaceOver(k.(st := if k.st == ARMED || k.st == OVERDUB then IDLE else k.st, qpend := 0, pass := PassDrop(k.pass)))
  }

  function ClearedTrack(k: Track): Track {
    ReplaceOver(k.(has := false, pass := NO_PASS))
  }

  function ResetTrack(k: Track): Track {
    ClearedTrack(k.(st := IDLE, has := false, press := k.press.(held := Up, longTaken := false), qpend := 0))
  }

  // ---- the pedals ----------------------------------------------------------

  /** A press held from `now`. */
  function Holding(k: Track, pedal: Pedal, now: nat): Track {
    k.(press := Press(pedal, false, 0, 0, now))
  }

  /** The take is the loop's first recording. */
  function PassLaunched(n: nat, p: Pass): Pass {
    p.(npass := 1, anchor := if n == 1 then 2 + p.cur else 0)
  }

  /** The end of the track's free take; `solved` is the tempo solver's answer. */
  function Launch(c: Settings, t: nat, k: Track, solved: Option<FlTempo>): (Track, Action) {
    if solved.None? then (k, Act(OnlyToast, t, OutOfRange))
    else (k.(st := IDLE, has := true, pass := PassLaunched(c.undoto, k.pass)),
          Act(DoLaunch, t, TempoSet).(tempo := solved))
  }

  /** REC: launch, refuse, take, arm or cut. `taking`: some track records a
      free take; `anyLoop`: some track has a loop. */
  function RecPress(c: Settings, t: nat, k: Track, playing: bool, slave: bool, taking: bool, anyLoop: bool,
                    solved: Option<FlTempo>): (Track, Action)
  {
    if k.st == TAKE then Launch(c, t, k, solved)
    else if taking then (k, Act(OnlyToast, t, Busy))
    else if !playing && c.role == ROLE_FREE && !anyLoop && k.st == IDLE then
      if slave then (k, Act(OnlyToast, t, Slave)) else (k.(st := TAKE), Act(DoTake, t, Free))
    else if k.st == IDLE then (k.(st := ARMED), Act(OnlyToast, t, OverdubArmed))
    else (k.(st := IDLE, repl := false), Act(OnlyToast, t, OverdubOff))
  }

  function Rec(c: Settings, t: nat, k: Track, playing: bool, slave: bool, taking: bool, anyLoop: bool,
               solved: Option<FlTempo>, now: nat): (Track, Action)
  {
    if c.role == ROLE_OFF then (k, Act(Nothing, t, NoToast)) else
    var (p, a) := RecPress(c, t, k, playing, slave, taking, anyLoop, solved);
    if a.kind == DoTake || a.toast == OverdubArmed || a.toast == OverdubOff then
      (p.(press := Press(RecPedal, false, k.st, if a.kind == DoTake then 2 else 0, now)), a)
    else (p, a)
  }

  /** END: a mute or unmute at the loop's start, or at once when stopped. */
  function End(role: nat, t: nat, k: Track, playing: bool, muted: bool): (Track, Action) {
    if role == ROLE_OFF then (k, Act(Nothing, t, NoToast))
    else if !playing then
      (k, Act(Nothing, t, if muted then Unmuted else Muted).(mute := if muted then UNMUTE else MUTE))
    else if k.qpend != 0 then (k.(qpend := 0), Act(OnlyToast, t, EndCancel))
    else (k.(qpend := if muted then UNMUTE else MUTE), Act(OnlyToast, t, if muted then EndPlay else EndStop))
  }

  function Play(c: Settings, t: nat, k: Track, now: nat, playing: bool, muted: bool, taking: bool,
                solved: Option<FlTempo>): (Track, Action)
  {
    if c.role == ROLE_OFF then (k, Act(Nothing, t, NoToast))
    else if k.st != TAKE && taking then (k, Act(OnlyToast, t, Busy))
    else
      var h := Holding(k, PlayPedal, now);
      if k.st == TAKE then
        var (l, a) := Launch(c, t, h, solved);
        (if a.kind == DoLaunch then l.(press := l.press.(started := 3)) else l, a)
      else if !playing then
        (h.(press := h.press.(started := 1, undo := if muted then MUTE else 0)),
         Act(DoPlay, t, Plays).(mute := if muted then UNMUTE else 0))
      else if c.endmute then End(c.role, t, h.(press := h.press.(started := 4)), playing, muted)
      else
        (h.(press := h.press.(started := 5, undo := if muted then MUTE else UNMUTE)),
         Act(Nothing, t, if muted then Unmuted else Muted).(mute := if muted then UNMUTE else MUTE))
  }

  /** The held press's long press, due LONG_PRESS counts of the wrapping timer after it. */
  predicate LongDue(p: Press, now: nat) {
    p.held != Up && !p.longTaken && W32(now - p.down) >= LONG_PRESS
  }

  function Hold(c: Settings, u: nat, t: nat, k: Track, now: nat, playing: bool, muted: bool): (Track, Action) {
    if !LongDue(k.press, now) || c.role == ROLE_OFF then (k, Act(Nothing, t, NoToast)) else
    var d := k.(press := k.press.(longTaken := true));
    if k.press.held == PlayPedal then
      if k.press.started != 5 then (d, Act(Nothing, t, NoToast)) else
      var (e, a) := End(c.role, t, d, playing, k.press.undo == MUTE);
      (e, a.(mute := k.press.undo))
    else if k.press.started != 2 && playing && !muted then
      Undo(c.role, u, t, if k.pass.rec == 0 then d.(st := k.press.undo) else d)
    else (d.(st := IDLE, has := false), Act(DoClear, t, Cleared))
  }

  function Release(p: Press, pedal: Pedal): Press {
    if p.held != Up && p.held == pedal then p.(held := Up, longTaken := false) else p
  }

  /** A pattern's entry mode. */
  function Entered(role: nat, m: Entry, k: Track): Track {
    if role == ROLE_OFF || k.st == TAKE || m == Keep then k
    else k.(repl := m == Replace, st := if m == Off then IDLE else ARMED)
  }

  /** A REPLACE pass's mute due at a loop start. */
  function ReplaceStart(k: Track): (Track, nat) {
    if k.rpass == MuteDue then (k.(rpass := UnmuteDue), MUTE)
    else if k.rpass == UnmuteDue then (k.(rpass := NoMute), UNMUTE)
    else (k, 0)
  }

  // ---- what the small events promise -----------------------------------------

  /** END pressed again before the loop start cancels: the track is as it was. */
  lemma EndCancels(role: nat, t: nat, k: Track, muted: bool)
    requires role != ROLE_OFF && k.qpend == 0
    ensures var (once, a) := End(role, t, k, true, muted);
      var (twice, b) := End(role, t, once, true, muted);
      && once.qpend == (if muted then UNMUTE else MUTE) && a.kind == OnlyToast && a.mute == 0
      && twice == k && b.toast == EndCancel
  {
  }

  /** A REPLACE pass left alone mutes at its loop start, unmutes at the next, and is
      then done with. */
  lemma ReplaceMutesOnce(k: Track)
    requires k.rpass == MuteDue
    ensures var (first, m) := ReplaceStart(k);
      var (second, n) := ReplaceStart(first);
      m == MUTE && n == UNMUTE && second == k.(rpass := NoMute) && ReplaceStart(second) == (second, 0)
  {
  }

  /** Stopped or cleared, it leaves no mute behind: not made yet it is not made, made
      it is undone at once, and no loop start follows. */
  lemma ReplaceEndsHeard(k: Track)
    ensures forall stopped | stopped == Stopped(k) || stopped == ClearedTrack(k) ::
      && ReplaceStart(stopped) == (stopped, 0)
      && (k.rpass == UnmuteDue <==> stopped.rpass == UnmuteNow && k.rpass != UnmuteNow)
      && (k.rpass == MuteDue ==> stopped.rpass == NoMute)
  {
  }

  /** A release ends its own pedal's press, so no long press comes of it; the other
      pedal's release leaves the press alone. */
  lemma ReleaseEndsPress(p: Press, pedal: Pedal, now: nat)
    ensures p.held == pedal ==> !LongDue(Release(p, pedal), now)
    ensures p.held != pedal ==> Release(p, pedal) == p
  {
  }
}
