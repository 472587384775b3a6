# Four engines, verified

A Dafny model of four integer engines of the firmware modules, and proofs of
what they promise. `dafny verify dfyconfig.toml` checks it all.

**FREE LOOP** (`modules/free-loop`). `TempoSolver` computes the tempo a free take implies: a
binary search over a rounded division in 32-bit words, optimal and never padding;
`TempoCut` shows that it cuts strictly under one part in tempo24.
`LoopTrack` says what each pedal, gate, stop and clear does to a track;
`LoopPedal` does the same in place on the engine's arrays. `LoopHistory` is an
independent account of a track's two buffers, a history of at most two loops,
which the flags are shown to implement. `LoopRuns` adds the recorders' samples and
the transport and proves, over every run, that at most one track takes, that UNDO
TO keeps its loop and that the loop under an overdub stays as it was. `LoopGates` says
which trigs record, over every run, and what each pedal answers.

**CHORDS** (`modules/chords`). `VoiceCost` is the dynamic time warp, shown to be
the least move over all alignments. `VoiceLead` is the recursive search with its
bounded ranked list, shown to be an exact top-k search; `LeadOrder` that its order
leaves one answer. `ChordBuild` builds voicings, `ChordSlots` edits and files them,
`Atelier` is the page whose edits define the slots that can occur. `ChordSpreads` and
`ChordKnobs` spell out the voicings and the knobs.

**EUCLID** (`modules/euclid`). `EuclidRhythm` is the pulse distribution,
`EuclidClock` the wrapping clock, `EuclidSwing` the swung grid, `EuclidSchedule`
one frame's schedule, `EuclidGrid` a slot's schedule over whole epochs,
`EuclidEnvelope` the envelope's 32-bit arithmetic and `EuclidVoice` the whole
frame, as functions and in place. `EuclidRuns` shows that a steady epoch leaves out
no event and triggers exactly the pulses of its rhythm. `EuclidShapes` gives each
mode's level exactly, with its shape.

**BRAIN's store** (`modules/brain`). `RecordFile` is the container of sized,
checksummed records, `CardStore` the byte buffers, the recovery pair and the
rewriting every writer does, `Fields` the keyed values. `Settings`,
`SettingsRoundTrip` and `SettingsStore` store and load the value table; `Remix`,
`StoreWriters`, `TemplateStore` and `TemplateEdits` are the other writers;
`RecoveryPair` is the `.work`/`.strd` pair over runs with torn writes. `BrainJobs`
is the engine's job, which calls one writer or another on the card's and the
project's pair, and proves over every run of jobs what each pair then loads.
`KeptKeys`, `LoadedValues`, `OtherRecords`, `WrittenValues` and `RemixSelection` tell
what is read, written and left alone by the records' own bytes; `Sequences` has the
filter they use.

Where the source updates in place the model has a class over arrays with a method
for each operation, proved against functions on values; the lemmas are about those
functions. Words of 32 bits wrap explicitly (`Words.W32`, `EuclidClock.S32`).

Four results are limits of the code, each with its exact condition and a run or a
file where it shows:

- `LoopRuns.TakeIsNamed`: the header counts a take as the loop's first recording,
  but launching it names, for UNDO TO 1, the buffer the track plays, and that is the
  take's only when cur is 0. `TakeNotNamed` is a run from power-up where it is not.
- `LoopRuns.RecHeldIsUndo`: REC held is UNDO except when its press cut a REPLACE
  entry, whose arming is then forgotten (`ReplaceForgotten`).
- `TemplateStore.SaveReplacesExactly`: a template saved under a name its target
  has replaces it only among the target's first 64, though the comment beside the
  search promises it always. `SixtyFifthIsNotFound` is a card, filled by saves, where
  one more save leaves two.
- `RecoveryPair.RunLoads`: a pair can be lost in exactly one way, a torn `.work`
  while `.strd` is absent or damaged. `PairLost` is such a run.

## Model

| member | source | states |
|---|---|---|
| `TempoSolver.LoopLenIsRounded` | modules/free-loop/freeloop.c:21-25 | the 32-bit split product equals the rounded quotient for every pattern (up to 3072 ticks) and every tempo of 30..300 BPM: no step overflows its word |
| `TempoSolver.RoundedBounds` | modules/free-loop/freeloop.c:21-25 | the loop is within half a sample of its exact length |
| `TempoSolver.RoundedAntitone` | modules/free-loop/freeloop.c:40-57 | a faster tempo never has a longer loop, rounding included, which the binary search needs |
| `TempoSolver.RoundedMonotone` | modules/free-loop/freeloop.c:40-57 | more ticks never have a shorter loop |
| `TempoSolver.PatternFor` | modules/free-loop/freeloop.c:27-38 | fails exactly when no scale holds the steps in 2..64; else the first scale of the order of preference, with len x ticks(scale) the steps' ticks |
| `TempoSolver.TempoFor` | modules/free-loop/freeloop.c:40-57 | succeeds exactly when the take can be cut to the loop between 30 and 300 BPM, and answers the least tempo whose loop is no longer than the take |
| `TempoSolver.SolvesUnique` | modules/free-loop/freeloop.c:40-57 | that contract determines the answer |
| `TempoCut.CutIsStrict` | modules/free-loop/freeloop.h:54-61 | the take is never padded, and what is cut is strictly under 1/tempo24 of it, for every pattern and take |
| `TempoCut.TiesAreNoPatterns` | modules/free-loop/freeloop.h:54-61 | the counts of steps for which a cut of exactly 1/tempo24 could come out (139 and 358 are) are no pattern's |
| `TempoSolver.MoreBarsFaster` | modules/free-loop/freeloop.c:59-74 | the solved tempo is monotone in the number of bars |
| `TempoSolver.RangeSkipped` | modules/free-loop/freeloop.c:59-74 | a tempo over the range rules out every larger bar count, so AUTO may stop early |
| `TempoSolver.Tempo` | modules/free-loop/freeloop.c:59-74 | AUTO answers the first of 1, 2, 4, 8, 16 bars that gives a tempo inside the range, and fails exactly when none is; a fixed count is solved as it is |
| `LoopHistory.UndoRedo` | modules/free-loop/freeloop.c:295-317 | UNDO at rest twice is the identity of the history of two loops |
| `LoopHistory.UndoReachesKept` | modules/free-loop/freeloop.h:38-43 | from any moment UNDO TO keeps a loop that is not played, one UNDO plays it |
| `LoopHistory.HistoryValid` | modules/free-loop/freeloop.c:199-233 | under the invariant of cur, rec, swap, valid, inplace, anchor and npass, the flags always describe a valid history |
| `LoopHistory.PassOverSettles` | modules/free-loop/freeloop.c:208-219 | `pass_over` is the history's settling: what was layered is heard, and the n-th recording is kept |
| `LoopHistory.GateRefines` | modules/free-loop/freeloop.c:241-280 | `fl_gate` on a track with an UNDO buffer is the history's start of a pass, REPLACE forgetting the kept loop |
| `LoopHistory.GateTarget` | modules/free-loop/freeloop.c:241-280 | no pass the gate starts records into the buffer UNDO TO keeps |
| `LoopHistory.UndoRefines` | modules/free-loop/freeloop.c:295-317 | `fl_undo`, mid-pass, in place or at rest, is the history's undo |
| `LoopHistory.StopRefines` | modules/free-loop/freeloop.c:334-357 | `fl_stopped` drops a fresh pass and ends an in-place one |
| `LoopHistory.RunningRefines` | modules/free-loop/freeloop.c:289-293 | `fl_rec_running` leaves the history unchanged: only now does cur name the layer |
| `LoopHistory.RecordRefines` | modules/free-loop/freeloop.c:241-293 | samples recorded land in the pass's layer and nowhere else in the history |
| `LoopHistory.LaunchKeeps` | modules/free-loop/freeloop.c:97-107 | launching is the history's launch: the count begins anew, and UNDO TO 1 keeps the loop played, whichever buffer that is |
| `LoopPedal.FlState.AnyLoop` | modules/free-loop/freeloop.c:84-88 | some track holds a loop |
| `LoopPedal.FlState.Taking` | modules/free-loop/freeloop.c:90-95 | names a track that is taking, 0 exactly when none is |
| `LoopPedal.FlState.RecPedalDown` | modules/free-loop/freeloop.c:116-193 | REC's press, in place: the track becomes what the specification says for its state, the others stay, and the tempo used is the solver's |
| `LoopPedal.FlState.EndPress` | modules/free-loop/freeloop.c:116-193 | END's press, in place |
| `LoopPedal.FlState.PlayPress` | modules/free-loop/freeloop.c:116-193 | PLAY's press, in place |
| `LoopPedal.FlState.HoldTick` | modules/free-loop/freeloop.c:116-193 | the long press, in place, once it is due and not before |
| `LoopPedal.FlState.PedalUp` | modules/free-loop/freeloop.c:195-197 | a release ends only the press it is of |
| `LoopPedal.FlState.EndPass` | modules/free-loop/freeloop.c:208-219 | `pass_over` in place |
| `LoopPedal.FlState.DropPass` | modules/free-loop/freeloop.c:221-233 | `pass_drop` in place |
| `LoopPedal.FlState.GateTrig` | modules/free-loop/freeloop.c:241-280 | `fl_gate` in place: whether the trig fires, the track's new flags and the injected recorder, nothing else changed; which trigs then record is `LoopGates`' |
| `LoopPedal.FlState.Inject` | modules/free-loop/freeloop.c:282-287 | the pass a recorder takes, taken once |
| `LoopPedal.FlState.RecorderRuns` | modules/free-loop/freeloop.c:289-293 | the swap happens once, at the recorder's start |
| `LoopPedal.FlState.UndoPress` | modules/free-loop/freeloop.c:295-317 | `fl_undo` in place |
| `LoopPedal.FlState.PatternPlays` | modules/free-loop/freeloop.c:319-332 | a change of pattern enters every track's mode; the same pattern changes nothing |
| `LoopPedal.FlState.SequencerStopped` | modules/free-loop/freeloop.c:334-357 | every track stopped, every injection forgotten |
| `LoopPedal.FlState.LoopStart` | modules/free-loop/freeloop.c:359-364 | an END toggle is delivered once |
| `LoopPedal.FlState.ReplaceLoopStart` | modules/free-loop/freeloop.c:366-375 | a REPLACE pass mutes at its loop start and unmutes at the next |
| `LoopPedal.FlState.BufferCleared` | modules/free-loop/freeloop.c:383-395 | a clear forgets the loop and its history |
| `LoopPedal.FlState.Reset` | modules/free-loop/freeloop.c:397-406 | every track back to stock, but for what the source keeps |
| `LoopRuns.Effect` | modules/free-loop/freeloop.c:97-406 | what any event of the engine does to any track: its passes change only as said, or its take is launched; a take starts only at REC, stopped, with no other |
| `LoopRuns.AtMostOneTake` | modules/free-loop/freeloop.c:109-193 | over every run from power-up at most one track is taking, although REC's IDLE/ARMED/OVERDUB and PLAY's mute share a byte, and with presses between a stop and the tick that sees it |
| `LoopRuns.StepKeepsInv` | modules/free-loop/freeloop.c:97-406 | every event keeps the whole invariant, if and only if it is not REC, the transport stopped, on an idle FREE track whose pass still records, no track taking and none holding a loop |
| `LoopRuns.RunKeepsInv` | modules/free-loop/adapter.c:408-478 | so does every run without that event |
| `LoopRuns.SettledRun` | modules/free-loop/adapter.c:885-891 | that event never comes when every stop is seen before the next press: over all such runs from power-up the invariant holds |
| `LoopRuns.KeptThroughStep` | modules/free-loop/freeloop.h:38-43 | the loop UNDO TO names stays named, in its buffer, with its samples, through every event but a REPLACE pass, a clear of the track, a reset or a new take; other tracks' clears included |
| `LoopRuns.KeptThroughRun` | modules/free-loop/freeloop.h:38-43 | and through every run without those |
| `LoopRuns.UndoToReturns` | modules/free-loop/freeloop.h:38-43 | after any such run, one UNDO from the other buffer plays the loop named with the samples it had then |
| `LoopRuns.NthPassIsNamed` | modules/free-loop/freeloop.c:208-219 | the gate that ends the n-th recording, a pass, names the buffer it recorded into, with what it recorded |
| `LoopRuns.TakeIsNamed` | modules/free-loop/freeloop.c:97-107 | launching a take with UNDO TO 1 names the take's buffer if and only if the track plays it (cur 0) |
| `LoopRuns.TakeNotNamed` | modules/free-loop/freeloop.c:97-107 | a run from power-up after which UNDO TO 1 names an earlier overdub in the other buffer instead of the take |
| `LoopRuns.BaseThroughRun` | modules/free-loop/freeloop.c:241-293 | while a fresh pass lasts, no event writes the loop it started from |
| `LoopRuns.FreshPassIsReversible` | modules/free-loop/freeloop.c:241-357 | UNDO TO LAST: at any moment of a fresh pass UNDO, REC's long press or a stop leaves the track at rest on the loop it played before, sample for sample |
| `LoopRuns.FreshBase` | modules/free-loop/freeloop.c:241-280 | a fresh pass starts from the buffer played once the pass before it is over |
| `LoopRuns.UndoThenRedo` | modules/free-loop/freeloop.c:295-317 | UNDO at rest, then REDO, is the identity on the whole track |
| `LoopRuns.RecHeldIsUndo` | modules/free-loop/freeloop.c:116-193 | REC held on a heard track has exactly UNDO's effect, apart from the press, if and only if the press does not cut a REPLACE entry |
| `LoopRuns.ReplaceForgotten` | modules/free-loop/freeloop.c:116-193 | a run from power-up where it does, and the REPLACE is forgotten |
| `LoopTrack.EndCancels` | modules/free-loop/freeloop.c:345-357 | END pressed again before the loop start leaves the track as it was |
| `LoopTrack.ReplaceMutesOnce` | modules/free-loop/freeloop.c:366-375 | a REPLACE pass left alone mutes at its loop start, unmutes at the next and is done |
| `LoopTrack.ReplaceEndsHeard` | modules/free-loop/freeloop.c:235-239 | a REPLACE pass stopped or cleared leaves no mute behind |
| `LoopTrack.ReleaseEndsPress` | modules/free-loop/freeloop.c:195-197 | no long press comes of a released pedal, and the other pedal's release changes nothing |
| `VoiceCost.ComputeCost` | modules/chords/chords.c:93-111 | the table filled row by row computes the recurrence |
| `VoiceCost.CostIsLeastMove` | modules/chords/chords.c:93-111 | the cost is the minimum, over all order-keeping alignments that match every voice of both chords, of the summed distances: no alignment is cheaper and one is as cheap |
| `VoiceCost.CostSymmetric` | modules/chords/chords.c:93-111 | moving there costs what moving back does |
| `VoiceCost.CostZero` | modules/chords/chords.c:93-111 | zero exactly between equal ascending chords |
| `VoiceLead.InsertKeepsBest` | modules/chords/chords.c:143-159 | the bounded ranked insertion turns the best k of what was seen into the best k of that and one more |
| `VoiceLead.CommonIsShared` | modules/chords/chords.c:113-119 | the count of common notes is the size of the intersection |
| `VoiceLead.ComputePenalty` | modules/chords/chords.c:131-141 | two for every doubling but of the root or fifth, one for every semitone of span past two octaves |
| `VoiceLead.Search.Consider` | modules/chords/chords.c:143-159 | a complete choice enters the list exactly where its rank belongs, or is turned away, and the list stays the best of all seen |
| `VoiceLead.Search.Choose` | modules/chords/chords.c:161-171 | the pruned recursion sees exactly the completions of what is chosen; the prunings cut none |
| `VoiceLead.Candidates` | modules/chords/chords.c:173-190 | the window's notes of the chord's classes, in order; the array of 64 is never full |
| `VoiceLead.Lead` | modules/chords/chords.c:173-201 | the answers are the best min(max, 8) of all voicings that may follow, told by their notes: as many as the fuller chord, at most four, ascending, within 0..127 and an octave of the chord before, of exactly the type's pitch classes, the root in the bass when asked; nearest first, then most notes kept, then enumeration order |
| `VoiceLead.AnswerCount` | modules/chords/chords.c:173-201 | as many answers as asked for, or every choice there is |
| `LeadOrder.AnswersUnique` | modules/chords/chords.c:143-159 | cost plus penalty, then common notes, then enumeration order leave one possible list |
| `ChordTypes.TypesWellFormed` | modules/chords/chords.c:4-27 | every chord type has two to four distinct ascending intervals from 0 below an octave |
| `ChordBuild.Sort` | modules/chords/chords.c:33-40 | the insertion sort sorts its prefix, permutes it and leaves the rest |
| `ChordBuild.Build` | modules/chords/chords.c:48-87 | the notes are the type's in close position from the inversion, spread, shifted by octaves into range and sorted |
| `ChordBuild.OctaveShift` | modules/chords/chords.c:81-83 | both octave loops end, and shift by no more octaves than needed |
| `ChordBuild.ShiftInRange` | modules/chords/chords.c:81-83 | every span a spread can make is brought wholly into 0..127 |
| `ChordBuild.BuiltIsVoicing` | modules/chords/chords.c:48-87 | every built chord is strictly ascending notes of 0..127 with exactly the type's pitch classes |
| `ChordSlots.Toggle` | modules/chords/chords.c:247-258 | a key's note goes out when it is there, else in, in order; refused exactly when the chord is full or the note past 127 |
| `ChordSlots.MoveVoice` | modules/chords/chords.c:260-269 | a voice moves between its neighbours and never crosses or meets one |
| `ChordSlots.SlotApply` | modules/chords/chords.c:285-299 | an edited slot is left alone; a LEAD slot takes the asked-for answer, the last when there are fewer, the answers being the first of all that may follow; every other slot is built |
| `ChordSlots.ReadIsValid` | modules/chords/chords.c:314-331 | whatever bytes it is given, the reader yields a well-formed slot |
| `ChordSlots.SlotRoundTrip` | modules/chords/chords.c:301-331 | a slot written and read is the same, if and only if it is well formed |
| `ChordSlots.Pack` | modules/chords/chords.c:301-312 | every slot's record is at its place |
| `ChordSlots.Unpack` | modules/chords/chords.c:314-331 | every slot is what the reader makes of its record |
| `ChordSlots.BankRoundTrip` | modules/chords/chords.c:301-331 | a bank packed and unpacked is the same, slot by slot, exactly where well formed |
| `Atelier.TurnKeepsParameters` | modules/chords/adapter.c:541-608 | no knob takes a slot's parameters out of their ranges |
| `Atelier.Page.EncoderTurned` | modules/chords/adapter.c:541-608 | every encoder edit keeps every slot well formed and touches only the selected one, which becomes what the edit says |
| `Atelier.Page.NoteKey` | modules/chords/adapter.c:610-628 | the key's note is toggled, the slot becomes EDIT and is renamed when identified; refused exactly when full or out of range |
| `Atelier.Page.SelectSlot` | modules/chords/adapter.c:456-465 | selecting keeps every slot, and the answers counted are as many as LEAD has for the slot and the one before, or 0 |
| `Atelier.Page.Load` | modules/chords/adapter.c:256-273 | whatever chords.work holds, every slot is well formed |
| `Atelier.SaveThenLoad` | modules/chords/adapter.c:239-273 | for every bank that edits can reach, saving and loading gives it back |
| `EuclidRhythm.PulseIsStep` | modules/euclid/control.c:51-54 | a step is a pulse exactly when floor(i k / n) rises there |
| `EuclidRhythm.WindowCount` | modules/euclid/control.c:51-54 | the pulses of any window [a, b) number floor((b-1)k/n) - floor((a-1)k/n) |
| `EuclidRhythm.FullCycle` | modules/euclid/control.c:51-54 | any n steps hold exactly k pulses |
| `EuclidRhythm.MaximallyEven` | modules/euclid/control.c:51-54 | windows of one length differ by at most one pulse |
| `EuclidRhythm.PulseRepeats` | modules/euclid/control.c:51-54 | the rhythm repeats every n steps |
| `EuclidClock.EuClock.Start` | modules/euclid/control.c:22-30 | position zero in a new epoch |
| `EuclidClock.EuClock.Update` | modules/euclid/control.c:32-42 | the position advances by the signed word difference, forward or back; a first reading starts the clock |
| `EuclidClock.Carry` | modules/euclid/control.c:38-41 | the two loops are the floored quotient and remainder |
| `EuclidClock.WordDifference` | modules/euclid/control.c:34-36 | within half a turn of the word the signed difference is the true one, across any wrap |
| `EuclidClock.AdvancedTwice` | modules/euclid/control.c:32-42 | splitting one update in two changes nothing |
| `EuclidClock.PathIndependent` | modules/euclid/control.c:32-42 | after any readings, forward, backward or across wraps, the position is that of the last |
| `EuclidSwing.DelayExact` | modules/euclid/control.c:56-68 | the swing's 32-bit products never overflow and the division by the step is exact |
| `EuclidSwing.WeightStep` | modules/euclid/control.c:56-68 | from one grid point to the next the swing's weight changes by at most one, for every mask, length and scale |
| `EuclidSwing.SwingKeepsOrder` | modules/euclid/control.c:56-68 | swung event times are strictly increasing along the grid |
| `EuclidSwing.NoneDueBeyond` | modules/euclid/control.c:124-129 | past the first event not due none is due |
| `EuclidSchedule.DistanceExact` | modules/euclid/control.c:124-129 | within 1536 quanta no step of the scheduling distance leaves its signed word, and it is positive exactly when the event is not due |
| `EuclidSchedule.ScheduleTakesDue` | modules/euclid/control.c:124-141 | a schedule takes due events in grid order, one period apart, and stops only when none later is due or the budget is spent |
| `EuclidGrid.FrameTakesDue` | modules/euclid/control.c:93-141 | a frame keeps the schedule's place through epochs, edits of the rate and catching up, and takes only due events later than any its epoch took before |
| `EuclidGrid.EventsSoundOnce` | modules/euclid/control.c:93-141 | over every run of frames of an epoch the grid points taken are strictly increasing and next stays a multiple of the period, the clock stepping back by at most 768 quanta but not at a change of rate |
| `EuclidEnvelope.LawsExact` | modules/euclid/control.c:151-172 | attack, decay and gate lengths equal their laws in unbounded integers, and are bounded by 124032 units |
| `EuclidEnvelope.DecayExact` | modules/euclid/control.c:157-164 | both halves of the decay law are exact |
| `EuclidEnvelope.InterpolateExact` | modules/euclid/control.c:70-76 | the interpolation is exact and never past either end |
| `EuclidEnvelope.InterpolateApproaches` | modules/euclid/control.c:70-76 | it only ever approaches its target |
| `EuclidEnvelope.LevelBounded` | modules/euclid/control.c:151-178 | the level is at most 32767 in every mode |
| `EuclidEnvelope.EnvelopeRises` | modules/euclid/control.c:165-169 | the envelope starts at the level before and peaks when the attack ends |
| `EuclidEnvelope.EnvelopeUnimodal` | modules/euclid/control.c:165-169 | it never falls in its attack nor rises in its decay |
| `EuclidEnvelope.EnvelopeEnds` | modules/euclid/control.c:165-169 | it is silent once the decay is over |
| `EuclidEnvelope.CutoffBounded` | modules/euclid/control.c:180-182 | the modulation is a signed 32-bit product and the cutoff 0..32512 |
| `EuclidVoice.XorshiftAlive` | modules/euclid/control.c:44-49 | the generator reaches zero only from zero |
| `EuclidVoice.FrameFollowsGrid` | modules/euclid/control.c:78-141 | what a frame does to a voice's schedule is what the grid says |
| `EuclidVoice.FrameKeepsSound` | modules/euclid/control.c:78-183 | every frame keeps level, origin, target and table within 32767, and its cutoff within 32512 |
| `EuclidVoice.RunKeepsSound` | modules/euclid/control.c:78-183 | so does every run, and its schedule is the grid's |
| `EuclidVoice.LoopRepeats` | modules/euclid/control.c:132-148 | outside RAND the random table survives every run, stops and restarts included |
| `EuclidRuns.DueWithinPeriod` | modules/euclid/control.c:56-68 | swing delays no event by more than a period and a fifth |
| `EuclidRuns.NoneSkipped` | modules/euclid/control.c:93-141 | in an epoch at one rate whose clock goes on by at most four fifths of a period at a time, the events taken are the first so many points of the grid with none left out, and none a period and a fifth behind the clock is still to come |
| `EuclidRuns.TriggersArePulses` | modules/euclid/control.c:93-141 | over such an epoch at one rhythm the trigger counter goes up by the pulses of as many steps as there were events, from the rotated start, modulo 2^32 |
| `EuclidRuns.CyclesTrigger` | modules/euclid/control.c:93-141 | over c whole cycles it goes up by c times the pulses set |
| `EuclidVoice.TriggersCount` | modules/euclid/control.c:130-134 | the trigger counter counts the pulses among the events taken |
| `EuclidVoice.SoundsRotated` | modules/euclid/control.c:128-130 | rotation shifts the cycle |
| `EuclidVoice.CycleSounds` | modules/euclid/control.c:127-134 | any n consecutive events trigger exactly the pulses set, wherever rotated |
| `EuclidVoice.PulseAge` | modules/euclid/control.c:131-133 | a pulse's envelope is as old as its swung event, not as the frame |
| `EuclidVoice.EuState.Process` | modules/euclid/control.c:78-183 | the in-place frame equals the specified one: schedule, table, envelope and cutoff |
| `EuclidVoice.EuState.Begin` | modules/euclid/control.c:86-92 | an unused slot begins with its seeded table and an epoch not the clock's |
| `EuclidVoice.EuState.Prepare` | modules/euclid/control.c:93-117 | epoch, rate and mode changes and the saturating age, in place |
| `EuclidVoice.EuState.Schedule` | modules/euclid/control.c:119-141 | catch-up and the events due, in place |
| `EuclidVoice.EuState.TakeEvents` | modules/euclid/control.c:124-141 | the budgeted loop stops at the first event ahead |
| `EuclidVoice.EuState.TakeEvent` | modules/euclid/control.c:127-140 | one event's pulse, draw and target, in place |
| `EuclidVoice.EuState.Shape` | modules/euclid/control.c:142-179 | stopped or without pulses the voice is silent; else its level follows the envelope of its mode (`EuclidShapes.VoiceLevel`, `EnvIs`, `GateIs` and `StepIs` say which) |
| `RecordFile.ParseIsFlat` | modules/brain/brain.c:188-203 | parsing a body finds a record list exactly when the body is those records laid out |
| `RecordFile.WrittenIsValid` | modules/brain/brain.c:843-857 | whatever records are laid out, the file `write_store` makes of them is valid, has the right kind, count and length, and holds them |
| `RecordFile.CountFits` | modules/brain/brain.c:853-853 | a file that fits the buffer has fewer records than sixteen bits count |
| `RecordFile.KindIsFree` | modules/brain/brain.c:1348-1349 | changing the kind keeps a file valid and its records |
| `RecordFile.NewRecordReads` | modules/brain/brain.c:1052-1117 | a record as the writers build it is one record and reads back: kind, id, schema, payload, checksum |
| `RecordFile.SurvivorsFit` | modules/brain/brain.c:1024-1042 | what a rewrite keeps always fits: the room check of the copying loops never fails |
| `CardStore.Store.Slurp` | modules/brain/brain.c:170-186 | a file read whole, or found absent or unreadable |
| `CardStore.Store.Check` | modules/brain/brain.c:188-203 | accepts exactly the valid files |
| `CardStore.Store.Cur` | modules/brain/brain.c:816-826 | a pair's content: .work while good, else .strd; none when both are absent; -1 when neither is good |
| `CardStore.Store.Rewrite` | modules/brain/brain.c:1024-1042 | the old records in order, byte for byte, but for those the writer drops or edits |
| `CardStore.Store.WriteStore` | modules/brain/brain.c:843-857 | the file written is the header and the records laid out |
| `CardStore.Store.Replace` | modules/brain/brain.c:1252-1314 | a writer's whole effect on the pair, with its errors 2, 3 and 4 |
| `CardStore.Store.KeepCopy` | modules/brain/brain.c:1345-1354 | only a good .work becomes .strd |
| `CardStore.WriterKeepsContainer` | modules/brain/brain.c:843-857 | after a writer's success the pair holds a valid file whose records are the old ones, each as its fate says, and then the new ones |
| `CardStore.KeptInPlace` | modules/brain/brain.c:1024-1042 | a record kept is in the new list byte for byte, behind as many survivors as before it |
| `CardStore.SurvivorsComeFrom` | modules/brain/brain.c:1024-1042 | nothing is in the new list that was not in the old |
| `Fields.FieldsReadBack` | modules/brain/brain.c:379-410 | keyed values laid out read back |
| `Fields.StrictAreFields` | modules/brain/brain.c:903-918 | a payload REMIX SWITCH accepts is exactly its fields |
| `SettingsRoundTrip.RecordApplies` | modules/brain/brain.c:372-412 | one settings record, entry by entry: of its store, scope and schema, each takes the last value under its key that fits, or keeps its own |
| `SettingsRoundTrip.LoadInBounds` | modules/brain/brain.c:424-443 | whatever a file holds, loading it keeps every value in bounds and on its step |
| `SettingsRoundTrip.NumberReads` | modules/brain/brain.c:1076-1081 | signed two-byte numbers and bytes read back |
| `SettingsRoundTrip.StoredFields` | modules/brain/brain.c:1083-1110 | a stored record's fields are the scope's values and then every unknown key of the record it replaces |
| `SettingsRoundTrip.OneRecordPerStore` | modules/brain/brain.c:1043-1051 | after a store each of the scope's stores has exactly one record |
| `SettingsRoundTrip.RoundTrip` | modules/brain/brain.c:1012-1117 | loading what was stored restores exactly the scope's values, whatever the table held and whatever else the file holds |
| `SettingsStore.Values.ApplySettings` | modules/brain/brain.c:372-412 | the loop over a record's fields and the table, in place |
| `SettingsStore.Values.LoadSettings` | modules/brain/brain.c:424-443 | every settings record in place, a store with two records skipped, bad checksums skipped |
| `SettingsStore.IsTwice` | modules/brain/brain.c:432-437 | finds a second record of the store exactly when there is one |
| `SettingsStore.Values.StoreSettings` | modules/brain/brain.c:1012-1151 | the file holds the other records, the scope's stores and the project record, or nothing was written and the error says why; after a success each store's record holds every field the table has no entry for of the first record it had |
| `SettingsStore.Values.SaveProject` | modules/brain/brain.c:1345-1368 | the card's copy, the project's store and its copy, in that order |
| `SettingsStore.StoredSettingsLoad` | modules/brain/brain.c:1012-1117 | a store that succeeds leaves a good file that loads its values back |
| `SettingsStore.SettingsWritten` | modules/brain/brain.c:1012-1151 | a store that succeeds, whatever the values, leaves a good file with exactly the new records of the scope's stores and of the project, and every other record as it was |
| `SettingsStore.SavedProjectLoads` | modules/brain/brain.c:1345-1368 | after a project save both copies are good and hold the same records |
| `Remix.CheckName` | modules/brain/brain.c:871-884 | accepts the empty name and the bounded .rmx names, no others |
| `Remix.FindOwn` | modules/brain/brain.c:886-901 | finds the module's record, and that it is bad exactly when there are two, or its schema or checksum is wrong |
| `Remix.Get` | modules/brain/brain.c:921-943 | the selection the records hold: the one well-formed name of the one sound record, or none |
| `Remix.Save` | modules/brain/brain.c:945-998 | refuses a bad name, a damaged pair and a duplicate, unreadable or malformed record; else every other record and the new one |
| `Remix.SaveThenGet` | modules/brain/brain.c:921-998 | after a successful save .work is good and .strd untouched, reading gives the name, every other record is unchanged, and so is every other key of its own |
| `StoreWriters.OthersKept` | modules/brain/brain.c:1252-1314 | after a writer's success the file is good, the records it owns are exactly its new ones and all others are as they were |
| `StoreWriters.WriteDefault` | modules/brain/brain.c:1232-1319 | SAVE FX DEFAULT and its clearing, on the pair; what it leaves alone, told by the records' bytes, is `OtherRecords.DefaultLeaves` |
| `StoreWriters.DefaultReads` | modules/brain/brain.c:1284-1314 | a stored default reads back: the byte of each named slot and no other |
| `StoreWriters.DefaultWritten` | modules/brain/brain.c:1232-1319 | afterwards the effect has exactly the new default, or none, and every record that is not its default is as it was |
| `StoreWriters.WriteProjectDefaults` | modules/brain/brain.c:3857-3912 | SAVE NEW PROJECT and its clearing |
| `StoreWriters.ProjectDefaultsWritten` | modules/brain/brain.c:3857-3912 | afterwards the file is good, the project's default is exactly the new one, or none, and every other record is as it was |
| `StoreWriters.ClearPartDefault` | modules/brain/brain.c:3832-3855 | CLEAR DEFAULT of the Part default |
| `StoreWriters.PartDefaultCleared` | modules/brain/brain.c:3832-3855 | afterwards the file is good, no Part default is left and every other record is as it was |
| `StoreWriters.WriteNames` | modules/brain/brain.c:3595-3653 | one field block per Part that has a knob name, every other record kept |
| `StoreWriters.NamesWritten` | modules/brain/brain.c:3595-3653 | afterwards the file is good, the name blocks are exactly the new ones and every other record is as it was |
| `TemplateStore.FindNth` | modules/brain/brain.c:1928-1945 | the index of a target's i-th template |
| `TemplateStore.FindCalled` | modules/brain/brain.c:2193-2203 | the first of a target's first 64 templates under a name |
| `TemplateStore.RenamedReads` | modules/brain/brain.c:2231-2236 | a renamed template is the same but for its name, and intact |
| `TemplateStore.DeleteTemplate` | modules/brain/brain.c:2190-2240 | the i-th template goes, the rest stay; 1 when there is none |
| `TemplateStore.RenameTemplate` | modules/brain/brain.c:2190-2240 | the i-th template is renamed in place, the rest stay |
| `TemplateStore.SaveTemplate` | modules/brain/brain.c:2193-2328 | the template found under the name goes and the new one is appended |
| `TemplateStore.SaveReplacesExactly` | modules/brain/brain.c:2192-2203 | one template of the name is left if and only if there was none, or one among the target's first 64 |
| `TemplateStore.TemplateDeleted` | modules/brain/brain.c:2190-2240 | after DELETE the file is good and holds every other record, in order |
| `TemplateStore.TemplateRenamed` | modules/brain/brain.c:2190-2240 | after RENAME the file is good, that template has the name and all others are as they were |
| `TemplateStore.TemplateSaved` | modules/brain/brain.c:2193-2328 | after SAVE the file is good: every record but the one found, then the new template |
| `TemplateStore.SavesFillCard` | modules/brain/brain.c:2193-2328 | saves under names of their own fill the card one template at a time |
| `TemplateStore.SixtyFifthIsNotFound` | modules/brain/brain.c:2192-2203 | on the card that 65 such saves leave, one more under the last name succeeds and leaves two templates of that name |
| `TemplateEdits.EditedIsPerField` | modules/brain/brain.c:2217-2229 | editing well-formed values edits each of them and nothing between |
| `TemplateEdits.EditValues` | modules/brain/brain.c:2217-2229 | the loop over a template's values gives each the screen's |
| `TemplateEdits.EditTemplate` | modules/brain/brain.c:2217-2229 | the i-th template's values, and a Part's image, are edited in place, the rest stay |
| `TemplateEdits.EditedReads` | modules/brain/brain.c:2217-2229 | an edited template is its target's still, under its name, and intact |
| `TemplateEdits.TemplateEdited` | modules/brain/brain.c:2217-2229 | after EDIT the file is good, that template has the values shown and all others are as they were |
| `TemplateEdits.SetDefault` | modules/brain/brain.c:3678-3785 | the i-th template becomes its target's default: the defaults it replaces go, the new one is appended, 1 when there is none to make |
| `TemplateEdits.DefaultSet` | modules/brain/brain.c:3678-3785 | afterwards the file is good, the target has exactly the new default and every other record is as it was |
| `TemplateEdits.DefaultCopies` | modules/brain/brain.c:3746-3768 | the default made of a template of well-formed values holds under every key the byte the template holds |
| `RecoveryPair.WriterIsEdit` | modules/brain/brain.c:843-857 | a writer is an edit of the records the pair holds, gives no error exactly when its write was made and whole, and keeps records when what it appends are records |
| `RecoveryPair.StepLoads` | modules/brain/brain.c:641-655 | a loadable pair stays so exactly when .work is not torn while .strd is not good |
| `RecoveryPair.RunLoads` | modules/brain/brain.c:641-655 | a run loads after every step exactly when it has no such step |
| `RecoveryPair.PairLost` | modules/brain/brain.c:641-655 | a run that has one: from two good copies, a torn copy and then a torn edit leave a damaged pair |
| `RecoveryPair.WorkMayTear` | modules/brain/brain.c:816-826 | from a good .strd, whatever becomes of the writes of .work, every state of a run whose copies are whole loads |
| `RecoveryPair.DamagedIsLeft` | modules/brain/brain.c:1012-1020 | a pair with both files damaged is never overwritten |
| `RecoveryPair.StrdOnlyFromWork` | modules/brain/brain.c:1345-1354 | .strd is written only from a good .work, which stays |
| `RecoveryPair.LoadedIsLatestOrSaved` | modules/brain/brain.c:816-826 | what loads is the last completed edit while .work is good, and the last save otherwise |
| `BrainJobs.WantedAreRecords` | modules/brain/brain.c:1432-1461 | whatever records a job finds, what it wants to leave is records again if there is room for it, so no job writes a file its own check would refuse |
| `BrainJobs.CardJob` | modules/brain/brain.c:1434-1460 | a job on the card, by the writer it calls, leaves the pair as its one edit of the records found says, its write whole or torn, and gives no error exactly when that write was made, and whole |
| `BrainJobs.TemplateJob` | modules/brain/brain.c:1435-1452 | likewise the template jobs, the template found anew in the file |
| `BrainJobs.NamesJob` | modules/brain/brain.c:3595-3653 | likewise the knob names, in the project |
| `BrainJobs.ValuesJob` | modules/brain/brain.c:1188-1201 | SETTINGS writes the card and, when the table has project entries, the project too, whether or not the card was written; the first error counts |
| `BrainJobs.SaveJob` | modules/brain/brain.c:1345-1368 | SAVE PROJECT copies the card as it is, and the project only once it was written whole |
| `BrainJobs.RunJob` | modules/brain/brain.c:1432-1461 | any job, dispatched to its writer, leaves both pairs as its steps say and gives no error exactly when each .work it is to write was written whole |
| `BrainJobs.JobsAreSteps` | modules/brain/brain.c:1432-1461 | so every run of jobs is, for each pair, a run of edits that keep records and of copies, and all that holds of those holds of it |
| `BrainJobs.JobsLoad` | modules/brain/brain.c:816-826 | from a good .strd a pair loads after every run of jobs whose copies are whole or leave a good .strd, whatever becomes of the writes of .work |
| `BrainJobs.JobsAccount` | modules/brain/brain.c:1432-1461 | with whole writes a pair is, over any run of jobs, a plain list of records: each job makes of it what it wants, if there is room, and otherwise leaves it |
| `BrainJobs.JobsLoadLatestOrSaved` | modules/brain/brain.c:816-826 | after any run of jobs, torn writes and all, a pair loads what the job of the last whole write wanted of the records it found, while .work is good, and otherwise what that was at the last whole copy |
| `RecordFile.ValidIs` | modules/brain/brain.c:188-203 | a file is valid exactly when its bytes say so: the magic, the header, the version, its own length, its body's checksum, and as many records as it counts, which fill it |
| `CardStore.ReadableIs` | modules/brain/brain.c:172-185 | a file is read as far as its header's length, and not at all when that is too short, too long or more than there is |
| `CardStore.CopyIs` | modules/brain/brain.c:1345-1368 | a whole copy is a good .work but for its kind byte |
| `KeptKeys.StoringKeepsUnknown` | modules/brain/brain.c:1079-1110 | in each store's new record the fields whose keys the table has no entry for are those of the first old record of the store, in order and as often, and none when it had none; the values do not matter |
| `SettingsStore.UnknownStored` | modules/brain/brain.c:1012-1117 | so it is in the file that a store which succeeds leaves |
| `LoadedValues.EntryLoaded` | modules/brain/brain.c:372-443 | loading gives an entry the last value of its key, type, length, bounds and step in its store's record, if the file has exactly one and it is intact and of schema 1; every other entry keeps its own |
| `OtherRecords.DefaultLeaves` | modules/brain/brain.c:1257-1272 | every record but the default of that id for no target and no mode is kept, in order: another kind, another id, another mode |
| `OtherRecords.ProjectDefaultLeaves` | modules/brain/brain.c:3857-3875 | every record but a default of stock.project is kept |
| `OtherRecords.PartClearLeaves` | modules/brain/brain.c:3832-3855 | every record but a default of stock.part2 is kept, and of those none |
| `OtherRecords.NamesLeave` | modules/brain/brain.c:3595-3616 | every record but a field block of stock.midi is kept |
| `OtherRecords.SetDefaultLeaves` | modules/brain/brain.c:3678-3704 | every record but a default of the template's target is kept, and of an effect's target also the defaults of a mode |
| `OtherRecords.SettingsLeave` | modules/brain/brain.c:1019-1040 | every record but the settings records of the scope's ids, and of a saved project its own, is kept |
| `OtherRecords.RemixLeaves` | modules/brain/brain.c:952-963 | every record but the setting's own is kept, and of those there is one, sound, with the name |
| `WrittenValues.DefaultsHold` | modules/brain/brain.c:1274-1314 | the new default is a record of its id for no target and no mode, of the layout, and holds each keyed slot's byte and no other |
| `WrittenValues.ProjectDefaultHolds` | modules/brain/brain.c:3857-3912 | a new project takes exactly the listed bytes of the project settings, each under one more than its offset |
| `WrittenValues.NamesReadBack` | modules/brain/brain.c:3616-3650 | of all the names stored, knob i of a Part reads back its own when it has one, and none when it has not |
| `WrittenValues.ProjectLists` | modules/brain/brain.c:1119-1150 | the project record lists each effect's number, layout and id, one after the other |
| `WrittenValues.NthIs` | modules/brain/brain.c:1928-1945 | place i names the record of the target's id and layout with i such before it, and none when there are fewer |
| `WrittenValues.ReplacedIs` | modules/brain/brain.c:2193-2203 | the template a save replaces is the first of the name among the target's first 64 |
| `WrittenValues.TemplateHolds` | modules/brain/brain.c:2238-2318 | a saved template bears its target's id and layout, its name and its values, and is intact |
| `WrittenValues.RenameHolds` | modules/brain/brain.c:2231-2236 | a rename changes the eight bytes of the name and the checksum |
| `WrittenValues.EditHolds` | modules/brain/brain.c:2217-2229 | after an edit each one-byte value is that of the screen's last slot with its key, and everything else is as it was |
| `WrittenValues.ImageEdited` | modules/brain/brain.c:2217-2229 | a Part's image is replaced where there was one, and nowhere else |
| `WrittenValues.DefaultMade` | modules/brain/brain.c:3678-3785 | the default made of a template holds under every key the byte the template holds, for an effect and for a new project |
| `WrittenValues.PartDefaultMade` | modules/brain/brain.c:3678-3785 | the default of a Part is the template's image, if it holds one |
| `RemixSelection.NameInIs` | modules/brain/brain.c:903-943 | a payload selects a name exactly when it is strict fields to its end and its only field of key 1 is a Blob of 24 bytes that holds the name, an allowed one |
| `RemixSelection.SelectionIs` | modules/brain/brain.c:886-943 | a card selects what its only record of the setting holds, if that is of schema 1 and intact, and else nothing |
| `RemixSelection.OtherKeysStay` | modules/brain/brain.c:981-996 | after a save every field of another key of the record replaced is there, in order |
| `VoiceLead.ChoiceIsEligible` | modules/chords/chords.c:173-193 | what the search asks for is a voicing that may follow, told by its notes |
| `VoiceLead.BetterIs` | modules/chords/chords.c:131-161 | and its ranking is by least move, doublings and span, then by the pairs of equal notes, then by the notes |
| `ChordSlots.SlotLayout` | modules/chords/chords.c:301-330 | each slot's fourteen bytes, in their order, and their place in the file |
| `ChordSpreads.CloseIs` | modules/chords/chords.c:48-59 | the close position: the first voice in the octave, each next one the nearest note above of the type's next pitch class |
| `ChordSpreads.SpreadIs` | modules/chords/chords.c:60-76 | which voices each spread moves, for two, three and four voices |
| `ChordSpreads.BuiltIs` | modules/chords/chords.c:48-87 | a built chord is such a position, so spread, moved by as few octaves as the range needs, and sorted |
| `ChordKnobs.RootAndType` | modules/chords/adapter.c:571-573 | the root and type knobs turn round and round, forget the degree, and lead when there is a chord before |
| `ChordKnobs.TurnedBack` | modules/chords/adapter.c:571-573 | a turn back brings the root or the type back |
| `ChordKnobs.BuiltKnobs` | modules/chords/adapter.c:574-576 | inversion, spread and octave move by the turn up to the end of their ranges, and the chord is built |
| `ChordKnobs.VoiceKnob` | modules/chords/adapter.c:577-598 | the voice knob walks the answers, or starts at the first, an edited chord as the one it is named |
| `ChordKnobs.NoteKnobs` | modules/chords/adapter.c:545-553 | with FUNC a knob moves its note between its neighbours, leaves the rest, and does nothing when nothing moves |
| `ChordKnobs.BassAndDegree` | modules/chords/adapter.c:554-568 | with FUNC the bass flag flips and the degree steps through the scale |
| `EuclidShapes.EnvIs` | modules/euclid/control.c:152-171 | the ENV level in unbounded integers: the straight way up, then the squared way down |
| `EuclidShapes.GateIs` | modules/euclid/control.c:172-176 | the GATE level: up over an edge, open to its length, down over an edge |
| `EuclidShapes.GateShape` | modules/euclid/control.c:172-176 | open in full from its edge to its length, shut an edge later, rising before and falling after |
| `EuclidShapes.StepIs` | modules/euclid/control.c:177-179 | the RAND and LOOP level: the straight way to the step's number over the attack |
| `EuclidShapes.StepShape` | modules/euclid/control.c:177-179 | it starts at the level before, only approaches its number, and holds it once the attack is over |
| `EuclidShapes.CutoffMoves` | modules/euclid/control.c:180-182 | the cutoff is the knob's at level 0, grows with the level above the centre depth and falls below it, and at the ends of the depth moves by the level |
| `EuclidShapes.VoiceLevel` | modules/euclid/control.c:142-179 | an active voice has its mode's level for its age, any other keeps its own |
| `EuclidShapes.StoppedIsSilent` | modules/euclid/control.c:142-146 | stopped or without pulses the level is 0 and the cutoff the knob's, at once |
| `EuclidShapes.PulseTakesOff` | modules/euclid/control.c:128-139 | a pulse takes off from the level there was; RAND draws the step's number anew and LOOP takes the table's, and no other step's changes |
| `EuclidShapes.ModeChangeHolds` | modules/euclid/control.c:110-115 | a change of mode holds the level until the next pulse |
| `EuclidShapes.AgedTwice` | modules/euclid/control.c:116-120 | ages add up over frames and stick at the greatest word |
| `EuclidShapes.BacklogDropped` | modules/euclid/control.c:122-127 | more than two periods behind, a frame takes nothing up to the clock and goes on at the first grid point after it |
| `EuclidShapes.SlotBegins` | modules/euclid/control.c:86-92 | each slot's generator never dies, and its 64 numbers are drawn one after the other |
| `EuclidShapes.LawEnds` | modules/euclid/control.c:151-173 | the laws at the knobs' ends: no attack or a step's, a decay of one step and of eight, a gate of a half and a whole step |
| `EuclidShapes.SwingIs` | modules/euclid/control.c:56-68 | the swing of a step is its own flag's on its grid point and goes over evenly to the next one's |
| `EuclidShapes.RatesDouble` | modules/euclid/control.c:80-84 | each rate is half the next, the fastest the track's scale |
| `LoopGates.ArmedRecords` | modules/free-loop/freeloop.c:241-280 | a trig on an armed track records; armed by REPLACE the track is then idle and due to mute once, else it overdubs |
| `LoopGates.ReplaceRecordsOnce` | modules/free-loop/freeloop.c:241-280 | over every run a REPLACE entry records one pass: until REC, its long press or a pattern arms the track again no later trig records or begins a pass |
| `LoopGates.OverdubRecordsOn` | modules/free-loop/freeloop.c:241-280 | over every run an overdub armed otherwise records at every trig until it is cut |
| `LoopGates.MuteNowHeldIsEnd` | modules/free-loop/freeloop.c:146-193 | MUTE NOW changes the mute at once, and held long takes that back and asks for it at the loop's start |
| `LoopGates.PlayIsEnd` | modules/free-loop/freeloop.c:146-174 | PLAY set to END asks for the change at the loop's start, and pressed twice for none |
| `LoopGates.StoppedPedals` | modules/free-loop/freeloop.c:146-174 | stopped, PLAY starts with the track heard and END acts at once |
| `LoopGates.EnteredIs` | modules/free-loop/freeloop.c:319-332 | what each entry mode makes of a track, and that it leaves its passes, press and loop alone |
| `LoopGates.UndoAnswers` | modules/free-loop/freeloop.c:295-317 | UNDO cuts a recording pass and leaves the track idle; at rest it answers nothing to undo, undone or redone |
| `LoopGates.RecAnswers` | modules/free-loop/freeloop.c:97-144 | REC by what is on: launch, refusal, take, arming or a stop, each exactly when |
| `LoopGates.RecHeldAnswers` | modules/free-loop/freeloop.c:176-193 | REC held long is UNDO or a clear, by what its press started and whether the track is heard, once a press |
| `LoopGates.LongPressIs` | modules/free-loop/freeloop.c:176-193 | a long press is due exactly 132000000 counts after its press, through the timer's wrap |
| `LoopGates.StopIs` | modules/free-loop/freeloop.c:334-342 | a stop leaves nothing armed, overdubbing, pending or recording; a take goes on |
| `LoopGates.ClearIs` | modules/free-loop/freeloop.c:383-406 | a clear forgets the loop and its passes, a reset also what is on |
| `TempoSolver.BarSteps` | modules/free-loop/freeloop.c:16-19 | a bar of each signature has as many steps as sixteenths |
| `TempoSolver.FitsIs` | modules/free-loop/freeloop.c:27-38 | steps fit a scale exactly when 2 to 64 steps of it last as long |
| `TempoSolver.SolvableIs` | modules/free-loop/freeloop.c:40-57 | a take can be solved exactly when some tempo of 30 to 300 BPM does not pad it and 30 BPM cuts no more than a thousandth of the loop |

## Left out

- LoopRuns.UndoToReturns: for tracks whose two buffers no other looping track
  records into, with the UNDO and UNDO TO settings fixed for the run. A track that is
  off may still record, by stock means, into a buffer lent to another; that is outside
  the model, and its clear counts as the lender's. A track without an undo buffer
  clears the buffer its Flex slot names, which is taken to be its own.
- LoopRuns.FreshPassIsReversible: likewise for private buffers and fixed settings.
- LoopRuns.RunKeepsInv: a stop of the transport that is undone by a start before a
  tick sees it never reaches the engine, here as in the source; the tick and a press
  do not interleave.
- EuclidGrid.EventsSoundOnce: the clock may step back by at most 768 quanta, and
  not at a change of rate; the quantum count stays below 2^31 - 768.
- EuclidRuns.NoneSkipped: for frames that all run, at one rate, the clock going on by
  at most four fifths of a period past the furthest it has been. After a gap that
  leaves it more than two periods behind, the source drops the backlog.
- FREE LOOP's arrays of one field per track are one array of records per track,
  and its bit masks are flags of those records.
- The label texts, the settings rows and their editor, and REPLACE mutes back to
  back, whose balance is not claimed.
- The fields a failed fixed-bar solve leaves half written in its output.
- Interrupts between the UI task and the recorders: an event is one step.
- CHORDS' identification and diatonic tables: what they name is a parameter of the
  edits that use it. Drawing, sounding and the step locks.
- The insertion of `consider` shifts its three parallel arrays one after the other
  instead of element by element.
- EUCLID's parameter publication from the sequencer's records; the ranges it
  clamps to are `EuclidSwing.Params.Valid`.
- The generator's period and the table's distribution: only that it stays alive.
- Checksums: any function from bytes to words, the same for writing and reading.
  Length fields near 2^32, where the source's sums wrap: lengths are natural numbers.
- Card files: absent or bytes; a write completes or leaves anything. The folder
  made on a card's first write.
- BrainJobs.RunJob: jobs come one at a time with their arguments read; the bits of the
  job's word, the queue they wait in and the debug file are not modelled, and the
  project named is the same throughout a run. Selecting a remix is made a job too,
  though it is called directly.
- TemplateStore.SaveTemplate: a template's values, whether taken from a track, a
  Part or an effect's descriptor, are a parameter.
- TemplateEdits.SetDefault: a one-byte value cut short at the payload's end is read
  from the byte behind it, which is a parameter; the same value edited on the screen
  is written there, outside the record, and does not reach the file.
- SettingsRoundTrip.RoundTrip: for a table of at most 48 entries with ids of 1..63
  bytes and no key twice in a store of a scope, as the build guarantees
  (docs/specs/BRAIN.md, lines 148-149), and values that fit their bytes.
- New records are made as values and then laid into the output buffer; the source
  builds them there, returning 3 at the first byte that has no room.
- Applying effect defaults to descriptors and mode tables, the value caches, the
  CS1 early block and the project record's comparison at load.
- StoreWriters.WriteNames: the loop that loads the names is not modelled; that the
  blocks hold exactly them is `WrittenValues.NamesReadBack`.
- Settings.AfterRecord: the counters of records and skipped values are not kept.
- Remix.Save: when its old record is malformed and room runs out before the
  malformed field, the error is 2 or 3; either way nothing is written.
