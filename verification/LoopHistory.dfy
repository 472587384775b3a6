/** What a looping track's two buffers mean to the player: a history of at most
    two loops. The flags of `LoopTrack.Track` over the buffers X (the track's
    own, cur 0) and Y (its UNDO buffer, cur 1) are shown to implement it. */
module LoopHistory {
  import opened Words
  import opened LoopTrack

  /** A buffer's samples; empty after a clear. */
  type Loop = seq<int>

  /** At rest, the loop heard and the one UNDO or REDO switches to; during a
      pass, the loop it started from and the layer being recorded; during an
      in-place pass, the loop being overdubbed and the one UNDO TO keeps. */
  datatype Deck =
    | Rest(heard: Loop, other: Option<Loop>)
    | Fresh(base: Loop, layer: Loop)
    | InPlace(dubbed: Loop, kept: Loop)

  /** Where the loop UNDO TO keeps is: nowhere yet, the one played (a fresh
      pass's base), or the other. */
  datatype Keeps = Nowhere | Played | Other

  datatype History = History(deck: Deck, keeps: Keeps, count: nat) {
    /** UNDO TO's loop is never out of reach. */
    predicate Valid() {
      match deck
      case Rest(_, other) => keeps == Other ==> other.Some?
      case Fresh(_, _) => keeps != Other
      case InPlace(_, _) => keeps == Other
    }

    /** The loop UNDO TO keeps. */
    function KeptLoop(): Loop
      requires Valid() && keeps != Nowhere
    {
      match deck
      case Rest(h, o) => if keeps == Played then h else o.value
      case Fresh(b, _) => b
      case InPlace(_, k) => k
    }

    /** The pass in progress is over; the n-th recording is the one UNDO TO keeps. */
    function Settled(n: nat): (h: History)
      requires Valid()
      ensures h.Valid() && h.deck.Rest?
    {
      if deck.Rest? then this else
      var c := if count < 255 then count + 1 else count;
      var d := if deck.Fresh? then Rest(deck.layer, Some(deck.base)) else Rest(deck.dubbed, Some(deck.kept));
      History(d, if c == n && 0 < n < 128 then Played else if keeps == Nowhere then Nowhere else Other, c)
    }

    /** A REPLACE pass begins the count anew. */
    function Forgotten(): (h: History)
      requires Valid() && deck.Rest?
      ensures h.Valid()
    {
      History(deck, Nowhere, 0)
    }

    /** A pass begins: in place when UNDO TO's loop is the other one, else into
        the other buffer, which holds `scrap`. */
    function Begun(scrap: Loop): (h: History)
      requires Valid() && deck.Rest?
      ensures h.Valid()
    {
      if keeps == Other then History(InPlace(deck.heard, deck.other.value), Other, count)
      else History(Fresh(deck.heard, scrap), keeps, count)
    }

    /** The pass's recorder has written `take`. */
    function Recorded(take: Loop): (h: History)
      requires Valid()
      ensures h.Valid()
    {
      match deck
      case Rest(_, _) => this
      case Fresh(b, _) => History(Fresh(b, take), keeps, count)
      case InPlace(_, k) => History(InPlace(take, k), keeps, count)
    }

    /** A take is launched: the count begins with it, and UNDO TO 1 keeps what the
        track plays. */
    function Launched(n: nat): (h: History)
      requires Valid() && deck.Rest?
      ensures h.Valid()
    {
      History(deck, if n == 1 then Played else Nowhere, 1)
    }

    /** UNDO, or REDO, or the pass in progress dropped. */
    function Undone(): (h: History)
      requires Valid()
      ensures h.Valid() && h.deck.Rest?
    {
      match deck
      case Rest(_, None) => this
      case Rest(h, Some(o)) =>
        History(Rest(o, Some(h)), if keeps == Played then Other else if keeps == Other then Played else Nowhere, count)
      case Fresh(b, _) => History(Rest(b, None), keeps, count)
      case InPlace(d, k) => History(Rest(k, Some(d)), Played, count)
    }

    /** The sequencer stops: a fresh pass is dropped, an in-place one ends. */
    function Stopped(): (h: History)
      requires Valid()
      ensures h.Valid() && h.deck.Rest?
    {
      match deck
      case Rest(_, _) => this
      case Fresh(b, _) => History(Rest(b, None), keeps, count)
      case InPlace(d, k) => History(Rest(d, Some(k)), keeps, count)
    }
  }

  /** UNDO at rest, twice, is the identity: the second is REDO. */
  lemma UndoRedo(h: History)
    requires h.Valid() && h.deck.Rest?
    ensures h.Undone().Undone() == h
  {
  }

  /** From any moment UNDO TO keeps a loop that is not the one played, one
      UNDO plays it, whether at rest or in a pass. */
  lemma UndoReachesKept(h: History)
    requires h.Valid() && h.keeps == Other
    ensures h.Undone().deck.heard == h.KeptLoop() && h.Undone().keeps == Played
  {
  }

  // ---- the flags implement it ------------------------------------------------

  /** The inductive invariant of cur, rec, swap, valid, inplace, anchor and
      npass: which buffer a pass records into, and where UNDO TO's loop is.
      `u` is the UNDO buffer, 0 none. */
  predicate PassInv(n: nat, u: nat, p: Pass) {
    && p.rec <= 2
    && (p.rec == 0 ==> !p.swap && !p.inplace)
    && (p.rec != 0 ==> u != 0)
    && (p.rec != 0 && p.inplace ==> !p.swap && Target(p) == p.cur && p.valid && HasAnchor(n, p) && Kept(p) != p.cur)
    && (p.rec != 0 && !p.inplace ==> !p.valid && (if p.swap then Target(p) != p.cur else Target(p) == p.cur))
    && (HasAnchor(n, p) ==> n <= p.npass && n < 128)
    && (HasAnchor(n, p) && p.rec == 0 && p.cur != Kept(p) ==> p.valid)
    && (HasAnchor(n, p) && p.rec != 0 ==> Target(p) != Kept(p))
  }

  /** The buffer the pass in progress records into: 0 X, 1 Y. */
  function Target(p: Pass): Bit {
    if p.rec == 2 then 1 else 0
  }

  function Buffer(b: Bit, x: Loop, y: Loop): Loop {
    if b == 0 then x else y
  }

  function HistoryOf(n: nat, p: Pass, x: Loop, y: Loop): History {
    var played, other := Buffer(p.cur, x, y), Buffer(Flip(p.cur), x, y);
    if p.rec == 0 then
      History(Rest(played, if p.valid then Some(other) else None),
              if !HasAnchor(n, p) then Nowhere else if Kept(p) == p.cur then Played else Other, p.npass)
    else if p.inplace then History(InPlace(played, other), Other, p.npass)
    else
      History(if p.swap then Fresh(played, other) else Fresh(other, played),
              if HasAnchor(n, p) then Played else Nowhere, p.npass)
  }

  lemma HistoryValid(n: nat, u: nat, p: Pass, x: Loop, y: Loop)
    requires PassInv(n, u, p)
    ensures HistoryOf(n, p, x, y).Valid()
    ensures HasAnchor(n, p) ==> HistoryOf(n, p, x, y).KeptLoop() == Buffer(Kept(p), x, y)
  {
  }

  lemma AnchorByteHolds(n: nat, cur: Bit, p: Pass)
    requires p.anchor == AnchorByte(n, cur) && n < 256
    ensures HasAnchor(n, p) <==> 0 < n < 128
    ensures 0 < n < 128 ==> Kept(p) == cur
  {
  }

  /** The end of a pass settles the history. */
  lemma PassOverSettles(n: nat, u: nat, p: Pass, x: Loop, y: Loop)
    requires PassInv(n, u, p) && n < 256
    ensures PassInv(n, u, PassOver(n, p)) && PassOver(n, p).rec == 0
    ensures HistoryOf(n, p, x, y).Valid()
    ensures HistoryOf(n, PassOver(n, p), x, y) == HistoryOf(n, p, x, y).Settled(n)
  {
    var q := PassOver(n, p);
    if p.rec != 0 && q.npass == n { AnchorByteHolds(n, q.cur, q); }
  }

  /** A trig at the gate settles the pass before it and, when it starts a
      recording, begins the next: the flags choose the buffers the history asks for. */
  lemma GateRefines(c: Settings, u: nat, k: Track, x: Loop, y: Loop)
    requires PassInv(c.undoto, u, k.pass) && c.undoto < 256 && c.role != ROLE_OFF
    ensures var n, p' := c.undoto, Gate(c, u, k).track.pass;
      var h := HistoryOf(n, k.pass, x, y);
      && PassInv(n, u, p') && h.Valid()
      && var settled := if Replaces(k) then h.Settled(n).Forgotten() else h.Settled(n);
         HistoryOf(n, p', x, y) ==
           if Goes(k) && u != 0 then settled.Begun(Buffer(Flip(PassOver(n, k.pass).cur), x, y)) else settled
  {
    PassOverSettles(c.undoto, u, k.pass, x, y);
  }

  /** While a loop is kept, no pass the gate starts records into its buffer,
      and a fresh pass records into the buffer not played. The track's own trig
      fires exactly when its own recorder takes the pass. */
  lemma GateTarget(c: Settings, u: nat, k: Track)
    requires PassInv(c.undoto, u, k.pass) && c.undoto < 256 && c.role != ROLE_OFF
    ensures var g := Gate(c, u, k);
      var p := g.track.pass;
      && (p.rec != 0 && HasAnchor(c.undoto, p) ==> Target(p) != Kept(p))
      && (p.rec != 0 && !p.inplace ==> Target(p) != p.cur)
      && (p.rec != 0 ==> g.fires == (Target(p) == 0) && g.injects == (Target(p) == 1))
      && (p.rec == 0 ==> g.fires == Goes(k) && !g.injects)
  {
    PassOverSettles(c.undoto, u, k.pass, [], []);
  }

  /** UNDO on the flags is UNDO on the history, mid-pass, in place or at rest. */
  lemma UndoRefines(n: nat, u: nat, p: Pass, x: Loop, y: Loop)
    requires PassInv(n, u, p)
    ensures PassInv(n, u, UndoPass(p)) && HistoryOf(n, p, x, y).Valid()
    ensures HistoryOf(n, UndoPass(p), x, y) == HistoryOf(n, p, x, y).Undone()
  {
  }

  /** Stopping the sequencer stops the history. */
  lemma StopRefines(n: nat, u: nat, p: Pass, x: Loop, y: Loop)
    requires PassInv(n, u, p)
    ensures PassInv(n, u, PassDrop(p)) && PassDrop(p).rec == 0 && HistoryOf(n, p, x, y).Valid()
    ensures HistoryOf(n, PassDrop(p), x, y) == HistoryOf(n, p, x, y).Stopped()
  {
  }

  /** The recorder seen running changes nothing to the history: only which
      buffer is named as played. */
  lemma RunningRefines(n: nat, u: nat, p: Pass, x: Loop, y: Loop)
    requires PassInv(n, u, p)
    ensures PassInv(n, u, RecRunning(p))
    ensures HistoryOf(n, RecRunning(p), x, y) == HistoryOf(n, p, x, y)
  {
  }

  /** Samples written into the pass's buffer are the history's recording. */
  lemma RecordRefines(n: nat, u: nat, p: Pass, x: Loop, y: Loop, take: Loop)
    requires PassInv(n, u, p) && p.rec != 0
    ensures var x', y' := if Target(p) == 0 then take else x, if Target(p) == 1 then take else y;
      && HistoryOf(n, p, x, y).Valid()
      && HistoryOf(n, p, x', y') == HistoryOf(n, p, x, y).Recorded(take)
  {
  }

  /** A take launched is counted first. What UNDO TO 1 then keeps is the loop in the
      buffer played; the take was recorded into X. */
  lemma LaunchKeeps(n: nat, u: nat, p: Pass, x: Loop, y: Loop)
    requires PassInv(n, u, p) && p.rec == 0
    ensures PassInv(n, u, PassLaunched(n, p)) && HistoryOf(n, p, x, y).Valid()
    ensures HistoryOf(n, PassLaunched(n, p), x, y) == HistoryOf(n, p, x, y).Launched(n)
    ensures HasAnchor(n, PassLaunched(n, p)) <==> n == 1
    ensures n == 1 ==>
      Kept(PassLaunched(n, p)) == p.cur && HistoryOf(n, PassLaunched(n, p), x, y).KeptLoop() == Buffer(p.cur, x, y)
  {
    assert (2 + p.cur) / 2 == 1 && (2 + p.cur) % 2 == p.cur;
  }
}
