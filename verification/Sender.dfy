/** The server's `file_transfer`: what one pass through its state loop does, on values. */
module Sender {
  import opened Bytes
  import opened Codec
  import opened Chunks
  import opened Ring

  datatype SState =
    | SAdjustWindow
    | SFillWindow
    | SSendWindow
    | SWaitOnResponse
    | STimeoutOnResponse
    | SDone
    | SFileName
    | SFinish
    | SStuck

  /** `SStuck` is the one state the source has no name for: a loop over the window that never ends.  `wires[k]`
      is the datagram in the packet buffer of frame `k`; `pos` is the file position. */
  datatype Sender = Sender(
    st: SState,
    win: Win,
    wires: seq<Wire>,
    content: seq<byte>,
    pos: nat,
    order: Order)

  /** The memory shape every state keeps: one packet buffer a frame, and a position inside the file. */
  predicate WellFormed(s: Sender) {
    && |s.win.states| > 0
    && |s.wires| == |s.win.states|
    && s.pos <= |s.content|
  }

  function Start(windowSize: u32, buffsize: nat, content: seq<byte>, order: Order): (s: Sender)
    requires windowSize > 0
    ensures WellFormed(s)
  {
    Sender(SFillWindow, WindowAlloc(0, windowSize, buffsize).(rr := 0), seq(windowSize, _ => []), content, 0, order)
  }

  /** A sequence number as the 32-bit header field holds it. */
  function Low32(q: nat): (r: u32)
    ensures q < U32_LIMIT ==> r == q
  {
    q % U32_LIMIT
  }

  function DataWire(order: Order, q: nat, data: seq<byte>): Wire {
    Encode(order, Packet(DATA, Low32(q), data))
  }

  // ---------- the passes of the state loop ----------

  function AdjustWindow(s: Sender): (r: Sender)
    requires WellFormed(s)
    ensures WellFormed(r)
  {
    if s.win.eof && s.win.rr > s.win.topSent then s.(st := SDone)
    else s.(win := Slide(s.win), st := if Moves(s.win) then SFillWindow else SSendWindow)
  }

  /** `file_fill_frame` on the frame of `q`, if it is empty. */
  function FillFrame(s: Sender, q: nat): (r: Sender)
    requires WellFormed(s)
    ensures WellFormed(r) && |r.win.states| == |s.win.states|
  {
    var k := Slot(|s.win.states|, q);
    if s.win.states[k] == Empty then
      var data := Fread(s.content, s.win.buffsize, s.pos);
      var read := s.(pos := s.pos + |data|, win := s.win.(eof := s.win.eof || |data| < s.win.buffsize));
      if data == [] then read
      else read.(wires := s.wires[k := DataWire(s.order, q, data)],
                 win := read.win.(states := s.win.states[k := Full]))
    else s
  }

  function FillFrom(s: Sender, q: nat): (r: Sender)
    requires WellFormed(s)
    ensures WellFormed(r)
    decreases s.win.top + 1 - q
  {
    if q > s.win.top then s else FillFrom(FillFrame(s, q), q + 1)
  }

  function FillWindow(s: Sender): (r: Sender)
    requires WellFormed(s)
    ensures WellFormed(r)
  {
    FillFrom(s, s.win.bottom).(st := SSendWindow)
  }

  /** The frame of `q` goes out if it is full. */
  function SendFrame(s: Sender, q: nat): (r: (Sender, seq<Wire>))
    requires WellFormed(s)
    ensures WellFormed(r.0) && |r.0.win.states| == |s.win.states|
  {
    var k := Slot(|s.win.states|, q);
    if s.win.states[k] == Full then
      (s.(win := s.win.(states := s.win.states[k := Sent], topSent := Max(q, s.win.topSent))), [s.wires[k]])
    else (s, [])
  }

  function SendFrom(s: Sender, q: nat): (r: (Sender, seq<Wire>))
    requires WellFormed(s)
    ensures WellFormed(r.0)
    decreases s.win.top + 1 - q
  {
    if q > s.win.top then (s, [])
    else
      var (t, out) := SendFrame(s, q);
      var (u, more) := SendFrom(t, q + 1);
      (u, out + more)
  }

  function SendWindow(s: Sender): (r: (Sender, seq<Wire>))
    requires WellFormed(s)
    ensures WellFormed(r.0)
  {
    var (t, out) := SendFrom(s, s.win.bottom);
    (t.(st := SWaitOnResponse), out)
  }

  function TimeoutOnResponse(s: Sender): (r: Sender)
    requires WellFormed(s)
    ensures WellFormed(r)
  {
    if s.win.numWait < MAX_TRIES then
      s.(win := s.win.(numWait := s.win.numWait + 1, states := RefillFrom(s.win.states, s.win.bottom, s.win.top)),
         st := SSendWindow)
    else s.(st := SFinish)
  }

  /** `wait_on_response` when `select` reports a datagram; `None` is one whose checksum is not good. */
  function Respond(s: Sender, p: Option<Packet>): (r: Sender)
    requires WellFormed(s)
    ensures WellFormed(r)
  {
    match p
    case None => s.(st := STimeoutOnResponse)
    case Some(p) =>
      var w := s.win.(numWait := 0);
      if p.flag == RR then s.(win := w.(rr := Max(p.seq_, w.rr)), st := SAdjustWindow)
      else if p.flag == SREJ then s.(win := w.(srej := Max(p.seq_, w.srej)), st := SAdjustWindow)
      else if p.flag == FILE_NAME then s.(win := w, st := SFileName)
      else s.(win := w, st := SFinish)
  }

  /** The state loops over the window, and the window's top is the highest number there is (see
      `Ring.LoopEndsIff`). */
  predicate Hangs(s: Sender) {
    && s.win.top >= U32_MAX
    && (s.st == SFillWindow || s.st == SSendWindow || (s.st == STimeoutOnResponse && s.win.numWait < MAX_TRIES))
  }

  /** One pass of the state loop in a state that does not wait. */
  function Pass(s: Sender): (r: (Sender, seq<Wire>))
    requires WellFormed(s)
    ensures WellFormed(r.0)
  {
    if Hangs(s) then (s.(st := SStuck), []) else
    match s.st
    case SAdjustWindow => (AdjustWindow(s), [])
    case SFillWindow => (FillWindow(s), [])
    case SSendWindow => SendWindow(s)
    case STimeoutOnResponse => (TimeoutOnResponse(s), [])
    case _ => (s, [])
  }

  // ---------- the sender's window invariant ----------

  function Total(s: Sender): nat
    requires s.win.buffsize > 0
  {
    ChunkCount(s.win.buffsize, |s.content|)
  }

  /** The wire a frame numbered `q` has to hold: chunk `q` of the file under the label `q`. */
  function LabelledWire(s: Sender, q: nat): Wire
    requires q >= 1
  {
    DataWire(s.order, q, Chunk(s.content, s.win.buffsize, q))
  }

  ghost predicate Shape(s: Sender) {
    && WellFormed(s)
    && s.win.buffsize > 0
    && s.win.bottom >= 1
    && s.win.top == s.win.bottom + |s.win.states| - 1
    && s.win.rr <= s.win.topSent + 1
    && s.win.srej <= s.win.topSent + 1
    && Total(s) + |s.win.states| < U32_MAX
  }

  function StateOf(s: Sender, q: nat): FrameState
    requires WellFormed(s)
  {
    s.win.states[Slot(|s.win.states|, q)]
  }

  function WireOf(s: Sender, q: nat): Wire
    requires WellFormed(s)
  {
    s.wires[Slot(|s.win.states|, q)]
  }

  /** Whether filling the frames up to `k` takes a read that comes out short. */
  predicate EndReached(s: Sender, k: nat) {
    PastEnd(s.win.buffsize, |s.content|, k)
  }

  /** `n` chunks have been read: the frames up to `n` hold their chunks and are sent or about to be, the
      frames above `n` are empty, and those above `topSent` have not been sent. */
  ghost predicate Loaded(s: Sender, n: nat)
    requires Shape(s)
  {
    && s.win.bottom <= s.win.topSent + 1
    && n <= s.win.top
    && s.win.topSent <= n <= Total(s)
    && s.pos == Off(s.win.buffsize, |s.content|, n)
    && (s.win.eof ==> n == Total(s) && EndReached(s, s.win.top))
    && (EndReached(s, n) ==> s.win.eof)
    && (forall q :: s.win.bottom <= q <= n ==> WireOf(s, q) == LabelledWire(s, q))
    && (forall q :: s.win.bottom <= q <= n ==> StateOf(s, q) == Full || StateOf(s, q) == Sent)
    && (forall q :: s.win.bottom <= q <= n && q > s.win.topSent ==> StateOf(s, q) == Full)
    && (forall q :: n < q <= s.win.top ==> StateOf(s, q) == Empty)
  }

  ghost predicate AllSent(s: Sender)
    requires WellFormed(s)
  {
    forall q :: s.win.bottom <= q <= s.win.topSent ==> StateOf(s, q) == Sent
  }

  /** The number of chunks read when the window has been filled. */
  function FilledTo(s: Sender): nat
    requires s.win.buffsize > 0
  {
    Min(s.win.top, Total(s))
  }

  ghost predicate AllFull(s: Sender)
    requires WellFormed(s)
  {
    forall q :: s.win.bottom <= q <= s.win.topSent ==> StateOf(s, q) == Full
  }

  /** The end of the file has been met exactly if the window reaches past it. */
  ghost predicate EndIsKnown(s: Sender) {
    s.win.eof <==> EndReached(s, s.win.top)
  }

  /** The window starts at the highest number asked for. */
  predicate AtAsked(s: Sender) {
    s.win.bottom == Max(s.win.rr, s.win.srej)
  }

  /** What was sent before is about to be sent again if there has been a timeout since the last answer, and
      only then.  Except when it is about to be moved, the window is where the answers heard want it. */
  ghost predicate Inv(s: Sender) {
    && Shape(s)
    && (s.st != SAdjustWindow && s.st != SDone ==> AtAsked(s))
    && match s.st
       case SSendWindow =>
         && Loaded(s, FilledTo(s)) && EndIsKnown(s)
         && if s.win.numWait == 0 then AllSent(s) else AllFull(s)
       case SFillWindow => Loaded(s, s.win.topSent) && AllSent(s) && s.win.numWait == 0
       case SAdjustWindow =>
         && Loaded(s, s.win.topSent) && AllSent(s) && s.win.topSent == FilledTo(s) && EndIsKnown(s)
         && s.win.numWait == 0 && s.win.bottom <= Max(s.win.rr, s.win.srej)
       case SStuck => false
       case SDone =>
         && Loaded(s, s.win.topSent) && AllSent(s) && s.win.topSent == FilledTo(s)
         && s.win.eof && s.win.rr > s.win.topSent
       case _ => Loaded(s, s.win.topSent) && AllSent(s) && s.win.topSent == FilledTo(s) && EndIsKnown(s)
  }

  lemma SameWiresStayLabelled(s: Sender, r: Sender, n: nat)
    requires WellFormed(s) && WellFormed(r) && s.win.bottom >= 1
    requires r.wires == s.wires && |r.win.states| == |s.win.states| && r.win.bottom == s.win.bottom
    requires r.content == s.content && r.order == s.order && r.win.buffsize == s.win.buffsize
    requires forall q :: s.win.bottom <= q <= n ==> WireOf(s, q) == LabelledWire(s, q)
    ensures forall q :: r.win.bottom <= q <= n ==> WireOf(r, q) == LabelledWire(r, q)
  {
    forall q | r.win.bottom <= q <= n ensures WireOf(r, q) == LabelledWire(r, q) {
      assert WireOf(s, q) == LabelledWire(s, q);
    }
  }

  lemma PhaseIsIrrelevant(s: Sender, st: SState, n: nat)
    requires Shape(s) && Loaded(s, n)
    ensures var r := s.(st := st);
            && Shape(r) && Loaded(r, n)
            && (AllSent(s) ==> AllSent(r))
  {
    hide DataWire, ChunkCount, Off, Chunk, Slot;
    var r := s.(st := st);
    assert forall q :: StateOf(r, q) == StateOf(s, q);
    SameWiresStayLabelled(s, r, n);
  }

  lemma StartInv(windowSize: u32, buffsize: nat, content: seq<byte>, order: Order)
    requires windowSize > 0 && buffsize > 0 && ChunkCount(buffsize, |content|) + windowSize < U32_MAX
    ensures Inv(Start(windowSize, buffsize, content, order))
  {
  }

  lemma AdjustKeepsInv(s: Sender)
    requires Inv(s) && s.st == SAdjustWindow
    ensures Inv(AdjustWindow(s))
  {
    hide DataWire, ChunkCount, Off, Chunk, Slot, Slide, PastEnd;
    SlideFits(s.win);
    var r := AdjustWindow(s);
    if r.st == SFillWindow {
      forall q | r.win.bottom <= q <= r.win.top
        ensures StateOf(r, q) == if q <= s.win.top then StateOf(s, q) else Empty
      {
        SlideEffect(s.win, q);
      }
      forall q | r.win.bottom <= q <= r.win.topSent ensures WireOf(r, q) == LabelledWire(r, q) {
        assert WireOf(s, q) == LabelledWire(s, q);
      }
      WindowEndStays(s, r);
    } else {
      assert forall q :: r.win.bottom <= q <= r.win.top ==>
               StateOf(r, q) == StateOf(s, q) && WireOf(r, q) == WireOf(s, q);
    }
  }

  lemma WindowEndStays(s: Sender, r: Sender)
    requires r.win.buffsize == s.win.buffsize && r.content == s.content && s.win.top <= r.win.top
    ensures EndReached(s, s.win.top) ==> EndReached(r, r.win.top)
  {
    if EndReached(s, s.win.top) {
      PastEndStays(s.win.buffsize, |s.content|, s.win.top, r.win.top);
    }
  }

  /** Filling frame `q` when the chunks read so far are those below `q` that exist. */
  lemma FillFrameKeepsLoaded(s: Sender, q: nat, n: nat)
    requires Shape(s) && Loaded(s, n)
    requires s.win.bottom <= q <= s.win.top && n == Max(s.win.topSent, Min(q - 1, Total(s)))
    ensures var r := FillFrame(s, q);
            && Shape(r)
            && r.win == s.win.(states := r.win.states, eof := r.win.eof)
            && r.content == s.content && r.order == s.order && r.st == s.st
            && Loaded(r, Max(s.win.topSent, Min(q, Total(s))))
            && (EndReached(s, q) || s.win.eof ==> r.win.eof)
            && (forall p :: s.win.bottom <= p <= s.win.topSent ==> StateOf(r, p) == StateOf(s, p))
  {
    hide DataWire, ChunkCount, Off, Chunk, Fread, Slot, PastEnd;
    var r := FillFrame(s, q);
    EndReachedBounds(s, q, n);
    if n >= q {
      assert StateOf(s, q) == Full || StateOf(s, q) == Sent;
      assert r == s;
    } else {
      assert StateOf(s, q) == Empty;
      ReadIsChunk(s.content, s.win.buffsize, n);
      var size := |s.win.states|;
      if n < Total(s) {
        assert n + 1 == q;
        forall p | s.win.bottom <= p <= s.win.top && p != q
          ensures StateOf(r, p) == StateOf(s, p) && WireOf(r, p) == WireOf(s, p)
        {
          SlotInjective(size, s.win.bottom, p, q);
        }
        forall p | s.win.bottom <= p <= q ensures WireOf(r, p) == LabelledWire(r, p) {
          if p < q {
            assert WireOf(s, p) == LabelledWire(s, p);
          }
        }
      } else {
        assert r.win.states == s.win.states;
        assert forall p :: s.win.bottom <= p <= s.win.top ==>
                 StateOf(r, p) == StateOf(s, p) && WireOf(r, p) == WireOf(s, p);
        assert forall p :: s.win.bottom <= p <= n ==> WireOf(r, p) == LabelledWire(r, p);
      }
    }
  }

  lemma EndReachedBounds(s: Sender, q: nat, n: nat)
    requires s.win.buffsize > 0
    ensures EndReached(s, q) && q <= n ==> EndReached(s, n)
    ensures EndReached(s, q) && q <= s.win.top ==> EndReached(s, s.win.top)
    ensures q > Total(s) ==> EndReached(s, q)
    ensures EndReached(s, q) ==> q >= Total(s)
  {
    var size, len := s.win.buffsize, |s.content|;
    PastEndBounds(size, len, q);
    if EndReached(s, q) && q <= n {
      PastEndStays(size, len, q, n);
    }
    if EndReached(s, q) && q <= s.win.top {
      PastEndStays(size, len, q, s.win.top);
    }
  }

  lemma {:induction false} FillFromKeepsLoaded(s: Sender, q: nat, n: nat)
    requires Shape(s) && Loaded(s, n)
    requires s.win.bottom <= q <= s.win.top + 1 && n == Max(s.win.topSent, Min(q - 1, Total(s)))
    requires EndReached(s, q - 1) ==> s.win.eof
    ensures var r := FillFrom(s, q);
            && Shape(r)
            && (EndReached(s, s.win.top) ==> r.win.eof)
            && r.win == s.win.(states := r.win.states, eof := r.win.eof)
            && r.content == s.content && r.order == s.order
            && Loaded(r, Max(s.win.topSent, FilledTo(s)))
            && (forall p :: s.win.bottom <= p <= s.win.topSent ==> StateOf(r, p) == StateOf(s, p))
    decreases s.win.top + 1 - q
  {
    hide DataWire, ChunkCount, Off, Chunk, Slot, PastEnd, FillFrame, StateOf, WireOf;
    if q <= s.win.top {
      FillFrameKeepsLoaded(s, q, n);
      FillFromKeepsLoaded(FillFrame(s, q), q + 1, Max(s.win.topSent, Min(q, Total(s))));
    }
  }

  /** The filled window knows of the end of the file exactly if it reaches past it, and of what it is about to
      send nothing has been sent before. */
  lemma FillKeepsInv(s: Sender)
    requires Inv(s) && s.st == SFillWindow
    ensures Inv(FillWindow(s)) && FillWindow(s).win.numWait == 0
  {
    hide PastEnd, ChunkCount, Off, DataWire, Chunk, Slot;
    EndReachedBounds(s, s.win.bottom - 1, s.win.topSent);
    FillFromKeepsLoaded(s, s.win.bottom, s.win.topSent);
    PhaseIsIrrelevant(FillFrom(s, s.win.bottom), SSendWindow, FilledTo(s));
  }

  // ---------- sending ----------

  /** The datagrams of the full frames `q` to `n`, in order. */
  function FullWires(s: Sender, q: nat, n: nat): seq<Wire>
    requires WellFormed(s) && q >= 1
    decreases n + 1 - q
  {
    if q > n then [] else (if StateOf(s, q) == Full then [LabelledWire(s, q)] else []) + FullWires(s, q + 1, n)
  }

  /** The sender with its frames and its highest number sent set aside. */
  ghost predicate OnlySends(s: Sender, r: Sender) {
    && r == s.(win := s.win.(states := r.win.states, topSent := r.win.topSent))
    && |r.win.states| == |s.win.states|
  }

  lemma SendFrameKeepsLoaded(s: Sender, q: nat, n: nat)
    requires Shape(s) && Loaded(s, n)
    requires s.win.bottom <= q <= s.win.top && s.win.topSent >= Min(q - 1, n)
    ensures var (r, out) := SendFrame(s, q);
            && OnlySends(s, r) && Shape(r) && Loaded(r, n)
            && r.win.topSent == Max(s.win.topSent, Min(q, n))
            && (forall p :: s.win.bottom <= p <= s.win.top && p != q ==> StateOf(r, p) == StateOf(s, p))
            && (q <= n ==> StateOf(r, q) == Sent)
            && out == if q <= n && StateOf(s, q) == Full then [LabelledWire(s, q)] else []
  {
    hide DataWire, ChunkCount, Off, Chunk, Slot;
    var (r, out) := SendFrame(s, q);
    forall p | s.win.bottom <= p <= s.win.top && p != q ensures StateOf(r, p) == StateOf(s, p) {
      SlotInjective(|s.win.states|, s.win.bottom, p, q);
    }
    assert forall p :: s.win.bottom <= p <= s.win.top ==> WireOf(r, p) == WireOf(s, p);
    assert forall p :: s.win.bottom <= p <= s.win.top ==> LabelledWire(r, p) == LabelledWire(s, p);
    assert StateOf(r, q) == if StateOf(s, q) == Full then Sent else StateOf(s, q);
    assert forall p :: s.win.bottom <= p <= n ==> WireOf(r, p) == LabelledWire(r, p);
  }

  lemma {:induction false} FullWiresDependOnFrames(s: Sender, r: Sender, q: nat, n: nat)
    requires WellFormed(s) && OnlySends(s, r) && 1 <= q
    requires forall p :: q <= p <= n ==> StateOf(r, p) == StateOf(s, p)
    ensures FullWires(r, q, n) == FullWires(s, q, n)
    decreases n + 1 - q
  {
    if q <= n {
      FullWiresDependOnFrames(s, r, q + 1, n);
    }
  }

  lemma {:induction false} SendFromKeepsLoaded(s: Sender, q: nat, n: nat)
    requires Shape(s) && Loaded(s, n)
    requires s.win.bottom <= q <= s.win.top + 1 && s.win.topSent >= Min(q - 1, n)
    requires forall p :: s.win.bottom <= p < q && p <= n ==> StateOf(s, p) == Sent
    ensures var (r, out) := SendFrom(s, q);
            && OnlySends(s, r) && Shape(r) && Loaded(r, n)
            && r.win.topSent == n && AllSent(r)
            && out == FullWires(s, q, n)
    decreases s.win.top + 1 - q
  {
    hide DataWire, ChunkCount, Off, Chunk, Slot, SendFrame, StateOf, WireOf;
    if q <= s.win.top {
      SendFrameKeepsLoaded(s, q, n);
      var (t, out) := SendFrame(s, q);
      SendFromKeepsLoaded(t, q + 1, n);
      FullWiresDependOnFrames(s, t, q + 1, n);
    }
  }

  lemma NothingSkipped(s: Sender, n: nat)
    requires Shape(s) && Loaded(s, n)
    ensures s.win.bottom <= s.win.topSent + 1
  {
    hide StateOf, WireOf, ChunkCount, Off;
  }

  /** A pass over the window sends exactly the full frames, each under its own number, and leaves every
      frame that has been read sent. */
  lemma SendKeepsInv(s: Sender)
    requires Inv(s) && s.st == SSendWindow
    ensures var (r, out) := SendWindow(s);
            && Inv(r) && r.st == SWaitOnResponse
            && OnlySends(s.(st := SWaitOnResponse), r)
            && r.win.topSent == FilledTo(s)
            && out == FullWires(s, s.win.bottom, FilledTo(s))
  {
    hide DataWire, ChunkCount, Off, Chunk, Slot, FullWires, SendFrom, Loaded, AllSent;
    NothingSkipped(s, FilledTo(s));
    SendFromKeepsLoaded(s, s.win.bottom, FilledTo(s));
    var (t, out) := SendFrom(s, s.win.bottom);
    PhaseIsIrrelevant(t, SWaitOnResponse, FilledTo(s));
  }

  lemma {:induction false} FullWiresAreLabelled(s: Sender, q: nat, n: nat, w: Wire)
    requires WellFormed(s) && 1 <= q
    requires w in FullWires(s, q, n)
    ensures exists p :: q <= p <= n && w == LabelledWire(s, p)
    decreases n + 1 - q
  {
    if StateOf(s, q) == Full && w == LabelledWire(s, q) {
    } else {
      FullWiresAreLabelled(s, q + 1, n, w);
    }
  }

  // ---------- timeouts and responses ----------

  lemma TimeoutKeepsInv(s: Sender)
    requires Inv(s) && s.st == STimeoutOnResponse
    ensures var r := TimeoutOnResponse(s);
            && Inv(r)
            && (s.win.numWait < MAX_TRIES ==>
                  forall q :: s.win.bottom <= q <= s.win.topSent ==> StateOf(r, q) == Full)
  {
    hide DataWire, ChunkCount, Off, Chunk, Slot;
    var r := TimeoutOnResponse(s);
    if s.win.numWait < MAX_TRIES {
      forall q | s.win.bottom <= q <= s.win.top
        ensures StateOf(r, q) == if StateOf(s, q) == Sent then Full else StateOf(s, q)
      {
        RefillEffect(s.win.states, s.win.bottom, s.win.bottom, s.win.top, q);
      }
      assert forall q :: s.win.bottom <= q <= s.win.topSent ==> StateOf(s, q) == Sent;
      SameWiresStayLabelled(s, r, s.win.topSent);
      assert Loaded(r, s.win.topSent);
    } else {
      PhaseIsIrrelevant(s, SFinish, s.win.topSent);
    }
  }

  /** What a sender may be told without harm: acknowledgements of nothing it has not sent. */
  predicate HarmlessAck(s: Sender, p: Option<Packet>) {
    p.Some? && (p.value.flag == RR || p.value.flag == SREJ) ==> p.value.seq_ <= s.win.topSent + 1
  }

  lemma RespondKeepsInv(s: Sender, p: Option<Packet>)
    requires Inv(s) && s.st == SWaitOnResponse && HarmlessAck(s, p)
    ensures Inv(Respond(s, p))
  {
    hide DataWire, ChunkCount, Off, Chunk, Slot;
    var r := Respond(s, p);
    assert forall q :: StateOf(r, q) == StateOf(s, q);
    SameWiresStayLabelled(s, r, s.win.topSent);
  }

  /** A sender that is done has sent every chunk and knows that more than that is asked for. */
  lemma DoneMeansAllSent(s: Sender)
    requires Inv(s) && s.st == SDone
    ensures s.win.topSent == Total(s) && s.win.rr == s.win.topSent + 1
  {
    hide ChunkCount, Off, DataWire, Chunk, StateOf, WireOf, AllSent;
  }

  lemma PassKeepsInv(s: Sender)
    requires Inv(s)
    ensures Inv(Pass(s).0)
  {
    match s.st
    case SAdjustWindow => AdjustKeepsInv(s);
    case SFillWindow => FillKeepsInv(s);
    case SSendWindow => SendKeepsInv(s);
    case STimeoutOnResponse => TimeoutKeepsInv(s);
    case _ =>
  }

  lemma {:induction false} FillFromKeepsParameters(s: Sender, q: nat)
    requires WellFormed(s)
    ensures var r := FillFrom(s, q);
            && r.content == s.content && r.order == s.order && |r.win.states| == |s.win.states|
            && r.win == s.win.(states := r.win.states, eof := r.win.eof)
    decreases s.win.top + 1 - q
  {
    if q <= s.win.top {
      FillFromKeepsParameters(FillFrame(s, q), q + 1);
    }
  }

  lemma {:induction false} SendFromKeepsParameters(s: Sender, q: nat)
    requires WellFormed(s)
    ensures var r := SendFrom(s, q).0;
            && OnlySends(s, r)
            && s.win.topSent <= r.win.topSent
    decreases s.win.top + 1 - q
  {
    if q <= s.win.top {
      SendFromKeepsParameters(SendFrame(s, q).0, q + 1);
    }
  }

  /** Whatever state it is in, a pass keeps the file, the sizes and the acknowledgements, and never
      lowers the highest number sent; the window only ever moves to an acknowledged number. */
  lemma PassKeepsParameters(s: Sender)
    requires WellFormed(s)
    ensures var r := Pass(s).0;
            && r.content == s.content && r.order == s.order
            && |r.win.states| == |s.win.states| && r.win.buffsize == s.win.buffsize
            && r.win.rr == s.win.rr && r.win.srej == s.win.srej
            && s.win.topSent <= r.win.topSent
            && (r.win.bottom == s.win.bottom || r.win.bottom == s.win.rr || r.win.bottom == s.win.srej)
  {
    match s.st
    case SFillWindow => FillFromKeepsParameters(s, s.win.bottom);
    case SSendWindow => SendFromKeepsParameters(s, s.win.bottom);
    case _ =>
  }
}
