/** rcopy's `file_transfer`: what one pass through its state loop does, on values, and the much simpler
    automaton it behaves like. */
module Receiver {
  import opened Bytes
  import opened Codec
  import opened Chunks
  import opened Ring

  datatype CState =
    | CWaitOnData
    | CSendRR
    | CSendSREJ
    | CWriteData
    | CAdjustWindow
    | CTimeoutOnData
    | CDone
    | CFinish

  /** `buf` is the data area of the one receive buffer.  Filling a frame copies the packet structure and
      not the bytes, so all a filled frame `k` has of its own is the length `lens[k]`: its data are
      whatever `buf` holds when the frame is looked at.  `out` is the output file, `seq_` the socket's
      sequence number. */
  datatype Receiver = Receiver(
    st: CState,
    win: Win,
    lens: seq<nat>,
    buf: seq<byte>,
    out: seq<byte>,
    seq_: nat,
    order: Order)

  predicate WellFormed(r: Receiver) {
    && |r.win.states| > 0
    && |r.lens| == |r.win.states|
    && |r.buf| == r.win.buffsize
    && forall k :: 0 <= k < |r.lens| && r.win.states[k] != Empty ==> r.lens[k] <= |r.buf|
  }

  function Start(windowSize: u32, buf: seq<byte>, order: Order): (r: Receiver)
    requires windowSize > 0
    ensures WellFormed(r)
  {
    Receiver(CWaitOnData, WindowAlloc(0, windowSize, |buf|).(rr := 1), seq(windowSize, _ => 0), buf, [], 0, order)
  }

  function StateOf(r: Receiver, q: nat): FrameState
    requires WellFormed(r)
  {
    r.win.states[Slot(|r.win.states|, q)]
  }

  function LenOf(r: Receiver, q: nat): nat
    requires WellFormed(r)
  {
    r.lens[Slot(|r.win.states|, q)]
  }

  function ControlWire(order: Order, flag: byte, q: nat): (w: Wire)
    ensures |w| == HDR_LEN
  {
    Encode(order, Packet(flag, q % U32_LIMIT, []))
  }

  // ---------- the passes of the state loop ----------

  /** The buffer after shorter data have been received into it. */
  function Overlay(data: seq<byte>, buf: seq<byte>): (b: seq<byte>)
    requires |data| <= |buf|
    ensures |b| == |buf| && b[..|data|] == data
  {
    data + buf[|data|..]
  }

  /** `pkt_fill_frame`: a frame that was empty takes over the packet's length; any frame is full after. */
  function FillFrame(r: Receiver, q: nat, len: nat): (t: Receiver)
    requires WellFormed(r) && len <= |r.buf|
    ensures WellFormed(t) && |t.win.states| == |r.win.states|
  {
    var k := Slot(|r.win.states|, q);
    r.(lens := if r.win.states[k] == Empty then r.lens[k := len] else r.lens,
       win := r.win.(states := r.win.states[k := Full]))
  }

  /** What `wait_on_data` does with a packet whose data are in the buffer. */
  function HearPacket(r: Receiver, p: Packet): (t: Receiver)
    requires WellFormed(r) && |p.data| <= |r.buf|
    ensures WellFormed(t) && |t.win.states| == |r.win.states|
  {
    if p.flag == FILE_EOF then r.(seq_ := p.seq_, st := CDone)
    else if p.flag == DATA && p.seq_ < r.win.rr then r.(st := CSendRR)
    else if r.win.bottom <= p.seq_ <= r.win.top && p.flag == DATA then
      var f := FillFrame(r, p.seq_, |p.data|);
      if p.seq_ == r.win.rr then f.(win := f.win.(rr := (r.win.rr + 1) % U32_LIMIT), st := CSendRR)
      else f.(st := CSendSREJ)
    else r
  }

  /** One turn of the loop of `wait_on_data`, when `select` reports the datagram `w`. */
  function Hear(r: Receiver, w: Wire): (t: Receiver)
    requires WellFormed(r) && |w| >= HDR_LEN
    ensures WellFormed(t) && |t.win.states| == |r.win.states|
  {
    var v := Truncate(w, r.win.buffsize);
    var t := r.(buf := Overlay(v[HDR_LEN..], r.buf));
    match Receive(r.order, v)
    case None => t
    case Some(p) => HearPacket(t, p)
  }

  /** `write_frame`: a full frame's data are appended to the output file. */
  function WriteFrame(r: Receiver, q: nat): (t: Receiver)
    requires WellFormed(r)
    ensures WellFormed(t)
  {
    var k := Slot(|r.win.states|, q);
    if r.win.states[k] == Full then
      r.(out := r.out + r.buf[..r.lens[k]], win := r.win.(states := r.win.states[k := Written]))
    else r
  }

  function WriteFrom(r: Receiver, q: nat): (t: Receiver)
    requires WellFormed(r)
    ensures WellFormed(t)
    decreases r.win.top + 1 - q
  {
    if q <= r.win.top && q < Max(r.win.rr, r.win.srej) then WriteFrom(WriteFrame(r, q), q + 1) else r
  }

  function AdjustWindow(r: Receiver): (t: Receiver)
    requires WellFormed(r)
    ensures WellFormed(t) && |t.win.states| == |r.win.states|
  {
    EmptiedFramesWereThere(r.win.states, Max(r.win.rr, r.win.srej), r.win.bottom);
    r.(win := Slide(r.win), st := CWaitOnData)
  }

  lemma EmptiedFramesWereThere(states: seq<FrameState>, hi: nat, lo: nat)
    requires |states| > 0
    ensures forall k :: 0 <= k < |states| && EmptyDown(states, hi, lo)[k] != Empty ==> states[k] != Empty
  {
    forall k | 0 <= k < |states| && EmptyDown(states, hi, lo)[k] != Empty ensures states[k] != Empty {
      EmptyDownEffect(states, hi, lo, k);
    }
  }

  /** One pass of the state loop in a state that does not wait. */
  function Pass(r: Receiver): (t: (Receiver, seq<Wire>))
    requires WellFormed(r)
    ensures WellFormed(t.0)
  {
    match r.st
    case CSendRR => (r.(st := CWriteData), [ControlWire(r.order, RR, r.win.rr)])
    case CSendSREJ => (r.(win := r.win.(srej := r.win.rr), st := CWaitOnData), [ControlWire(r.order, SREJ, r.win.rr)])
    case CWriteData => (WriteFrom(r, r.win.bottom).(st := CAdjustWindow), [])
    case CAdjustWindow => (AdjustWindow(r), [])
    case CTimeoutOnData => (r.(st := CFinish), [])
    case _ => (r, [])
  }

  // ---------- the simple automaton ----------

  datatype Owed = Nothing | OwesRR | OwesSREJ

  /** All a go-back-n receiver would need: the next number it wants and what it has accepted. */
  datatype Simple = Simple(rr: nat, accepted: seq<byte>, owed: Owed, done: bool)

  function SimpleHear(s: Simple, p: Option<Packet>, size: nat): Simple {
    match p
    case None => s
    case Some(p) =>
      if p.flag == FILE_EOF then s.(done := true)
      else if p.flag != DATA || p.seq_ >= s.rr + size then s
      else if p.seq_ < s.rr then s.(owed := OwesRR)
      else if p.seq_ == s.rr then Simple(s.rr + 1, s.accepted + p.data, OwesRR, s.done)
      else s.(owed := OwesSREJ)
  }

  function SimpleReply(s: Simple, order: Order): (Simple, seq<Wire>) {
    match s.owed
    case Nothing => (s, [])
    case OwesRR => (s.(owed := Nothing), [ControlWire(order, RR, s.rr)])
    case OwesSREJ => (s.(owed := Nothing), [ControlWire(order, SREJ, s.rr)])
  }

  /** Accepted and acknowledged, or about to be, but not yet in the output file. */
  function Unwritten(r: Receiver): seq<byte>
    requires WellFormed(r)
  {
    if (r.st == CSendRR || r.st == CWriteData) && r.win.rr == r.win.bottom + 1 && StateOf(r, r.win.bottom) == Full
    then r.buf[..LenOf(r, r.win.bottom)] else []
  }

  function SimpleOf(r: Receiver): Simple
    requires WellFormed(r)
  {
    Simple(r.win.rr,
           r.out + Unwritten(r),
           match r.st case CSendRR => OwesRR case CSendSREJ => OwesSREJ case _ => Nothing,
           r.st == CDone)
  }

  /** The receiver's window.  A full frame has the length of the data that carry its number, and at most
      the frame at the bottom has been accepted; once written it leaves the window at the next slide. */
  ghost predicate Inv(r: Receiver, len: nat -> nat) {
    && WellFormed(r)
    && r.win.bottom >= 1
    && r.win.top == r.win.bottom + |r.win.states| - 1
    && r.win.srej <= r.win.bottom <= r.win.rr
    && r.win.rr + |r.win.states| <= U32_LIMIT
    && (forall q :: r.win.bottom < q <= r.win.top ==> StateOf(r, q) == Empty || StateOf(r, q) == Full)
    && (forall q :: r.win.bottom <= q <= r.win.top && StateOf(r, q) == Full ==> LenOf(r, q) == len(q))
    && match r.st
       case CSendRR => AtMostOneAccepted(r, Full)
       case CWriteData => AtMostOneAccepted(r, Full)
       case CAdjustWindow => AtMostOneAccepted(r, Written)
       case _ => r.win.rr == r.win.bottom && (StateOf(r, r.win.bottom) == Empty || StateOf(r, r.win.bottom) == Full)
  }

  ghost predicate AtMostOneAccepted(r: Receiver, st: FrameState)
    requires WellFormed(r)
  {
    || (r.win.rr == r.win.bottom && (StateOf(r, r.win.bottom) == Empty || StateOf(r, r.win.bottom) == Full))
    || (r.win.rr == r.win.bottom + 1 && StateOf(r, r.win.bottom) == st)
  }

  /** The data of packets numbered `q` are `len(q)` bytes long. */
  ghost predicate Consistent(p: Option<Packet>, len: nat -> nat) {
    p.Some? && p.value.flag == DATA ==> |p.value.data| == len(p.value.seq_)
  }

  /** A chunk that is wanted is not so high that the window after it ends beyond 32 bits. */
  predicate HasRoom(p: Option<Packet>, rr: nat, size: nat) {
    p.Some? && p.value.flag == DATA && p.value.seq_ == rr ==> rr + size < U32_LIMIT
  }

  function Heard(r: Receiver, w: Wire): Option<Packet>
    requires |w| >= HDR_LEN
  {
    Receive(r.order, Truncate(w, r.win.buffsize))
  }

  lemma StartInv(windowSize: u32, buf: seq<byte>, order: Order, len: nat -> nat)
    requires 0 < windowSize < U32_LIMIT
    ensures Inv(Start(windowSize, buf, order), len)
    ensures SimpleOf(Start(windowSize, buf, order)) == Simple(1, [], Nothing, false)
  {
  }

  lemma FillFrameEffect(r: Receiver, q: nat, n: nat, p: nat)
    requires WellFormed(r) && n <= |r.buf| && r.win.top == r.win.bottom + |r.win.states| - 1
    requires r.win.bottom <= q <= r.win.top && r.win.bottom <= p <= r.win.top
    ensures var t := FillFrame(r, q, n);
            && StateOf(t, p) == (if p == q then Full else StateOf(r, p))
            && LenOf(t, p) == if p == q && StateOf(r, q) == Empty then n else LenOf(r, p)
  {
    SlotInjective(|r.win.states|, r.win.bottom, p, q);
  }

  /** Hearing a datagram is one step of the simple automaton: whatever frames are buffered, and although
      they all share one buffer, the data accepted are the data just received. */
  lemma HearSimulates(r: Receiver, w: Wire, len: nat -> nat)
    requires Inv(r, len) && r.st == CWaitOnData && |w| >= HDR_LEN
    requires Consistent(Heard(r, w), len) && HasRoom(Heard(r, w), r.win.rr, |r.win.states|)
    ensures var t := Hear(r, w);
            && Inv(t, len)
            && SimpleOf(t) == SimpleHear(SimpleOf(r), Heard(r, w), |r.win.states|)
            && |t.win.states| == |r.win.states| && t.order == r.order && t.win.buffsize == r.win.buffsize
  {
    hide Receive, HearPacket;
    var v := Truncate(w, r.win.buffsize);
    var b := r.(buf := Overlay(v[HDR_LEN..], r.buf));
    BufferIsIrrelevant(r, b, len);
    if Heard(r, w).Some? {
      DataOfHeard(r, w);
      PacketSimulates(b, Heard(r, w).value, len);
    }
  }

  lemma BufferIsIrrelevant(r: Receiver, b: Receiver, len: nat -> nat)
    requires Inv(r, len) && r.st == CWaitOnData && b == r.(buf := b.buf) && |b.buf| == |r.buf|
    ensures Inv(b, len) && SimpleOf(b) == SimpleOf(r)
  {
    hide Slot;
    assert forall q :: StateOf(b, q) == StateOf(r, q) && LenOf(b, q) == LenOf(r, q);
  }

  /** The same for a packet whose data are in the buffer. */
  lemma PacketSimulates(b: Receiver, p: Packet, len: nat -> nat)
    requires Inv(b, len) && b.st == CWaitOnData
    requires |p.data| <= |b.buf| && b.buf[..|p.data|] == p.data && Consistent(Some(p), len)
    requires HasRoom(Some(p), b.win.rr, |b.win.states|)
    ensures var t := HearPacket(b, p);
            && Inv(t, len)
            && SimpleOf(t) == SimpleHear(SimpleOf(b), Some(p), |b.win.states|)
            && |t.win.states| == |b.win.states| && t.order == b.order && t.win.buffsize == b.win.buffsize
  {
    hide Slot, FillFrame;
    var t := HearPacket(b, p);
    if p.flag == DATA && b.win.bottom <= p.seq_ <= b.win.top {
      var f := FillFrame(b, p.seq_, |p.data|);
      FilledWindow(b, p.seq_, |p.data|);
      assert forall q :: StateOf(t, q) == StateOf(f, q) && LenOf(t, q) == LenOf(f, q);
      if p.seq_ == b.win.rr {
        assert LenOf(t, b.win.bottom) == |p.data|;
        assert Unwritten(t) == p.data;
      }
    } else {
      assert forall q :: StateOf(t, q) == StateOf(b, q) && LenOf(t, q) == LenOf(b, q);
    }
  }

  lemma FilledWindow(r: Receiver, p: nat, n: nat)
    requires WellFormed(r) && n <= |r.buf| && r.win.top == r.win.bottom + |r.win.states| - 1
    requires r.win.bottom <= p <= r.win.top
    ensures var f := FillFrame(r, p, n);
            && f == r.(lens := f.lens, win := r.win.(states := f.win.states))
            && (forall q :: r.win.bottom <= q <= r.win.top ==>
                  && StateOf(f, q) == (if q == p then Full else StateOf(r, q))
                  && LenOf(f, q) == if q == p && StateOf(r, p) == Empty then n else LenOf(r, q))
  {
    hide Slot, StateOf, LenOf;
    forall q | r.win.bottom <= q <= r.win.top
      ensures StateOf(FillFrame(r, p, n), q) == if q == p then Full else StateOf(r, q)
      ensures LenOf(FillFrame(r, p, n), q) == if q == p && StateOf(r, p) == Empty then n else LenOf(r, q)
    {
      FillFrameEffect(r, p, n, q);
    }
  }

  lemma DataOfHeard(r: Receiver, w: Wire)
    requires |w| >= HDR_LEN && Heard(r, w).Some?
    ensures Heard(r, w).value.data == Truncate(w, r.win.buffsize)[HDR_LEN..]
  {
  }

  /** The datagram `w` brings data numbered `q`, past the chunk wanted and inside the window. */
  predicate HearsEarly(r: Receiver, w: Wire, q: nat)
    requires |w| >= HDR_LEN
  {
    var p := Heard(r, w);
    p.Some? && p.value.flag == DATA && p.value.seq_ == q && r.win.rr < q <= r.win.top
  }

  /** A chunk that comes early is put in its frame and answered by SREJ: the frame is full, with the length of
      the data if it was empty and its old length if not, and nothing else of the window changes. */
  lemma EarlyChunkIsKept(r: Receiver, w: Wire, q: nat, len: nat -> nat)
    requires Inv(r, len) && r.st == CWaitOnData && |w| >= HDR_LEN && HearsEarly(r, w, q)
    ensures var t := Hear(r, w);
            && t.st == CSendSREJ && t.out == r.out
            && t.win == r.win.(states := t.win.states) && |t.win.states| == |r.win.states|
            && (forall p :: r.win.bottom <= p <= r.win.top ==>
                  && StateOf(t, p) == (if p == q then Full else StateOf(r, p))
                  && LenOf(t, p) == if p == q && StateOf(r, q) == Empty then |Heard(r, w).value.data| else LenOf(r, p))
  {
    hide Receive, Slot, FillFrame, StateOf, LenOf;
    DataOfHeard(r, w);
    var n := |Heard(r, w).value.data|;
    var b := r.(buf := Overlay(Truncate(w, r.win.buffsize)[HDR_LEN..], r.buf));
    FilledWindow(b, q, n);
    SameFrames(r, b);
    SameFrames(FillFrame(b, q, n), Hear(r, w));
  }

  lemma SameFrames(r: Receiver, t: Receiver)
    requires WellFormed(r) && WellFormed(t) && t.win.states == r.win.states && t.lens == r.lens
    ensures forall p :: StateOf(t, p) == StateOf(r, p) && LenOf(t, p) == LenOf(r, p)
  {
    hide Slot;
  }

  /** Past the chunk wanted, hearing a datagram fills the frame of an early chunk and no other. */
  lemma HearingFills(r: Receiver, w: Wire, q: nat, len: nat -> nat)
    requires Inv(r, len) && r.st == CWaitOnData && |w| >= HDR_LEN
    ensures var t := Hear(r, w);
            t.win.rr < q <= t.win.top && r.win.rr <= t.win.rr ==>
              (StateOf(t, q) == Full <==> StateOf(r, q) == Full || HearsEarly(r, w, q))
  {
    hide Receive, Slot, FillFrame, StateOf, LenOf;
    var t := Hear(r, w);
    var b := r.(buf := Overlay(Truncate(w, r.win.buffsize)[HDR_LEN..], r.buf));
    SameFrames(r, b);
    var p := Heard(r, w);
    if p.Some? {
      DataOfHeard(r, w);
      if p.value.flag == DATA && b.win.rr <= p.value.seq_ <= b.win.top {
        FilledWindow(b, p.value.seq_, |p.value.data|);
        SameFrames(FillFrame(b, p.value.seq_, |p.value.data|), t);
      } else {
        SameFrames(b, t);
      }
    } else {
      SameFrames(b, t);
    }
  }

  lemma HearingKeepsPlace(r: Receiver, w: Wire)
    requires WellFormed(r) && |w| >= HDR_LEN
    ensures Hear(r, w).win.bottom == r.win.bottom && Hear(r, w).win.top == r.win.top
  {
    hide Receive;
  }

  /** When the shallow copy is harmless, whatever the lengths: the bytes to be written for an accepted
      packet are its data exactly when its frame was empty or had been filled by data as long. */
  lemma AcceptedBytesIff(r: Receiver, w: Wire, len: nat -> nat)
    requires Inv(r, len) && r.st == CWaitOnData && |w| >= HDR_LEN
    requires Heard(r, w).Some? && Heard(r, w).value.flag == DATA && Heard(r, w).value.seq_ == r.win.rr < U32_MAX
    ensures Unwritten(Hear(r, w)) == Heard(r, w).value.data <==>
            StateOf(r, r.win.rr) == Empty || LenOf(r, r.win.rr) == |Heard(r, w).value.data|
  {
    hide Receive, Slot;
    DataOfHeard(r, w);
    var p := Heard(r, w).value;
    var b := r.(buf := Overlay(Truncate(w, r.win.buffsize)[HDR_LEN..], r.buf));
    FillFrameEffect(b, p.seq_, |p.data|, p.seq_);
    var t := Hear(r, w);
    assert StateOf(t, r.win.bottom) == Full;
    assert Unwritten(t) == t.buf[..LenOf(t, r.win.bottom)];
  }

  /** Every other pass leaves the simple automaton where it is, apart from sending the reply it owes. */
  lemma PassSimulates(r: Receiver, len: nat -> nat)
    requires Inv(r, len)
    ensures var (t, replies) := Pass(r);
            && Inv(t, len)
            && (SimpleOf(t), replies) == SimpleReply(SimpleOf(r), r.order)
            && |t.win.states| == |r.win.states| && t.order == r.order && t.win.buffsize == r.win.buffsize
  {
    hide ControlWire, Slot;
    var (t, replies) := Pass(r);
    match r.st
    case CWriteData => WriteSimulates(r, len);
    case CAdjustWindow => AdjustSimulates(r, len);
    case _ =>
      assert forall q :: StateOf(t, q) == StateOf(r, q) && LenOf(t, q) == LenOf(r, q);
  }

  lemma WriteSimulates(r: Receiver, len: nat -> nat)
    requires Inv(r, len) && r.st == CWriteData
    ensures Inv(Pass(r).0, len) && SimpleOf(Pass(r).0) == SimpleOf(r)
    ensures Pass(r).0.win == r.win.(states := Pass(r).0.win.states)
    ensures |Pass(r).0.win.states| == |r.win.states| && Pass(r).0.order == r.order
  {
    hide Slot;
    var b := r.win.bottom;
    if r.win.rr == b {
      assert WriteFrom(r, b) == r;
    } else {
      var t := WriteFrame(r, b);
      assert WriteFrom(t, b + 1) == t;
      forall q | b <= q <= r.win.top && q != b ensures StateOf(t, q) == StateOf(r, q) {
        SlotInjective(|r.win.states|, b, q, b);
      }
      assert StateOf(t, b) == Written;
    }
    var u := Pass(r).0;
    assert forall q :: StateOf(u, q) == StateOf(WriteFrom(r, b), q) && LenOf(u, q) == LenOf(r, q);
  }

  /** A write appends exactly what has been accepted and not written: the frame at the bottom of the window
      if it has just been accepted, and nothing after a duplicate. */
  lemma WriteAppendsOneFrame(r: Receiver, len: nat -> nat)
    requires Inv(r, len) && r.st == CWriteData
    ensures var t := Pass(r).0;
            && t.out == r.out + Unwritten(r)
            && (r.win.rr == r.win.bottom ==> t.out == r.out && t.win == r.win)
            && (r.win.rr > r.win.bottom ==>
                  && t.out == r.out + r.buf[..len(r.win.bottom)]
                  && StateOf(t, r.win.bottom) == Written
                  && forall q :: r.win.bottom < q <= r.win.top ==> StateOf(t, q) == StateOf(r, q))
  {
    hide Slot;
    WriteSimulates(r, len);
    var t := Pass(r).0;
    if r.win.rr > r.win.bottom {
      var b := r.win.bottom;
      assert WriteFrom(WriteFrame(r, b), b + 1) == WriteFrame(r, b);
      forall q | b < q <= r.win.top ensures StateOf(t, q) == StateOf(r, q) {
        SlotInjective(|r.win.states|, b, q, b);
      }
    }
    assert SimpleOf(t).accepted == t.out + [];
    if r.win.rr == r.win.bottom {
      assert Unwritten(r) == [];
      assert r.out + [] == r.out;
    }
  }

  /** When the window slides the accepted frame leaves it, and the frame that enters at the top is empty. */
  lemma EnteringFrameIsEmpty(r: Receiver, len: nat -> nat)
    requires Inv(r, len) && r.st == CAdjustWindow && r.win.rr > r.win.bottom
    ensures var t := AdjustWindow(r);
            && t.win.bottom == r.win.bottom + 1 && t.win.top == r.win.top + 1
            && StateOf(t, t.win.top) == Empty
            && forall q :: t.win.bottom <= q <= r.win.top ==> StateOf(t, q) == StateOf(r, q)
  {
    hide Slot;
    var t := AdjustWindow(r);
    forall q | t.win.bottom <= q <= t.win.top
      ensures StateOf(t, q) == if q <= r.win.top then StateOf(r, q) else Empty
    {
      SlideEffect(r.win, q);
    }
  }

  lemma AdjustSimulates(r: Receiver, len: nat -> nat)
    requires Inv(r, len) && r.st == CAdjustWindow
    ensures Inv(AdjustWindow(r), len) && SimpleOf(AdjustWindow(r)) == SimpleOf(r)
  {
    hide Slot;
    var t := AdjustWindow(r);
    forall q | t.win.bottom <= q <= t.win.top
      ensures StateOf(t, q) == if q <= r.win.top then StateOf(r, q) else Empty
    {
      SlideEffect(r.win, q);
    }
    assert forall q :: LenOf(t, q) == LenOf(r, q);
  }

  /** No other pass fills a frame or empties one past the chunk wanted; frames that enter are empty. */
  lemma PassFillsNothing(r: Receiver, q: nat, len: nat -> nat)
    requires Inv(r, len)
    ensures var t := Pass(r).0;
            && t.win.rr == r.win.rr && r.win.top <= t.win.top
            && (r.win.rr < q <= t.win.top ==> (StateOf(t, q) == Full <==> q <= r.win.top && StateOf(r, q) == Full))
  {
    hide ControlWire, Slot, StateOf, LenOf, WriteFrom, Slide;
    var t := Pass(r).0;
    if r.st == CWriteData {
      WriteSimulates(r, len);
    }
    if r.st == CAdjustWindow {
      SlidesFrames(r, q, len);
    }
    if r.win.rr < q <= t.win.top {
      match r.st
      case CWriteData => WriteFillsNothing(r, q, len);
      case CAdjustWindow =>
      case _ => SameFrames(r, t);
    }
  }

  lemma WriteFillsNothing(r: Receiver, q: nat, len: nat -> nat)
    requires Inv(r, len) && r.st == CWriteData && r.win.rr < q <= r.win.top
    ensures StateOf(Pass(r).0, q) == StateOf(r, q) && Pass(r).0.win == r.win.(states := Pass(r).0.win.states)
  {
    hide Slot;
    WriteSimulates(r, len);
    var b := r.win.bottom;
    if r.win.rr == b {
      assert WriteFrom(r, b) == r;
    } else {
      var t := WriteFrame(r, b);
      assert WriteFrom(t, b + 1) == t;
      SlotInjective(|r.win.states|, b, q, b);
    }
  }

  lemma SlidesFrames(r: Receiver, q: nat, len: nat -> nat)
    requires Inv(r, len) && r.st == CAdjustWindow
    ensures var t := AdjustWindow(r);
            && t.win.rr == r.win.rr && t.win.bottom == Max(r.win.rr, r.win.srej) && r.win.top <= t.win.top
            && (t.win.bottom <= q <= t.win.top ==> StateOf(t, q) == if q <= r.win.top then StateOf(r, q) else Empty)
  {
    hide Slot;
    var t := AdjustWindow(r);
    SlideFits(r.win);
    if t.win.bottom <= q <= t.win.top {
      SlideEffect(r.win, q);
    }
  }

  /** `srej` is the number last asked for by SREJ: sending one sets it, and nothing else changes it. */
  lemma SrejIsLastAsked(r: Receiver, w: Wire, len: nat -> nat)
    requires Inv(r, len) && |w| >= HDR_LEN
    ensures Pass(r).0.win.srej == if r.st == CSendSREJ then r.win.rr else r.win.srej
    ensures r.st == CSendSREJ ==> Pass(r).1 == [ControlWire(r.order, SREJ, r.win.rr)]
    ensures Hear(r, w).win.srej == r.win.srej
  {
    hide Receive, Slot, ControlWire, EmptyDown;
    if r.st == CWriteData {
      WriteSimulates(r, len);
    }
  }

  lemma GivingUpKeepsInv(r: Receiver, len: nat -> nat)
    requires Inv(r, len) && r.st == CWaitOnData
    ensures var t := r.(st := CTimeoutOnData); Inv(t, len) && SimpleOf(t) == SimpleOf(r)
  {
    var t := r.(st := CTimeoutOnData);
    assert forall q :: StateOf(t, q) == StateOf(r, q) && LenOf(t, q) == LenOf(r, q);
  }

  // ---------- the refinement ----------

  /** From hearing a datagram to waiting for the next: at most a reply, a write and a slide. */
  function Settle(r: Receiver): (t: (Receiver, seq<Wire>))
    requires WellFormed(r)
    ensures WellFormed(t.0)
  {
    var (a, x) := Pass(r);
    var (b, y) := Pass(a);
    var (c, z) := Pass(b);
    (c, x + y + z)
  }

  lemma SettleSimulates(r: Receiver, len: nat -> nat)
    requires Inv(r, len) && r.st in {CWaitOnData, CSendRR, CSendSREJ, CDone}
    ensures var (t, replies) := Settle(r);
            && Inv(t, len) && (t.st == CWaitOnData || t.st == CDone)
            && (SimpleOf(t), replies) == SimpleReply(SimpleOf(r), r.order)
            && t.out == SimpleOf(t).accepted
            && |t.win.states| == |r.win.states| && t.order == r.order && t.win.buffsize == r.win.buffsize
  {
    hide SimpleOf, ControlWire, WriteFrom, StateOf, LenOf;
    var (a, x) := Pass(r);
    var (b, y) := Pass(a);
    var (c, z) := Pass(b);
    PassSimulates(r, len);
    PassSimulates(a, len);
    PassSimulates(b, len);
    OwesByPhase(r);
    OwesByPhase(a);
    OwesByPhase(b);
    OwesByPhase(c);
    assert x + y + z == SimpleReply(SimpleOf(r), r.order).1;
  }

  lemma OwesByPhase(r: Receiver)
    requires WellFormed(r)
    ensures SimpleOf(r).owed == match r.st case CSendRR => OwesRR case CSendSREJ => OwesSREJ case _ => Nothing
    ensures r.st in {CWaitOnData, CDone} ==> r.out == SimpleOf(r).accepted
  {
  }

  /** The automaton on datagrams one after another, until FILE_EOF. */
  function SimpleListen(s: Simple, ws: seq<Wire>, order: Order, buffsize: nat, size: nat): (Simple, seq<Wire>)
    requires forall w :: w in ws ==> |w| >= HDR_LEN
    decreases ws
  {
    if ws == [] || s.done then (s, [])
    else
      var (t, out) := SimpleReply(SimpleHear(s, Receive(order, Truncate(ws[0], buffsize)), size), order);
      var (u, more) := SimpleListen(t, ws[1..], order, buffsize, size);
      (u, out + more)
  }

  // ---------- where the numbers end ----------

  /** From an accepted chunk to the next wait. */
  lemma SettledWindow(r: Receiver)
    requires WellFormed(r) && r.st == CSendRR && r.win.rr == r.win.bottom + 1 && r.win.srej <= r.win.bottom
    requires r.win.top >= r.win.bottom
    ensures var t := Settle(r).0;
            && t.st == CWaitOnData && t.win.rr == r.win.rr && t.win.bottom == r.win.rr
            && t.win.top == (r.win.rr + |r.win.states| - 1) % U32_LIMIT
            && |t.win.states| == |r.win.states| && t.order == r.order && t.win.buffsize == r.win.buffsize
  {
    hide ControlWire, Slot, EmptyDown;
    var b := r.win.bottom;
    var s := r.(st := CWriteData);
    assert WriteFrom(s, b) == WriteFrom(WriteFrame(s, b), b + 1) == WriteFrame(s, b);
  }

  /** After a wanted chunk numbered `q` the next one is accepted in its turn exactly if the window from `q` on
      fits 32 bits; at 2^32 - size the window's top wraps around and nothing is ever accepted again. */
  lemma AcceptsNextIff(r: Receiver, w: Wire, w': Wire, len: nat -> nat)
    requires Inv(r, len) && r.st == CWaitOnData && |w| >= HDR_LEN && |w'| >= HDR_LEN
    requires var p := Heard(r, w); p.Some? && p.value.flag == DATA && p.value.seq_ == r.win.rr < U32_MAX
    requires var p := Heard(r, w'); p.Some? && p.value.flag == DATA && p.value.seq_ == r.win.rr + 1
    ensures Hear(Settle(Hear(r, w)).0, w').st == CSendRR <==> r.win.rr + |r.win.states| < U32_LIMIT
    ensures r.win.rr + |r.win.states| == U32_LIMIT ==>
              var t := Settle(Hear(r, w)).0;
              t.win.top < t.win.bottom && Hear(t, w').win == t.win && Hear(t, w').st == CWaitOnData
  {
    hide Receive, Settle, Slot;
    var h := Hear(r, w);
    SettledWindow(h);
    var t := Settle(h).0;
    assert Heard(t, w') == Heard(r, w');
  }

  lemma DoneByPhase(r: Receiver)
    requires WellFormed(r)
    ensures SimpleOf(r).done <==> r.st == CDone
  {
  }

  /** The transfer ends only with FILE_EOF, whose number is kept. */
  lemma DoneTakesNumber(r: Receiver, w: Wire)
    requires WellFormed(r) && |w| >= HDR_LEN && r.st == CWaitOnData
    ensures Hear(r, w).st == CDone ==>
              Heard(r, w).Some? && Heard(r, w).value.flag == FILE_EOF && Hear(r, w).seq_ == Heard(r, w).value.seq_
  {
    hide Receive;
  }

  /** RR is owed only for data, and asks for a number past theirs. */
  lemma AnswersToData(r: Receiver, w: Wire)
    requires WellFormed(r) && |w| >= HDR_LEN && r.st == CWaitOnData
    ensures Hear(r, w).st == CSendRR && r.win.rr < U32_MAX ==>
              Heard(r, w).Some? && Heard(r, w).value.flag == DATA && Heard(r, w).value.seq_ < Hear(r, w).win.rr
  {
    hide Receive;
  }

  lemma HeardPhases(r: Receiver, w: Wire)
    requires WellFormed(r) && |w| >= HDR_LEN && r.st == CWaitOnData
    ensures Hear(r, w).st in {CWaitOnData, CSendRR, CSendSREJ, CDone}
  {
  }
}
