/** rcopy's `file_transfer` run to its end. */
module ReceiverLoop {
  import opened Bytes
  import opened Codec
  import opened Chunks
  import opened Ring
  import opened R = Receiver

  predicate Ended(r: Receiver) {
    r.st == CDone || r.st == CFinish
  }

  function Rank(st: CState): nat {
    match st
    case CSendRR => 5
    case CWriteData => 4
    case CAdjustWindow => 3
    case CSendSREJ => 3
    case CWaitOnData => 2
    case CTimeoutOnData => 1
    case _ => 0
  }

  /** `wait_on_data`: listens until something calls for an answer, or nothing comes in time. */
  function WaitOnData(r: Receiver, arrivals: seq<Arrival>): (t: (Receiver, seq<Arrival>))
    requires WellFormed(r) && Framed(arrivals) && r.st == CWaitOnData
    ensures WellFormed(t.0) && Framed(t.1)
    ensures |t.1| < |arrivals| || (t.1 == [] && t.0.st == CTimeoutOnData)
    decreases arrivals
  {
    if arrivals == [] then (r.(st := CTimeoutOnData), [])
    else if arrivals[0] == Silence then (r.(st := CTimeoutOnData), arrivals[1..])
    else
      var t := Hear(r, arrivals[0].w);
      if t.st == CWaitOnData then WaitOnData(t, arrivals[1..]) else (t, arrivals[1..])
  }

  lemma PassMakesProgress(r: Receiver)
    requires WellFormed(r) && !Ended(r) && r.st != CWaitOnData
    ensures Rank(Pass(r).0.st) < Rank(r.st)
  {
  }

  lemma TurnProgresses(r: Receiver, arrivals: seq<Arrival>)
    requires WellFormed(r) && Framed(arrivals) && !Ended(r)
    ensures if r.st == CWaitOnData then
              var (t, rest) := WaitOnData(r, arrivals);
              |rest| < |arrivals| || (|rest| == |arrivals| && Rank(t.st) < Rank(r.st))
            else Rank(Pass(r).0.st) < Rank(r.st)
  {
    hide Hear, Pass;
    if r.st != CWaitOnData {
      PassMakesProgress(r);
    }
  }

  /** The state loop: the final state and the datagrams sent. */
  function FileTransfer(r: Receiver, arrivals: seq<Arrival>): (t: (Receiver, seq<Wire>))
    requires WellFormed(r) && Framed(arrivals)
    ensures WellFormed(t.0) && Ended(t.0)
    decreases |arrivals|, Rank(r.st)
  {
    if Ended(r) then (r, [])
    else if r.st == CWaitOnData then
      var (t, rest) := WaitOnData(r, arrivals);
      FileTransfer(t, rest)
    else
      PassMakesProgress(r);
      var (t, out) := Pass(r);
      var (u, more) := FileTransfer(t, arrivals);
      (u, out + more)
  }

  /** After `out` has been sent, the loop goes on from `r` to end in `last` with `all` sent. */
  ghost predicate Leaves(last: Receiver, all: seq<Wire>, out: seq<Wire>, r: Receiver, arrivals: seq<Arrival>)
    requires WellFormed(r) && Framed(arrivals)
  {
    var (u, more) := FileTransfer(r, arrivals);
    u == last && all == out + more
  }

  lemma NothingSentYet(r: Receiver, arrivals: seq<Arrival>)
    requires WellFormed(r) && Framed(arrivals)
    ensures var (u, all) := FileTransfer(r, arrivals); Leaves(u, all, [], r, arrivals)
  {
    hide FileTransfer;
  }

  lemma NoTurn(r: Receiver, arrivals: seq<Arrival>)
    requires WellFormed(r) && Framed(arrivals) && Ended(r)
    ensures FileTransfer(r, arrivals) == (r, [])
  {
  }

  /** One pass of the loop, which may be none when it waits or has ended. */
  lemma PassFirst(r: Receiver, arrivals: seq<Arrival>)
    requires WellFormed(r) && Framed(arrivals)
    ensures var (t, out) := Pass(r);
            var (u, more) := FileTransfer(t, arrivals);
            FileTransfer(r, arrivals) == (u, out + more)
  {
    hide ControlWire, WriteFrom, AdjustWindow, WaitOnData;
    var (t, out) := Pass(r);
    if Ended(r) || r.st == CWaitOnData {
      assert t == r && out == [];
      assert out + FileTransfer(r, arrivals).1 == FileTransfer(r, arrivals).1;
    }
  }

  lemma TurnLeaves(last: Receiver, all: seq<Wire>, out: seq<Wire>, r: Receiver, arrivals: seq<Arrival>)
    requires WellFormed(r) && Framed(arrivals) && !Ended(r) && Leaves(last, all, out, r, arrivals)
    ensures if r.st == CWaitOnData then
              var (t, rest) := WaitOnData(r, arrivals); Leaves(last, all, out, t, rest)
            else Leaves(last, all, out + Pass(r).1, Pass(r).0, arrivals)
  {
    hide Pass, WaitOnData;
    if r.st != CWaitOnData {
      PassFirst(r, arrivals);
      hide FileTransfer;
      var (t, now) := Pass(r);
      assert out + (now + FileTransfer(t, arrivals).1) == out + now + FileTransfer(t, arrivals).1;
    }
  }

  /** What the loop does with the first arrival when it waits. */
  lemma HeardFirst(r: Receiver, arrivals: seq<Arrival>)
    requires WellFormed(r) && Framed(arrivals) && r.st == CWaitOnData
    ensures match First(arrivals)
            case Silence => FileTransfer(r, arrivals) == (r.(st := CFinish), [])
            case Came(w) => FileTransfer(r, arrivals) == FileTransfer(Hear(r, w), Rest(arrivals))
  {
    hide Hear;
    if First(arrivals) == Silence {
      var t := r.(st := CTimeoutOnData);
      PassFirst(t, WaitOnData(r, arrivals).1);
      NoTurn(r.(st := CFinish), WaitOnData(r, arrivals).1);
    }
  }

  // ---------- the refinement ----------

  /** The datagrams that come before nothing comes in time. */
  function BeforeSilence(arrivals: seq<Arrival>): (ws: seq<Wire>)
    requires Framed(arrivals)
    ensures forall w :: w in ws ==> |w| >= HDR_LEN
    decreases arrivals
  {
    if arrivals == [] || arrivals[0] == Silence then [] else [arrivals[0].w] + BeforeSilence(arrivals[1..])
  }

  ghost predicate AllConsistent(arrivals: seq<Arrival>, order: Order, buffsize: nat, len: nat -> nat)
    requires Framed(arrivals)
  {
    forall a :: a in arrivals && a.Came? ==> Consistent(Receive(order, Truncate(a.w, buffsize)), len)
  }

  /** No good data are numbered 2^32 - size, after which a window of `size` frames has no room in 32 bits. */
  ghost predicate NoneIsLast(arrivals: seq<Arrival>, order: Order, buffsize: nat, size: nat)
    requires Framed(arrivals)
  {
    forall a :: a in arrivals && IsData(a, order, buffsize) ==>
      Receive(order, Truncate(a.w, buffsize)).value.seq_ + size != U32_LIMIT
  }

  /** The loop, with its window, its buffered frames and its one shared buffer, sends the replies, writes the
      bytes and ends the way of the simple automaton, on any arrivals, damaged or not, in which data of one
      number always have one length and none are numbered 2^32 - size. */
  lemma {:induction false} ReceiverIsSimple(r: Receiver, arrivals: seq<Arrival>, len: nat -> nat)
    requires Inv(r, len) && (r.st == CWaitOnData || r.st == CDone)
    requires Framed(arrivals) && AllConsistent(arrivals, r.order, r.win.buffsize, len)
    requires NoneIsLast(arrivals, r.order, r.win.buffsize, |r.win.states|)
    ensures var (t, replies) := FileTransfer(r, arrivals);
            var (s, answers) :=
              SimpleListen(SimpleOf(r), BeforeSilence(arrivals), r.order, r.win.buffsize, |r.win.states|);
            && replies == answers
            && t.out == s.accepted && t.win.rr == s.rr
            && t.st == if s.done then CDone else CFinish
    decreases arrivals
  {
    hide FileTransfer, Settle, Receive, Hear, SimpleHear, SimpleReply, ControlWire, Pass, AllConsistent, NoneIsLast;
    OwesByPhase(r);
    DoneByPhase(r);
    if r.st == CDone {
      NoTurn(r, arrivals);
    } else {
      HeardFirst(r, arrivals);
      if First(arrivals).Came? {
        OneAnswer(r, arrivals, len);
        ReceiverIsSimple(Settle(Hear(r, arrivals[0].w)).0, arrivals[1..], len);
        assert BeforeSilence(arrivals)[0] == arrivals[0].w && BeforeSilence(arrivals)[1..] == BeforeSilence(arrivals[1..]);
      }
    }
  }

  /** One datagram heard and answered. */
  lemma OneAnswer(r: Receiver, arrivals: seq<Arrival>, len: nat -> nat)
    requires Inv(r, len) && r.st == CWaitOnData
    requires Framed(arrivals) && AllConsistent(arrivals, r.order, r.win.buffsize, len)
    requires NoneIsLast(arrivals, r.order, r.win.buffsize, |r.win.states|)
    requires arrivals != [] && arrivals[0].Came?
    ensures var (t, out) := Settle(Hear(r, arrivals[0].w));
            var (u, more) := FileTransfer(t, arrivals[1..]);
            && FileTransfer(r, arrivals) == (u, out + more)
            && Inv(t, len) && (t.st == CWaitOnData || t.st == CDone)
            && |t.win.states| == |r.win.states| && t.order == r.order && t.win.buffsize == r.win.buffsize
            && AllConsistent(arrivals[1..], r.order, r.win.buffsize, len)
            && NoneIsLast(arrivals[1..], r.order, r.win.buffsize, |r.win.states|)
            && (SimpleOf(t), out) ==
               SimpleReply(SimpleHear(SimpleOf(r), Receive(r.order, Truncate(arrivals[0].w, r.win.buffsize)),
                                      |r.win.states|), r.order)
  {
    assert WellFormed(r) && r.win.rr + |r.win.states| <= U32_LIMIT;
    hide Inv, SimpleOf, ControlWire, Hear, Receive, SimpleHear, SimpleReply, FileTransfer, Pass;
    var w := arrivals[0].w;
    HeardFirst(r, arrivals);
    assert Consistent(Heard(r, w), len);
    assert IsData(arrivals[0], r.order, r.win.buffsize) ==> Heard(r, w).value.seq_ + |r.win.states| != U32_LIMIT;
    assert HasRoom(Heard(r, w), r.win.rr, |r.win.states|);
    HearSimulates(r, w, len);
    HeardPhases(r, w);
    var h := Hear(r, w);
    SettleSimulates(h, len);
    SettlesFirst(h, arrivals[1..]);
  }

  lemma SettlesFirst(r: Receiver, arrivals: seq<Arrival>)
    requires WellFormed(r) && Framed(arrivals)
    ensures var (t, out) := Settle(r);
            var (u, more) := FileTransfer(t, arrivals);
            FileTransfer(r, arrivals) == (u, out + more)
  {
    hide Pass, FileTransfer;
    var (a, x) := Pass(r);
    var (b, y) := Pass(a);
    var (d, z) := Pass(b);
    PassFirst(r, arrivals);
    PassFirst(a, arrivals);
    PassFirst(b, arrivals);
    assert x + (y + (z + FileTransfer(d, arrivals).1)) == x + y + z + FileTransfer(d, arrivals).1;
  }

  /** Good data packets of one number have one length. */
  ghost predicate OneLengthEach(arrivals: seq<Arrival>, order: Order, buffsize: nat)
    requires Framed(arrivals)
  {
    forall a, b :: a in arrivals && b in arrivals && IsData(a, order, buffsize) && IsData(b, order, buffsize) ==>
      var p, q := Receive(order, Truncate(a.w, buffsize)).value, Receive(order, Truncate(b.w, buffsize)).value;
      p.seq_ == q.seq_ ==> |p.data| == |q.data|
  }

  predicate IsData(a: Arrival, order: Order, buffsize: nat) {
    && a.Came? && |a.w| >= HDR_LEN
    && var p := Receive(order, Truncate(a.w, buffsize)); p.Some? && p.value.flag == DATA
  }

  /** The length of the first data that arrive under the number `q`. */
  function LengthOf(arrivals: seq<Arrival>, order: Order, buffsize: nat, q: nat): nat {
    if arrivals == [] then 0
    else if IsData(arrivals[0], order, buffsize)
            && Receive(order, Truncate(arrivals[0].w, buffsize)).value.seq_ == q then
      |Receive(order, Truncate(arrivals[0].w, buffsize)).value.data|
    else LengthOf(arrivals[1..], order, buffsize, q)
  }

  lemma {:induction false} LengthOfEach(arrivals: seq<Arrival>, order: Order, buffsize: nat, a: Arrival)
    requires Framed(arrivals) && OneLengthEach(arrivals, order, buffsize)
    requires a in arrivals && IsData(a, order, buffsize)
    ensures var p := Receive(order, Truncate(a.w, buffsize)).value;
            LengthOf(arrivals, order, buffsize, p.seq_) == |p.data|
    decreases arrivals
  {
    hide Receive;
    var p := Receive(order, Truncate(a.w, buffsize)).value;
    if !(IsData(arrivals[0], order, buffsize)
         && Receive(order, Truncate(arrivals[0].w, buffsize)).value.seq_ == p.seq_) {
      LengthOfEach(arrivals[1..], order, buffsize, a);
    }
  }

  /** What rcopy's transfer does is what the simple automaton does, from its start on. */
  ghost predicate ActsSimply(size: nat, buffsize: nat, order: Order, arrivals: seq<Arrival>,
                             st: CState, replies: seq<Wire>, out: seq<byte>)
    requires Framed(arrivals)
  {
    var (s, answers) :=
      SimpleListen(Simple(1, [], Nothing, false), BeforeSilence(arrivals), order, buffsize, size);
    replies == answers && out == s.accepted && st == if s.done then CDone else CFinish
  }

  lemma TransferActsSimply(windowSize: u32, buf: seq<byte>, order: Order, arrivals: seq<Arrival>)
    requires windowSize > 0 && Framed(arrivals) && OneLengthEach(arrivals, order, |buf|)
    requires NoneIsLast(arrivals, order, |buf|, windowSize)
    ensures var (t, replies) := FileTransfer(Start(windowSize, buf, order), arrivals);
            ActsSimply(windowSize, |buf|, order, arrivals, t.st, replies, t.out)
  {
    hide Receive, FileTransfer, SimpleListen, Inv, SimpleOf;
    var len: nat -> nat := (q: nat) => LengthOf(arrivals, order, |buf|, q);
    forall a | a in arrivals && a.Came? ensures Consistent(Receive(order, Truncate(a.w, |buf|)), len) {
      if IsData(a, order, |buf|) {
        LengthOfEach(arrivals, order, |buf|, a);
      }
    }
    R.StartInv(windowSize, buf, order, len);
    ReceiverIsSimple(Start(windowSize, buf, order), arrivals, len);
  }

  // ---------- 32 bits are enough for modest sequence numbers ----------

  /** No chunk that arrives has a number the window cannot slide past without wrapping around. */
  ghost predicate Tame(arrivals: seq<Arrival>, order: Order, buffsize: nat, size: nat)
    requires Framed(arrivals)
  {
    forall a :: a in arrivals && a.Came? ==>
      var p := Receive(order, Truncate(a.w, buffsize));
      p.Some? && p.value.flag == DATA ==> p.value.seq_ + 1 + size < U32_LIMIT
  }

  lemma TameIsNotLast(arrivals: seq<Arrival>, order: Order, buffsize: nat, size: nat)
    requires Framed(arrivals) && Tame(arrivals, order, buffsize, size)
    ensures NoneIsLast(arrivals, order, buffsize, size)
  {
    hide Receive;
  }

  lemma {:induction false} WriteFromKeepsWindow(r: Receiver, q: nat)
    requires WellFormed(r)
    ensures var t := WriteFrom(r, q);
            && t == r.(win := r.win.(states := t.win.states), out := t.out)
            && |t.win.states| == |r.win.states|
    decreases r.win.top + 1 - q
  {
    if q <= r.win.top && q < Max(r.win.rr, r.win.srej) {
      WriteFromKeepsWindow(WriteFrame(r, q), q + 1);
    }
  }

  /** Neither listening nor a pass changes the sizes, or takes the window's bottom to zero. */
  lemma PassKeepsBottom(r: Receiver)
    requires WellFormed(r) && r.win.bottom >= 1
    ensures Pass(r).0.win.bottom >= 1
  {
    hide WriteFrom, EmptyDown, ControlWire, Slot;
    WriteFromKeepsWindow(r, r.win.bottom);
  }
}
