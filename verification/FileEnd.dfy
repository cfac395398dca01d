/** Whether the last acknowledgement ends the transfer.

The server finds the end of the file by a read that comes out short.  If its window ends exactly where the file
does, no read has been short when everything is acknowledged, and the acknowledgement is not enough. */
module FileEnd {
  import opened Bytes
  import opened Codec
  import opened Chunks
  import opened Ring
  import opened Sender
  import opened SenderLoop
  import Resend

  /** Acknowledges all that has been sent. */
  predicate IsLastAck(s: Sender, p: Packet) {
    p.flag == RR && p.seq_ == s.win.topSent + 1
  }

  /** A server that hears that all it has sent is accepted is done exactly if its window reaches past the end
      of the file. */
  lemma LastAckEndsIff(s: Sender, p: Packet)
    requires Inv(s) && s.st == SWaitOnResponse && IsLastAck(s, p)
    ensures var t := AdjustWindow(Respond(s, Some(p)));
            && (t.st == SDone <==> s.win.top * s.win.buffsize > |s.content|)
            && (t.st != SDone ==> t.st == SFillWindow && t.win.bottom == s.win.topSent + 1)
  {
    hide DataWire, StateOf, WireOf, Chunk, Off, ChunkCount, EmptyDown;
    EndReachedBounds(s, s.win.top, 0);
  }

  /** All has been sent and acknowledged and has left the window, and the last answer is past. */
  ghost predicate NothingLeft(s: Sender) {
    && WellFormed(s) && Inv(s)
    && s.win.bottom == s.win.topSent + 1 && s.win.topSent == Total(s)
    && s.st in {SFillWindow, SSendWindow, SWaitOnResponse, STimeoutOnResponse, SFinish}
  }

  lemma NothingLeftPass(s: Sender)
    requires NothingLeft(s)
    ensures NothingLeft(Pass(s).0) && Pass(s).1 == []
  {
    hide DataWire, LabelledWire, ChunkCount, Off, Chunk, Slot, FullWires, SendFrom, FillFrom, Loaded, AllSent, AllFull;
    hide EndIsKnown, RefillFrom;
    PassKeepsInv(s);
    PassKeepsParameters(s);
    match s.st
    case SFillWindow => FillFromKeepsParameters(s, s.win.bottom);
    case SSendWindow =>
      SendKeepsInv(s);
      NoFullWires(s, s.win.bottom, FilledTo(s));
    case _ =>
  }

  lemma NoFullWires(s: Sender, q: nat, n: nat)
    requires WellFormed(s) && q >= 1 && q > n
    ensures FullWires(s, q, n) == []
  {
  }

  lemma SilenceKeepsNothingLeft(s: Sender)
    requires NothingLeft(s) && s.st == SWaitOnResponse
    ensures NothingLeft(Wait(s, Silence)) && !Ended(Wait(s, Silence))
  {
    hide ChunkCount, Off, DataWire, Chunk, Slot;
    PhaseIsIrrelevant(s, STimeoutOnResponse, s.win.topSent);
  }

  /** From there on a server that hears nothing sends nothing. */
  lemma {:induction false} SilenceSendsNothing(s: Sender)
    requires NothingLeft(s)
    ensures FileTransfer(s, []).1 == []
    decreases if Ended(s) then 0 else 1, TriesLeft(s), Rank(s.st)
  {
    hide Inv, Pass, Total;
    if !Ended(s) {
      OneTurn(s, []);
      if s.st == SWaitOnResponse {
        SilenceKeepsNothingLeft(s);
        SilenceSendsNothing(Wait(s, Silence));
      } else {
        PassMakesProgress(s);
        NothingLeftPass(s);
        SilenceSendsNothing(Pass(s).0);
      }
    }
  }

  /** The last acknowledgement, and then silence: the server is done if its window reaches past the end of the
      file; if not, it gives up, without having sent anything more if all chunks were sent. */
  lemma LastAckThenSilence(s: Sender, p: Packet)
    requires Inv(s) && s.st == SWaitOnResponse && IsLastAck(s, p)
    ensures var (t, out, _) := FileTransfer(Respond(s, Some(p)), []);
            && t.st == (if s.win.top * s.win.buffsize > |s.content| then SDone else SFinish)
            && (s.win.topSent == Total(s) ==> out == [])
  {
    hide Inv, Total, FileTransfer, Pass, AdjustWindow;
    LastAckEndsIff(s, p);
    var r := Respond(s, Some(p));
    OneTurn(r, []);
    LastAckIsAdjusted(s, p);
    var t := AdjustWindow(r);
    if t.st == SDone {
      NoTurn(t, []);
    } else {
      SilenceUsesAllCredit(r);
      if s.win.topSent == Total(s) {
        SilenceSendsNothing(t);
      }
    }
  }

  lemma LastAckIsAdjusted(s: Sender, p: Packet)
    requires Inv(s) && s.st == SWaitOnResponse && IsLastAck(s, p)
    ensures var r := Respond(s, Some(p));
            && r.st == SAdjustWindow && Pass(r) == (AdjustWindow(r), [])
            && Inv(AdjustWindow(r)) && AdjustWindow(r).win.topSent == s.win.topSent
            && AdjustWindow(r).win.top < U32_MAX
            && s.win.buffsize > 0 && AdjustWindow(r).win.buffsize > 0 && Total(AdjustWindow(r)) == Total(s)
  {
    hide DataWire, ChunkCount, Off, Chunk, Slot, EmptyDown, Loaded, AllSent, EndIsKnown;
    RespondKeepsInv(s, Some(p));
    AdjustKeepsInv(Respond(s, Some(p)));
    InvFits(AdjustWindow(Respond(s, Some(p))));
  }

  lemma InvFits(s: Sender)
    requires Inv(s)
    ensures s.win.top < U32_MAX
  {
    hide DataWire, StateOf, WireOf, Chunk, Off, ChunkCount;
  }

  /** A server with nothing left to send that has been told so is done once it hears any RR or SREJ at all, and
      on nothing else. */
  lemma AnyAnswerFinishesIff(s: Sender, p: Option<Packet>)
    requires NothingLeft(s) && s.st == SWaitOnResponse && s.win.rr == s.win.topSent + 1
    ensures p.Some? && (p.value.flag == RR || p.value.flag == SREJ) <==>
            Respond(s, p).st == SAdjustWindow && AdjustWindow(Respond(s, p)).st == SDone
  {
    hide DataWire, StateOf, WireOf, Chunk, Off, ChunkCount, EmptyDown;
    EndReachedBounds(s, s.win.top, 0);
  }

  predicate AllSilent(tail: seq<Arrival>) {
    forall i :: 0 <= i < |tail| ==> tail[i] == Silence
  }

  /** Silences after the last arrival make no difference. */
  lemma {:induction false} SilentTail(s: Sender, tail: seq<Arrival>)
    requires WellFormed(s) && Framed(tail) && AllSilent(tail)
    ensures FileTransfer(s, tail) == FileTransfer(s, [])
    decreases if Over(s) then 0 else 1, |tail|, TriesLeft(s), Rank(s.st)
  {
    hide Pass;
    if Over(s) {
      NoTurn(s, tail);
      NoTurn(s, []);
    } else {
      OneTurn(s, tail);
      OneTurn(s, []);
      if s.st == SWaitOnResponse {
        if tail != [] {
          SilentTail(Wait(s, Silence), tail[1..]);
        }
      } else {
        PassMakesProgress(s);
        SilentTail(Pass(s).0, tail);
      }
    }
  }

  lemma FullChunks(size: nat, k: nat)
    requires size > 0
    ensures ChunkCount(size, k * size) == k
  {
    OffAtCount(size, k * size, k);
    if k > 0 {
      OffAtCount(size, k * size, k - 1);
      assert (k - 1) * size == k * size - size;
    }
  }

  /** A file of exactly one window, of whose acknowledgements only the last is heard: the transfer is given up,
      although every chunk has been sent and acknowledged.  With a window of one frame, as in
      `Start(1, 1, [7], order)`, that is the only acknowledgement there is. */
  lemma ExactWindowIsGivenUp(windowSize: u32, buffsize: nat, content: seq<byte>, order: Order, peer: Order)
    requires windowSize > 0 && buffsize > 0 && |content| == windowSize * buffsize
    requires 2 * windowSize < U32_MAX
    ensures var s := Start(windowSize, buffsize, content, order);
            var ack := Encode(peer, Packet(RR, windowSize + 1, []));
            var (t, out, _) := FileTransfer(s, [Came(ack)]);
            && t.st == SFinish
            && out == Resend.ChunkWires(s, 1, windowSize)
  {
    hide DataWire, ChunkCount, Off, Chunk, Slot, Loaded, AllSent, AllFull, FileTransfer, FillFrom, SendFrom, Encode;
    hide Receive, FullWires, Resend.ChunkWires, LabelledWire;
    var s := Start(windowSize, buffsize, content, order);
    var p := Packet(RR, windowSize + 1, []);
    var arrivals := [Came(Encode(peer, p))];
    FullChunks(buffsize, windowSize);
    StartInv(windowSize, buffsize, content, order);
    FillKeepsInv(s);
    FillFromKeepsParameters(s, s.win.bottom);
    OneTurn(s, arrivals);
    var f := FillWindow(s);
    SendKeepsInv(f);
    Resend.PassSendsExactly(f);
    OneTurn(f, arrivals);
    var (w, out) := SendWindow(f);
    Resend.SameFileSameWires(s, f, 1, windowSize);
    OneTurn(w, arrivals);
    RoundTrip(peer, order, p);
    assert Truncate(arrivals[0].w, buffsize) == arrivals[0].w;
    hide Inv;
    assert Rest(arrivals) == [];
    assert Wait(w, arrivals[0]) == Respond(w, Some(p));
    LastAckThenSilence(w, p);
    assert out + [] == out && [] + out == out;
  }
}
