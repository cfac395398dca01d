/** What the sender sends again, and when.

The repository calls its protocol selective reject.  In the code an SREJ selects nothing: it moves the window
as an RR does, and nothing that was sent goes out again before a timeout, after which everything does. */
module Resend {
  import opened Bytes
  import opened Codec
  import opened Chunks
  import opened Ring
  import opened Sender

  /** The chunks `q` to `n` in order, each once and under its own number. */
  function ChunkWires(s: Sender, q: nat, n: nat): seq<Wire>
    requires q >= 1
    decreases n + 1 - q
  {
    if q > n then [] else [LabelledWire(s, q)] + ChunkWires(s, q + 1, n)
  }

  lemma {:induction false} SameFileSameWires(s: Sender, r: Sender, q: nat, n: nat)
    requires q >= 1
    requires r.content == s.content && r.order == s.order && r.win.buffsize == s.win.buffsize
    ensures ChunkWires(r, q, n) == ChunkWires(s, q, n)
    decreases n + 1 - q
  {
    if q <= n {
      SameFileSameWires(s, r, q + 1, n);
    }
  }

  /** Of frames that are sent up to `m` and full from there on, the full ones are those past `m`. */
  lemma {:induction false} FullWiresArePast(s: Sender, q: nat, m: nat, n: nat)
    requires WellFormed(s) && 1 <= q <= m + 1
    requires forall p :: q <= p <= m && p <= n ==> StateOf(s, p) != Full
    requires forall p :: m < p <= n ==> StateOf(s, p) == Full
    ensures FullWires(s, q, n) == ChunkWires(s, m + 1, n)
    decreases n + 1 - q
  {
    hide StateOf, LabelledWire;
    if q <= n {
      if q <= m {
        FullWiresArePast(s, q + 1, m, n);
      } else {
        FullWiresArePast(s, q + 1, q, n);
      }
    }
  }

  /** The number a pass over the window starts sending at. */
  function FirstToSend(s: Sender): nat {
    if s.win.numWait == 0 then s.win.topSent + 1 else s.win.bottom
  }

  /** What a pass over the window sends: if there has been no timeout since the last answer, what has never
      been sent and nothing else; otherwise the whole window. */
  lemma PassSendsExactly(s: Sender)
    requires Inv(s) && s.st == SSendWindow
    ensures FirstToSend(s) >= 1
    ensures SendWindow(s).1 == ChunkWires(s, FirstToSend(s), FilledTo(s))
  {
    hide DataWire, LabelledWire, ChunkCount, Off, Chunk, Slot, SendWindow, PastEnd, FullWires, ChunkWires, WireOf;
    SendKeepsInv(s);
    var n := FilledTo(s);
    if s.win.numWait == 0 {
      FullWiresArePast(s, s.win.bottom, s.win.topSent, n);
    } else {
      assert forall p :: s.win.bottom <= p <= n ==> StateOf(s, p) == Full;
      FullWiresArePast(s, s.win.bottom, s.win.bottom - 1, n);
    }
  }

  /** The window that is sent next after the answer `p` has been heard, if the transfer is not over. */
  function WindowAfter(s: Sender, p: Packet): (r: Sender)
    requires WellFormed(s)
    ensures WellFormed(r)
  {
    var a := AdjustWindow(Respond(s, Some(p)));
    if a.st == SFillWindow then FillWindow(a) else a
  }

  /** The highest number acknowledged by RR once `p` has been heard. */
  function AckedBy(s: Sender, p: Packet): nat {
    if p.flag == RR then Max(s.win.rr, p.seq_) else s.win.rr
  }

  /** What any RR or SREJ makes of the window: the transfer is done if the end of the file is known and more is
      acknowledged than was sent, and otherwise the window starts at the number asked for unless it starts
      further on already, and reaches a whole window from there. */
  lemma AnswerMovesWindow(s: Sender, p: Packet)
    requires Inv(s) && s.st == SWaitOnResponse
    requires (p.flag == RR || p.flag == SREJ) && HarmlessAck(s, Some(p))
    ensures WellFormed(s)
    ensures var a := AdjustWindow(Respond(s, Some(p)));
            && Respond(s, Some(p)).st == SAdjustWindow
            && (a.st == SDone <==> s.win.eof && AckedBy(s, p) > s.win.topSent)
            && (a.st != SDone ==>
                  && a.win.bottom == Max(s.win.bottom, p.seq_)
                  && a.win.top == Max(s.win.bottom, p.seq_) + |s.win.states| - 1
                  && a.st == if p.seq_ > s.win.bottom then SFillWindow else SSendWindow)
            && a.win.rr == AckedBy(s, p) && a.win.srej == (if p.flag == SREJ then Max(s.win.srej, p.seq_) else s.win.srej)
            && a.win.topSent == s.win.topSent && a.win.numWait == 0 && a.win.eof == s.win.eof && a.pos == s.pos
            && |a.win.states| == |s.win.states| && a.content == s.content && a.order == s.order
            && a.win.buffsize == s.win.buffsize && Inv(a)
  {
    hide DataWire, ChunkCount, Off, Chunk, Slot, Slide, Loaded, AllSent, EndIsKnown;
    RespondKeepsInv(s, Some(p));
    var b := Respond(s, Some(p));
    AdjustKeepsInv(b);
    AnswerFits(s, p);
    SlideFits(b.win);
  }

  /** The pass after such an answer is the one that adjusts the window. */
  lemma AnswerPasses(s: Sender, p: Packet)
    requires WellFormed(s) && s.st == SWaitOnResponse && (p.flag == RR || p.flag == SREJ)
    ensures Pass(Respond(s, Some(p))) == (AdjustWindow(Respond(s, Some(p))), [])
    ensures AdjustWindow(Respond(s, Some(p))).st in {SDone, SFillWindow, SSendWindow}
  {
    hide Slide;
  }

  lemma AnswerFits(s: Sender, p: Packet)
    requires Inv(s) && s.st == SWaitOnResponse && HarmlessAck(s, Some(p)) && (p.flag == RR || p.flag == SREJ)
    ensures Max(Max(s.win.rr, s.win.srej), p.seq_) + |s.win.states| <= U32_LIMIT
    ensures s.win.top == s.win.bottom + |s.win.states| - 1
  {
    hide DataWire, StateOf, WireOf, Chunk, Off, ChunkCount;
  }

  /** Whatever an RR or SREJ asks for, the server sends only chunks it has never sent, from the one after
      the highest sent up to the end of the window that starts at the number asked for, or of the file. */
  lemma AnswerSendsOnlyNew(s: Sender, p: Packet)
    requires Inv(s) && s.st == SWaitOnResponse
    requires (p.flag == RR || p.flag == SREJ) && HarmlessAck(s, Some(p))
    ensures var r := WindowAfter(s, p);
            && Inv(r) && r.st == (if s.win.eof && AckedBy(s, p) > s.win.topSent then SDone else SSendWindow)
            && (r.st == SSendWindow ==>
                  && r.win.bottom == Max(s.win.bottom, p.seq_)
                  && SendWindow(r).1 ==
                     ChunkWires(s, s.win.topSent + 1, Min(Max(s.win.bottom, p.seq_) + |s.win.states| - 1, Total(s))))
  {
    hide Inv, ChunkCount, SendWindow, ChunkWires, AdjustWindow, Respond, FillWindow;
    AnswerMovesWindow(s, p);
    var a := AdjustWindow(Respond(s, Some(p)));
    if a.st != SDone {
      AnsweredWindow(a);
      var r := WindowAfter(s, p);
      SameFileSameWires(s, a, s.win.topSent + 1, FilledTo(r));
    }
  }

  /** The window that is sent after an answer, filled if it has moved. */
  lemma AnsweredWindow(a: Sender)
    requires Inv(a) && (a.st == SFillWindow || a.st == SSendWindow) && a.win.numWait == 0
    ensures var r := if a.st == SFillWindow then FillWindow(a) else a;
            && Inv(r) && r.st == SSendWindow && r.win.bottom == a.win.bottom && r.win.top == a.win.top
            && r.win.buffsize == a.win.buffsize > 0 && r.content == a.content
            && SendWindow(r).1 == ChunkWires(a, a.win.topSent + 1, FilledTo(r))
  {
    hide DataWire, LabelledWire, ChunkCount, Off, Chunk, Slot, SendWindow, ChunkWires, Loaded, AllSent, EndIsKnown;
    hide FillFrom;
    if a.st == SFillWindow {
      FillKeepsInv(a);
      FillFromKeepsParameters(a, a.win.bottom);
    }
    var r := if a.st == SFillWindow then FillWindow(a) else a;
    PassSendsExactly(r);
    SameFileSameWires(a, r, a.win.topSent + 1, FilledTo(r));
  }

  /** After a timeout with a try left, everything outstanding is sent again, in order. */
  lemma TimeoutSendsAllAgain(s: Sender)
    requires Inv(s) && s.st == STimeoutOnResponse && s.win.numWait < MAX_TRIES
    ensures s.win.bottom >= 1
    ensures SendWindow(TimeoutOnResponse(s)).1 == ChunkWires(s, s.win.bottom, s.win.topSent)
  {
    hide DataWire, LabelledWire, ChunkCount, Off, Chunk, Slot, SendWindow, ChunkWires, RefillFrom, StateOf, WireOf;
    TimeoutKeepsInv(s);
    var r := TimeoutOnResponse(s);
    PassSendsExactly(r);
    SameFileSameWires(s, r, s.win.bottom, FilledTo(r));
  }
}
