/** The server's `file_transfer` on its window, file and socket. */
module ServerProgram {
  import opened Bytes
  import opened Codec
  import opened Chunks
  import opened Ring
  import opened PacketBuffer
  import opened WindowBuffer
  import opened S = Sender
  import SenderLoop

  class Transfer {
    const win: Window
    const file: InFile
    const conn: Sock
    const recvPkt: Pkt

    /** All packet buffers. */
    ghost const arrays: set<array<byte>>

    constructor (conn: Sock, file: InFile)
      requires conn.windowSize > 0 && conn.seq_ == 0
      requires HDR_LEN + conn.buffsize < U32_LIMIT
      requires file.pos == 0 && !file.feof
      ensures Valid() && this.conn == conn && this.file == file
      ensures View(SFillWindow) == S.Start(conn.windowSize, conn.buffsize, file.content, conn.order)
      ensures fresh(win) && fresh(recvPkt) && fresh(win.Packets()) && fresh(arrays)
      ensures forall f :: f in win.frames ==> fresh(f)
    {
      var w := new Window(conn);
      w.SetRR(0);
      var p := new Pkt(conn.buffsize);
      this.win, this.conn, this.file, this.recvPkt := w, conn, file, p;
      arrays := (set f | f in w.frames :: f.pkt.datagram) + {p.datagram};
    }

    ghost predicate Valid()
      reads this, win, file, recvPkt, win.frames, win.Packets()
    {
      && win.Valid() && win.OwnBuffers()
      && win.buffsize == conn.buffsize && win.size == conn.windowSize
      && file.pos <= |file.content|
      && (file.feof ==> win.eof)
      && recvPkt.datagram.Length == HDR_LEN + win.buffsize && recvPkt.datagram in arrays
      && forall f :: f in win.frames ==>
           f.pkt != recvPkt && f.pkt.datagram != recvPkt.datagram && f.pkt.datagram in arrays
    }

    /** What the state loop sees of the program, when it is in state `st`. */
    ghost function View(st: SState): (s: Sender)
      requires Valid()
      reads this, win, file, recvPkt, win.frames, win.Packets(), arrays
      ensures S.WellFormed(s)
    {
      Sender(st, win.View(), win.Wires(), file.content, file.pos, conn.order)
    }

    method AdjustWindow() returns (st: SState)
      requires Valid() && win.bottom >= 1
      modifies win`top, win`bottom, win.frames
      ensures Valid() && win.bottom >= 1 && View(st) == S.AdjustWindow(old(View(SAdjustWindow)))
    {
      if win.eof && win.rr > win.topSent {
        return SDone;
      }
      var moved := win.Slide();
      assert win.Wires() == old(win.Wires());
      return if moved then SFillWindow else SSendWindow;
    }

    /** One turn of the loop of `fill_window`. */
    method FillOne(seq_: u32)
      requires Valid()
      modifies file, win`eof, win.frames, win.Packets(), arrays
      ensures Valid() && win.top == old(win.top)
      ensures View(SFillWindow) == FillFrame(old(View(SFillWindow)), seq_)
    {
      hide Encode, FillFrame, Slot, Fread;
      ghost var s := View(SFillWindow);
      if win.EmptyFrame(win.GetFrameNum(seq_)) {
        win.FileFillFrame(conn.order, file, seq_);
        FilledFrame(s, View(SFillWindow), seq_);
      } else {
        FullFramesStay(s, seq_);
      }
    }

    method FillWindow() returns (st: SState)
      requires Valid() && win.top < U32_MAX
      modifies file, win`eof, win.frames, win.Packets(), arrays
      ensures Valid()
      ensures View(st) == S.FillWindow(old(View(SFillWindow)))
    {
      hide Encode, FillFrame, Slot, S.WellFormed;
      var seq_ := win.bottom;
      while seq_ <= win.top
        invariant seq_ <= win.top + 1 || seq_ == win.bottom
        invariant Valid() && win.top == old(win.top)
        invariant FillFrom(View(SFillWindow), seq_) == FillFrom(old(View(SFillWindow)), old(win.bottom))
        decreases win.top + 1 - seq_
      {
        FillOne(seq_);
        seq_ := seq_ + 1;
      }
      return SSendWindow;
    }

    /** One turn of the loop of `send_window`. */
    method SendOne(seq_: u32)
      requires Valid()
      modifies conn`sent, win`topSent, win.frames
      ensures Valid()
      ensures (View(SSendWindow), conn.sent) ==
              (SendFrame(old(View(SSendWindow)), seq_).0, old(conn.sent) + SendFrame(old(View(SSendWindow)), seq_).1)
    {
      hide Encode, Slot;
      var k := win.GetFrameNum(seq_);
      ghost var s := View(SSendWindow);
      if win.FullFrame(k) {
        win.SendFrame(conn, k);
        if seq_ > win.topSent {
          win.topSent := seq_;
        }
        assert win.Wires() == s.wires && win.States() == s.win.states[k as int := Sent];
        assert View(SSendWindow) == SendFrame(s, seq_).0;
      } else {
        assert conn.sent == old(conn.sent) + [];
      }
    }

    method SendWindow() returns (st: SState)
      requires Valid() && win.top < U32_MAX
      modifies conn`sent, win`topSent, win.frames
      ensures Valid()
      ensures var (s, out) := S.SendWindow(old(View(SSendWindow)));
              View(st) == s && conn.sent == old(conn.sent) + out
    {
      hide Encode, Slot, SendFrame, S.WellFormed;
      var seq_ := win.bottom;
      ghost var out: seq<Wire> := [];
      assert out + SendFrom(View(SSendWindow), seq_).1 == SendFrom(View(SSendWindow), seq_).1;
      while seq_ <= win.top
        invariant seq_ <= win.top + 1 || seq_ == win.bottom
        invariant Valid()
        invariant conn.sent == old(conn.sent) + out
        invariant var (s, more) := SendFrom(View(SSendWindow), seq_);
                  SendFrom(old(View(SSendWindow)), old(win.bottom)) == (s, out + more)
        decreases win.top + 1 - seq_
        modifies conn`sent, win`topSent, win.frames
      {
        ghost var (t, now) := SendFrame(View(SSendWindow), seq_);
        assert out + (now + SendFrom(t, seq_ + 1).1) == out + now + SendFrom(t, seq_ + 1).1;
        out := out + now;
        SendOne(seq_);
        seq_ := seq_ + 1;
      }
      return SWaitOnResponse;
    }

    /** The part of `wait_on_response` that looks at a packet that was received. */
    method Process() returns (st: SState)
      requires Valid() && recvPkt.dataLen + HDR_LEN == recvPkt.datagramLen <= recvPkt.datagram.Length
      modifies win`rr, win`srej, win`numWait
      ensures Valid()
      ensures var p := Packet(recvPkt.flag, recvPkt.seq_, recvPkt.datagram[HDR_LEN..recvPkt.datagramLen]);
              View(st) == Respond(old(View(SWaitOnResponse)), Some(p))
    {
      hide Encode, S.WellFormed;
      win.numWait := 0;
      assert win.Wires() == old(win.Wires()) && win.States() == old(win.States());
      if recvPkt.flag == RR {
        if recvPkt.seq_ > win.rr {
          win.rr := recvPkt.seq_;
        }
        return SAdjustWindow;
      } else if recvPkt.flag == SREJ {
        if recvPkt.seq_ > win.srej {
          win.srej := recvPkt.seq_;
        }
        return SAdjustWindow;
      } else if recvPkt.flag == FILE_NAME {
        return SFileName;
      } else {
        return SFinish;
      }
    }

    method WaitOnResponse() returns (st: SState)
      requires Valid() && Framed(conn.arrivals)
      modifies conn`arrivals, win`rr, win`srej, win`numWait, recvPkt, arrays
      ensures Valid()
      ensures conn.arrivals == Rest(old(conn.arrivals))
      ensures View(st) == SenderLoop.Wait(old(View(SWaitOnResponse)), First(old(conn.arrivals)))
    {
      hide Encode, Receive, Respond, Truncate, S.WellFormed;
      var ready := conn.SelectCall();
      if ready {
        var w := conn.Take();
        var good := recvPkt.RecvPkt(conn.order, w);
        assert win.Wires() == old(win.Wires());
        assert View(SWaitOnResponse) == old(View(SWaitOnResponse));
        if good {
          st := Process();
          return;
        }
        RespondToDamage(old(View(SWaitOnResponse)));
      }
      return STimeoutOnResponse;
    }

    method TimeoutOnResponse() returns (st: SState)
      requires Valid() && (win.numWait < MAX_TRIES ==> win.top < U32_MAX)
      modifies win`numWait, win.frames
      ensures Valid() && View(st) == S.TimeoutOnResponse(old(View(STimeoutOnResponse)))
    {
      hide Encode, Slot, RefillFrom;
      if win.numWait < MAX_TRIES {
        win.numWait := win.numWait + 1;
        win.RefillSent();
        return SSendWindow;
      }
      return SFinish;
    }

    /** One turn of the state loop. */
    method OneState(st: SState) returns (next: SState)
      requires Valid() && win.bottom >= 1 && Framed(conn.arrivals)
      requires !Hangs(View(st)) && st != SDone && st != SFileName && st != SFinish && st != SStuck
      modifies conn, win, file, recvPkt, win.frames, win.Packets(), arrays
      ensures Valid() && win.bottom >= 1 && Framed(conn.arrivals)
      ensures if st == SWaitOnResponse then
                && View(next) == SenderLoop.Wait(old(View(st)), First(old(conn.arrivals)))
                && conn.arrivals == Rest(old(conn.arrivals)) && conn.sent == old(conn.sent)
              else
                && (View(next), conn.sent) == (S.Pass(old(View(st))).0, old(conn.sent) + S.Pass(old(View(st))).1)
                && conn.arrivals == old(conn.arrivals)
    {
      hide Encode, Receive, S.AdjustWindow, S.FillWindow, S.SendWindow, S.TimeoutOnResponse, SenderLoop.Wait;
      assert conn.sent == old(conn.sent) + [];
      match st {
        case SAdjustWindow => next := AdjustWindow();
        case SFillWindow => next := FillWindow();
        case SSendWindow => next := SendWindow();
        case SWaitOnResponse => next := WaitOnResponse();
        case STimeoutOnResponse => next := TimeoutOnResponse();
      }
    }

    /** `file_transfer`, against any responses on which it ends at all: it ends in the state and with the
        datagrams sent that the loop on values gives. */
    method FileTransfer() returns (st: SState)
      requires Valid() && win.bottom >= 1 && Framed(conn.arrivals)
      requires SenderLoop.Returns(View(SFillWindow), conn.arrivals)
      modifies conn, win, file, recvPkt, win.frames, win.Packets(), arrays
      ensures Valid()
      ensures var (s, out, _) := SenderLoop.FileTransfer(old(View(SFillWindow)), old(conn.arrivals));
              View(st) == s && SenderLoop.Ended(s) && conn.sent == old(conn.sent) + out
    {
      hide Encode, Receive, S.Pass, SenderLoop.Wait, SenderLoop.FileTransfer, Hangs, SenderLoop.Leaves;
      hide SenderLoop.TriesLeft, SenderLoop.Rank, S.WellFormed, First, Rest;
      st := SFillWindow;
      ghost var s := View(st);
      ghost var out: seq<Wire> := [];
      ghost var whole := SenderLoop.FileTransfer(s, conn.arrivals);
      SenderLoop.NothingSentYet(s, conn.arrivals);
      SenderLoop.LeavesUnstuck(whole.0, whole.1, out, s, conn.arrivals);
      while st != SDone && st != SFileName && st != SFinish
        invariant Valid() && win.bottom >= 1 && Framed(conn.arrivals) && st != SStuck
        invariant s == View(st) && conn.sent == old(conn.sent) + out
        invariant SenderLoop.Leaves(whole.0, whole.1, out, s, conn.arrivals)
        decreases if SenderLoop.Over(s) then 0 else 1, |conn.arrivals|, SenderLoop.TriesLeft(s), SenderLoop.Rank(s.st)
      {
        SenderLoop.LeavesUnstuck(whole.0, whole.1, out, s, conn.arrivals);
        SenderLoop.OneTurn(s, conn.arrivals);
        SenderLoop.TurnLeaves(whole.0, whole.1, out, s, conn.arrivals);
        out := if st == SWaitOnResponse then out else out + S.Pass(s).1;
        st := OneState(st);
        s := View(st);
        SenderLoop.LeavesUnstuck(whole.0, whole.1, out, s, conn.arrivals);
      }
      SenderLoop.LeavesNothing(whole.0, whole.1, out, s, conn.arrivals);
    }
  }

  lemma RespondToDamage(s: Sender)
    requires S.WellFormed(s)
    ensures Respond(s, None) == s.(st := STimeoutOnResponse)
  {
  }

  lemma FilledFrame(s: Sender, t: Sender, q: nat)
    requires S.WellFormed(s) && S.WellFormed(t)
    requires var k := Slot(|s.win.states|, q);
             var data := Fread(s.content, s.win.buffsize, s.pos);
             && s.win.states[k] == Empty
             && t.win == s.win.(states := t.win.states, eof := s.win.eof || |data| < s.win.buffsize)
             && t.st == s.st && t.content == s.content && t.order == s.order && t.pos == s.pos + |data|
             && t.win.states == (if data == [] then s.win.states else s.win.states[k := Full])
             && t.wires == (if data == [] then s.wires else s.wires[k := DataWire(s.order, q, data)])
    ensures t == FillFrame(s, q)
  {
  }

  lemma FullFramesStay(s: Sender, q: nat)
    requires S.WellFormed(s) && s.win.states[Slot(|s.win.states|, q)] != Empty
    ensures FillFrame(s, q) == s
  {
  }
}
