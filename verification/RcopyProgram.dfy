/** rcopy's `file_transfer` on its window, output file and socket. */
module RcopyProgram {
  import opened Bytes
  import opened Codec
  import opened Chunks
  import opened Ring
  import opened PacketBuffer
  import opened WindowBuffer
  import opened R = Receiver
  import ReceiverLoop

  class Transfer {
    const win: Window
    const file: OutFile
    const conn: Sock
    const recvPkt: Pkt
    const sendPkt: Pkt

    constructor (conn: Sock, file: OutFile)
      requires conn.windowSize > 0 && conn.seq_ == 0
      requires HDR_LEN + conn.buffsize < U32_LIMIT
      requires file.content == []
      ensures Valid() && this.conn == conn && this.file == file
      ensures View(CWaitOnData) == R.Start(conn.windowSize, recvPkt.datagram[HDR_LEN..], conn.order)
    {
      var w := new Window(conn);
      w.SetRR(1);
      var p := new Pkt(conn.buffsize);
      var q := new Pkt(conn.buffsize);
      this.win, this.conn, this.file, this.recvPkt, this.sendPkt := w, conn, file, p, q;
      new;
      hide Encode;
      assert |recvPkt.datagram[HDR_LEN..]| == conn.buffsize;
      assert win.Lens() == seq(conn.windowSize as int, _ => 0);
    }

    /** Every frame in use points at the one receive buffer, and the send buffer is another one. */
    ghost predicate Valid()
      reads this, win, recvPkt, sendPkt, win.frames, win.Packets()
    {
      && win.Valid()
      && win.buffsize == conn.buffsize && win.size == conn.windowSize
      && recvPkt.datagram.Length == HDR_LEN + win.buffsize
      && sendPkt.datagram.Length == HDR_LEN + win.buffsize
      && recvPkt != sendPkt && recvPkt.datagram != sendPkt.datagram
      && (forall f :: f in win.frames ==> f.pkt != recvPkt && f.pkt != sendPkt)
      && (forall f :: f in win.frames && f.state != Empty ==>
            f.pkt.datagram == recvPkt.datagram && f.pkt.dataLen <= win.buffsize)
    }

    /** What the state loop sees of the program, when it is in state `st`. */
    ghost function View(st: CState): (r: Receiver)
      requires Valid()
      reads this, win, file, conn, recvPkt, sendPkt, win.frames, win.Packets(), recvPkt.datagram
      ensures R.WellFormed(r)
    {
      Receiver(st, win.View(), win.Lens(), recvPkt.datagram[HDR_LEN..], file.content, conn.seq_, conn.order)
    }

    method AdjustWindow() returns (st: CState)
      requires Valid() && win.bottom >= 1
      modifies win`top, win`bottom, win.frames
      ensures Valid() && View(st) == R.AdjustWindow(old(View(CAdjustWindow)))
    {
      hide EmptyDown;
      EmptiedFramesWereThere(win.States(), Max(win.rr, win.srej), win.bottom);
      ghost var before := win.States();
      var moved := win.Slide();
      assert forall i :: 0 <= i < |win.frames| && win.frames[i].state != Empty ==>
               win.States()[i] != Empty && before[i] != Empty;
      return CWaitOnData;
    }

    /** Sends a packet without data. */
    method SendControl(flag: byte, seq_: u32)
      requires Valid()
      modifies conn`sent, sendPkt, sendPkt.datagram
      ensures Valid() && sendPkt.datagram == old(sendPkt.datagram)
      ensures forall st :: View(st) == old(View(st))
      ensures conn.sent == old(conn.sent) + [ControlWire(conn.order, flag, seq_)]
    {
      hide Encode;
      sendPkt.CreatePkt(conn.order, flag, seq_, []);
      conn.SendPkt(sendPkt);
    }

    method SendRR() returns (st: CState)
      requires Valid()
      modifies conn`sent, sendPkt, sendPkt.datagram
      ensures Valid() && sendPkt.datagram == old(sendPkt.datagram)
      ensures (View(st), conn.sent) == (Pass(old(View(CSendRR))).0, old(conn.sent) + Pass(old(View(CSendRR))).1)
    {
      hide ControlWire;
      SendControl(RR, win.rr);
      assert View(CSendRR) == old(View(CSendRR));
      return CWriteData;
    }

    method SendSREJ() returns (st: CState)
      requires Valid()
      modifies conn`sent, win`srej, sendPkt, sendPkt.datagram
      ensures Valid() && sendPkt.datagram == old(sendPkt.datagram)
      ensures (View(st), conn.sent) == (Pass(old(View(CSendSREJ))).0, old(conn.sent) + Pass(old(View(CSendSREJ))).1)
    {
      hide ControlWire;
      win.srej := win.rr;
      SendControl(SREJ, win.srej);
      assert View(CSendSREJ) == old(View(CSendSREJ)).(win := old(View(CSendSREJ)).win.(srej := win.rr as nat));
      return CWaitOnData;
    }

    /** `write_frame`: the bytes are taken from wherever the frame's packet points. */
    method WriteFrame(seq_: u32)
      requires Valid()
      modifies file, win.frames
      ensures Valid()
      ensures View(CWriteData) == R.WriteFrame(old(View(CWriteData)), seq_)
    {
      var k := win.GetFrameNum(seq_);
      var frame := win.frames[k];
      if win.FullFrame(k) {
        file.Write(frame.pkt.datagram[HDR_LEN..HDR_LEN + frame.pkt.dataLen]);
        win.SetFrame(k, Written);
        assert frame.pkt.datagram[HDR_LEN..HDR_LEN + frame.pkt.dataLen]
            == recvPkt.datagram[HDR_LEN..][..frame.pkt.dataLen];
      }
    }

    method WriteData() returns (st: CState)
      requires Valid()
      modifies file, win.frames
      ensures Valid()
      ensures View(st) == WriteFrom(old(View(CWriteData)), old(win.bottom)).(st := CAdjustWindow)
    {
      hide Slot, R.WriteFrame;
      var rtop := if win.rr > win.srej then win.rr else win.srej;
      var seq_ := win.bottom;
      while seq_ <= win.top && seq_ < rtop
        invariant seq_ <= win.top + 1 || seq_ == win.bottom
        invariant Valid()
        invariant WriteFrom(View(CWriteData), seq_) == WriteFrom(old(View(CWriteData)), old(win.bottom))
        decreases win.top + 1 - seq_
        modifies file, win.frames
      {
        WriteFrame(seq_);
        seq_ := seq_ + 1;
      }
      return CAdjustWindow;
    }

    /** What receiving does to the view: only the shared buffer changes. */
    method Recv(w: Wire) returns (good: bool)
      requires Valid() && |w| >= HDR_LEN
      modifies recvPkt, recvPkt.datagram
      ensures Valid() && recvPkt.datagram == old(recvPkt.datagram)
      ensures var v := Truncate(w, win.buffsize);
              && View(CWaitOnData) == old(View(CWaitOnData)).(buf := Overlay(v[HDR_LEN..], old(View(CWaitOnData)).buf))
              && recvPkt.dataLen == |v| - HDR_LEN
              && good == Receive(conn.order, v).Some?
              && (good ==> Packet(recvPkt.flag, recvPkt.seq_, v[HDR_LEN..]) == Receive(conn.order, v).value)
    {
      hide Receive;
      good := recvPkt.RecvPkt(conn.order, w);
      assert win.Lens() == old(win.Lens());
      assert recvPkt.datagram[HDR_LEN..] == recvPkt.datagram[..][HDR_LEN..];
      assert old(recvPkt.datagram[HDR_LEN..]) == old(recvPkt.datagram[..])[HDR_LEN..];
    }

    /** The received packet goes into its frame. */
    method Fill()
      requires Valid() && recvPkt.dataLen <= win.buffsize
      modifies win.frames, win.Packets()
      ensures Valid()
      ensures View(CWaitOnData) == FillFrame(old(View(CWaitOnData)), recvPkt.seq_, recvPkt.dataLen)
    {
      win.PktFillFrame(recvPkt);
    }

    /** The received packet goes into its frame, and if it is the one wanted the next one is wanted. */
    method Keep() returns (st: CState)
      requires Valid() && recvPkt.dataLen <= win.buffsize && recvPkt.seq_ >= win.rr
      modifies win`rr, win.frames, win.Packets()
      ensures Valid()
      ensures var f := FillFrame(old(View(CWaitOnData)), recvPkt.seq_, recvPkt.dataLen);
              View(st) == if recvPkt.seq_ == old(win.rr) then f.(win := f.win.(rr := (old(win.rr) + 1) % U32_LIMIT), st := CSendRR)
                          else f.(st := CSendSREJ)
    {
      hide FillFrame;
      Fill();
      if recvPkt.seq_ == win.rr {
        win.rr := (win.rr + 1) % U32_LIMIT;
        return CSendRR;
      }
      return CSendSREJ;
    }

    /** The loop body of `wait_on_data` once `recv_pkt` has found a good packet. */
    method Process() returns (st: CState)
      requires Valid() && recvPkt.dataLen <= win.buffsize
      modifies conn`seq_, win`rr, win.frames, win.Packets()
      ensures Valid()
      ensures var p := Packet(recvPkt.flag, recvPkt.seq_, old(recvPkt.datagram[HDR_LEN..HDR_LEN + recvPkt.dataLen]));
              View(st) == HearPacket(old(View(CWaitOnData)), p)
    {
      hide Slot, FillFrame;
      if recvPkt.flag == FILE_EOF {
        conn.seq_ := recvPkt.seq_;
        return CDone;
      }
      if recvPkt.flag == DATA && recvPkt.seq_ < win.rr {
        return CSendRR;
      }
      if recvPkt.seq_ >= win.bottom && recvPkt.seq_ <= win.top && recvPkt.flag == DATA {
        st := Keep();
        return;
      }
      return CWaitOnData;
    }

    /** The loop body of `wait_on_data` once `select` has reported a datagram. */
    method Answer(w: Wire) returns (st: CState)
      requires Valid() && |w| >= HDR_LEN
      modifies conn`seq_, win`rr, win.frames, win.Packets(), recvPkt, recvPkt.datagram
      ensures Valid() && recvPkt.datagram == old(recvPkt.datagram)
      ensures View(st) == Hear(old(View(CWaitOnData)), w)
    {
      hide Receive, HearPacket;
      ghost var v := Truncate(w, win.buffsize);
      var good := Recv(w);
      if !good {
        return CWaitOnData;
      }
      assert recvPkt.datagram[HDR_LEN..HDR_LEN + recvPkt.dataLen]
          == View(CWaitOnData).buf[..recvPkt.dataLen] == v[HDR_LEN..];
      st := Process();
    }

    /** `wait_on_data` */
    method WaitOnData() returns (st: CState)
      requires Valid() && Framed(conn.arrivals)
      modifies conn, win`rr, win.frames, win.Packets(), recvPkt, recvPkt.datagram
      ensures Valid() && recvPkt.datagram == old(recvPkt.datagram)
      ensures conn.sent == old(conn.sent)
      ensures (View(st), conn.arrivals) == ReceiverLoop.WaitOnData(old(View(CWaitOnData)), old(conn.arrivals))
    {
      hide Receive, Slot, Hear, R.WellFormed;
      ghost var whole := ReceiverLoop.WaitOnData(View(CWaitOnData), conn.arrivals);
      while true
        invariant Valid() && Framed(conn.arrivals) && recvPkt.datagram == old(recvPkt.datagram)
        invariant conn.sent == old(conn.sent)
        invariant ReceiverLoop.WaitOnData(View(CWaitOnData), conn.arrivals) == whole
        decreases |conn.arrivals|
      {
        var ready := conn.SelectCall();
        if !ready {
          return CTimeoutOnData;
        }
        var w := conn.Take();
        st := Answer(w);
        if st != CWaitOnData {
          return;
        }
      }
    }

    /** One turn of the state loop in a state that does not wait. */
    method OneState(st: CState) returns (next: CState)
      requires Valid() && win.bottom >= 1
      requires st != CDone && st != CFinish && st != CWaitOnData
      modifies conn`sent, win, file, win.frames, sendPkt, sendPkt.datagram
      ensures Valid() && sendPkt.datagram == old(sendPkt.datagram)
      ensures (View(next), conn.sent) == (Pass(old(View(st))).0, old(conn.sent) + Pass(old(View(st))).1)
    {
      hide ControlWire, R.AdjustWindow, WriteFrom;
      assert conn.sent == old(conn.sent) + [];
      match st {
        case CSendRR => next := SendRR();
        case CSendSREJ => next := SendSREJ();
        case CWriteData => next := WriteData();
        case CAdjustWindow => next := AdjustWindow();
        case CTimeoutOnData => next := CFinish;
      }
    }

    /** One turn of the state loop. */
    method Turn(st: CState) returns (next: CState)
      requires Valid() && win.bottom >= 1 && Framed(conn.arrivals)
      requires st != CDone && st != CFinish
      modifies conn, win, file, win.frames, win.Packets(), recvPkt, recvPkt.datagram, sendPkt, sendPkt.datagram
      ensures Valid() && win.bottom >= 1 && Framed(conn.arrivals)
      ensures recvPkt.datagram == old(recvPkt.datagram) && sendPkt.datagram == old(sendPkt.datagram)
      ensures if st == CWaitOnData then
                && (View(next), conn.arrivals) == ReceiverLoop.WaitOnData(old(View(st)), old(conn.arrivals))
                && conn.sent == old(conn.sent)
              else
                && (View(next), conn.sent) == (Pass(old(View(st))).0, old(conn.sent) + Pass(old(View(st))).1)
                && conn.arrivals == old(conn.arrivals)
    {
      hide Receive, Pass, Hear, R.WellFormed, ReceiverLoop.WaitOnData;
      ghost var r := View(st);
      if st == CWaitOnData {
        next := WaitOnData();
      } else {
        ReceiverLoop.PassKeepsBottom(r);
        next := OneState(st);
      }
    }

    /** `file_transfer`, on any datagrams: it ends, in the state, with the replies and with the output file
        that the loop on values gives; and from its start on, if data of one number have one length, those
        are what the simple automaton gives. */
    method FileTransfer() returns (st: CState)
      requires Valid() && win.bottom >= 1 && Framed(conn.arrivals)
      modifies conn, win, file, win.frames, win.Packets(), recvPkt, recvPkt.datagram, sendPkt, sendPkt.datagram
      ensures Valid()
      ensures var (r, out) := ReceiverLoop.FileTransfer(old(View(CWaitOnData)), old(conn.arrivals));
              View(st) == r && ReceiverLoop.Ended(r) && conn.sent == old(conn.sent) + out
      ensures old(View(CWaitOnData)) == R.Start(conn.windowSize, old(recvPkt.datagram[HDR_LEN..]), conn.order)
              && ReceiverLoop.OneLengthEach(old(conn.arrivals), conn.order, conn.buffsize)
              && ReceiverLoop.NoneIsLast(old(conn.arrivals), conn.order, conn.buffsize, conn.windowSize)
              ==> |conn.sent| >= |old(conn.sent)| && conn.sent[..|old(conn.sent)|] == old(conn.sent)
                  && ReceiverLoop.ActsSimply(conn.windowSize, conn.buffsize, conn.order, old(conn.arrivals),
                                             st, conn.sent[|old(conn.sent)|..], file.content)
    {
      hide Receive, Pass, Hear, R.WellFormed, ReceiverLoop.WaitOnData, ReceiverLoop.FileTransfer;
      hide ReceiverLoop.Rank, ReceiverLoop.OneLengthEach, ReceiverLoop.NoneIsLast, ReceiverLoop.ActsSimply, R.Start;
      st := CWaitOnData;
      ghost var r := View(st);
      ghost var out: seq<Wire> := [];
      ghost var whole := ReceiverLoop.FileTransfer(r, conn.arrivals);
      ReceiverLoop.NothingSentYet(r, conn.arrivals);
      if ReceiverLoop.OneLengthEach(conn.arrivals, conn.order, conn.buffsize)
         && ReceiverLoop.NoneIsLast(conn.arrivals, conn.order, conn.buffsize, conn.windowSize) {
        ReceiverLoop.TransferActsSimply(conn.windowSize, recvPkt.datagram[HDR_LEN..], conn.order, conn.arrivals);
      }
      while st != CDone && st != CFinish
        invariant Valid() && win.bottom >= 1 && Framed(conn.arrivals)
        invariant recvPkt.datagram == old(recvPkt.datagram) && sendPkt.datagram == old(sendPkt.datagram)
        invariant r == View(st) && conn.sent == old(conn.sent) + out
        invariant ReceiverLoop.Leaves(whole.0, whole.1, out, r, conn.arrivals)
        decreases |conn.arrivals|, ReceiverLoop.Rank(st)
      {
        ReceiverLoop.TurnLeaves(whole.0, whole.1, out, r, conn.arrivals);
        ReceiverLoop.TurnProgresses(r, conn.arrivals);
        out := if st == CWaitOnData then out else out + Pass(r).1;
        st := Turn(st);
        r := View(st);
      }
      ReceiverLoop.NoTurn(r, conn.arrivals);
      assert out + [] == out;
      assert conn.sent[|old(conn.sent)|..] == out;
    }

    /** `file_eof`: the end is acknowledged under the number it came with. */
    method FileEof()
      requires Valid()
      modifies conn`sent, sendPkt, sendPkt.datagram
      ensures Valid() && conn.sent == old(conn.sent) + [ControlWire(conn.order, FILE_EOF_ACK, conn.seq_)]
    {
      SendControl(FILE_EOF_ACK, conn.seq_);
    }
  }
}
