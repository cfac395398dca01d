/** The handshake and the close of both programs on their sockets and packet buffers. */
module HandshakeProgram {
  import opened Bytes
  import opened Codec
  import opened InitPayload
  import opened PacketBuffer
  import opened Session
  import opened HandshakeLoop

  /** The server child: `file_name` and `file_eof`. */
  class Child {
    const c: Config
    const conn: Sock
    const name: seq<byte>
    const sendPkt: Pkt
    const recvPkt: Pkt
    var file: InFile?
    var numWait: nat

    constructor (c: Config, conn: Sock, name: seq<byte>)
      requires conn.order == c.serverOrder && 4 <= conn.buffsize && HDR_LEN + conn.buffsize < U32_LIMIT
      ensures Valid() && this.c == c && this.conn == conn && this.name == name && file == null && numWait == 0
      ensures fresh(sendPkt) && fresh(recvPkt) && fresh(sendPkt.datagram) && fresh(recvPkt.datagram)
    {
      this.c, this.conn, this.name, this.file, this.numWait := c, conn, name, null, 0;
      var p := new Pkt(conn.buffsize);
      var q := new Pkt(conn.buffsize);
      sendPkt, recvPkt := p, q;
    }

    ghost predicate Valid()
      reads sendPkt, recvPkt
    {
      && conn.order == c.serverOrder && 4 <= conn.buffsize
      && sendPkt != recvPkt && sendPkt.datagram != recvPkt.datagram
      && sendPkt.datagram.Length == recvPkt.datagram.Length == HDR_LEN + conn.buffsize < U32_LIMIT
      && sendPkt.datagramLen <= sendPkt.datagram.Length
    }

    /** What the session sees of the child in phase `ph` of its handshake or close. */
    ghost function View(ph: ServerPhase): Server
      requires Valid()
      reads this, conn, sendPkt, recvPkt, sendPkt.datagram
    {
      Server(ph, conn.buffsize, conn.windowSize, name, if file == null then None else Some(file.content),
             sendPkt.Contents(), conn.seq_, None, numWait)
    }

    method OpenFile() returns (ph: ServerPhase)
      requires Valid()
      modifies `file
      ensures Valid() && View(ph) == ServerPass(c, old(View(Session.OpenFile))).0
    {
      if name in c.files {
        file := new InFile(c.files[name]);
        return Session.GoodFile;
      }
      file := null;
      return Session.BadFile;
    }

    method GoodFile() returns (ph: ServerPhase)
      requires Valid()
      modifies sendPkt, sendPkt.datagram
      ensures Valid() && sendPkt.datagram == old(sendPkt.datagram)
      ensures View(ph) == ServerPass(c, old(View(Session.GoodFile))).0
    {
      sendPkt.CreatePkt(conn.order, FILE_NAME_ACK, conn.seq_, []);
      return SendNameAck;
    }

    method BadFile() returns (ph: ServerPhase)
      requires Valid()
      modifies sendPkt, sendPkt.datagram
      ensures Valid() && sendPkt.datagram == old(sendPkt.datagram)
      ensures View(ph) == ServerPass(c, old(View(Session.BadFile))).0
    {
      sendPkt.CreatePkt(conn.order, FILE_NAME_ERR_ACK, conn.seq_, NetworkBytes(c.errno));
      return SendNameAck;
    }

    /** Receives into the receive buffer; nothing the session sees changes. */
    method Recv(w: Wire) returns (p: Option<Packet>)
      requires Valid() && |w| >= HDR_LEN
      modifies recvPkt, recvPkt.datagram
      ensures Valid() && recvPkt.datagram == old(recvPkt.datagram)
      ensures forall ph :: View(ph) == old(View(ph))
      ensures p == Receive(conn.order, Truncate(w, conn.buffsize))
    {
      hide Receive;
      var good := recvPkt.RecvPkt(conn.order, w);
      if !good {
        return None;
      }
      var data := recvPkt.datagram[HDR_LEN..recvPkt.datagramLen];
      assert data == recvPkt.Contents()[HDR_LEN..];
      return Some(Packet(recvPkt.flag, recvPkt.seq_, data));
    }

    /** The body of the loop of `file_begin`. */
    method Begin(w: Wire) returns (ph: ServerPhase)
      requires Valid() && |w| >= HDR_LEN
      modifies conn`sent, sendPkt, sendPkt.datagram, recvPkt, recvPkt.datagram
      ensures Valid() && sendPkt.datagram == old(sendPkt.datagram) && recvPkt.datagram == old(recvPkt.datagram)
      ensures var (t, out) := ServerHear(c, old(View(AwaitBegin)), w);
              View(ph) == t.(sender := None) && conn.sent == old(conn.sent) + out
    {
      hide Receive, Encode;
      var p := Recv(w);
      assert View(AwaitBegin) == old(View(AwaitBegin));
      assert conn.sent + [] == conn.sent;
      if p.Some? && p.value.seq_ == conn.seq_ && p.value.flag == FILE_BEGIN {
        sendPkt.CreatePkt(conn.order, FILE_BEGIN_ACK, conn.seq_, []);
        conn.SendPkt(sendPkt);
        return if file == null || conn.windowSize == 0 then Crashed else Transferring;
      }
      if p.Some? && p.value.flag == FILE_NAME {
        return Session.OpenFile;
      }
      return AwaitBegin;
    }

    method FileBegin() returns (ph: ServerPhase)
      requires Valid() && Framed(conn.arrivals)
      modifies conn`sent, conn`arrivals, sendPkt, sendPkt.datagram, recvPkt, recvPkt.datagram
      ensures Valid() && sendPkt.datagram == old(sendPkt.datagram) && recvPkt.datagram == old(recvPkt.datagram)
      ensures var (t, out, rest) := ServerAwait(c, old(View(AwaitBegin)), old(conn.arrivals));
              View(ph) == t.(sender := None) && conn.sent == old(conn.sent) + out && conn.arrivals == rest
    {
      hide Receive, Encode, ServerHear;
      ghost var whole := ServerAwait(c, View(AwaitBegin), conn.arrivals);
      while true
        invariant Valid() && Framed(conn.arrivals)
        invariant sendPkt.datagram == old(sendPkt.datagram) && recvPkt.datagram == old(recvPkt.datagram)
        invariant conn.sent == old(conn.sent)
        invariant whole == ServerAwait(c, View(AwaitBegin), conn.arrivals)
        decreases |conn.arrivals|
      {
        WaitingTurn(c, View(AwaitBegin), conn.arrivals);
        var ready := conn.SelectCall();
        if !ready {
          assert conn.sent == old(conn.sent) + [];
          return ServerFinished;
        }
        var w := conn.Take();
        ph := Begin(w);
        if ph != AwaitBegin {
          return;
        }
      }
    }

    /** One turn of the state loop of `file_name`. */
    method NameState(ph: ServerPhase) returns (next: ServerPhase)
      requires Valid() && Framed(conn.arrivals)
      requires ph in {Session.OpenFile, Session.GoodFile, Session.BadFile, SendNameAck, AwaitBegin}
      modifies `file, conn`sent, conn`arrivals, sendPkt, sendPkt.datagram, recvPkt, recvPkt.datagram
      ensures Valid() && sendPkt.datagram == old(sendPkt.datagram) && recvPkt.datagram == old(recvPkt.datagram)
      ensures var (t, out, rest) := NextOf(c, old(View(ph)), old(conn.arrivals));
              View(next) == t.(sender := None) && conn.sent == old(conn.sent) + out && conn.arrivals == rest
                && t.ph == next
    {
      hide Receive, Encode, ServerAwait, BeginTransfer, ServerHear, ServerTimeout;
      assert conn.sent == old(conn.sent) + [];
      match ph {
        case OpenFile => next := OpenFile();
        case GoodFile => next := GoodFile();
        case BadFile => next := BadFile();
        case SendNameAck =>
          conn.SendPkt(sendPkt);
          next := AwaitBegin;
        case AwaitBegin => next := FileBegin();
      }
    }

    lemma ViewIsUnstarted(ph: ServerPhase)
      requires Valid()
      ensures View(ph).ph == ph && View(ph).sender == None
    {
    }

    /** `file_name`, against anything: the state loop from opening the file to the transfer or the end. */
    method FileName() returns (ph: ServerPhase)
      requires Valid() && Framed(conn.arrivals)
      modifies `file, conn`sent, conn`arrivals, sendPkt, sendPkt.datagram, recvPkt, recvPkt.datagram
      ensures Valid()
      ensures var (t, out, rest) := ServerRun(c, old(View(Session.OpenFile)), old(conn.arrivals));
              View(ph) == t.(sender := None) && conn.sent == old(conn.sent) + out && conn.arrivals == rest
    {
      hide Receive, Encode, NextOf, ServerRun, EofTriesLeft, ServerRank, Leaves, Framed, ServerPass, View, Valid;
      ph := Session.OpenFile;
      ghost var s := View(ph);
      ViewIsUnstarted(ph);
      ghost var whole := ServerRun(c, s, conn.arrivals);
      ghost var out: seq<Wire> := [];
      NothingSentYet(c, s, conn.arrivals);
      while ph != Transferring && ph != Crashed && ph != ServerFinished
        invariant Valid() && Framed(conn.arrivals) && ServerOk(s) && NamePhases(ph) && s.ph == ph
        invariant sendPkt.datagram == old(sendPkt.datagram) && recvPkt.datagram == old(recvPkt.datagram)
        invariant View(ph) == s.(sender := None) && (!ServerStopped(s) ==> s.sender == None)
        invariant conn.sent == old(conn.sent) + out
        invariant Leaves(c, whole, out, s, conn.arrivals)
        decreases |conn.arrivals|, EofTriesLeft(s), ServerRank(s)
      {
        assert View(ph) == s;
        ghost var (t, now, rest) := NextOf(c, s, conn.arrivals);
        RunUnfolds(c, s, conn.arrivals);
        NextLeaves(c, whole, out, s, conn.arrivals);
        ph := NameState(ph);
        s, out := t, out + now;
      }
      StoppedLeaves(c, whole, out, s, conn.arrivals);
    }

    /** `create_file_eof` */
    method CreateFileEof() returns (ph: ServerPhase)
      requires Valid() && conn.seq_ + 1 < U32_LIMIT
      modifies conn`seq_, sendPkt, sendPkt.datagram
      ensures Valid() && sendPkt.datagram == old(sendPkt.datagram)
      ensures View(ph) == ServerPass(c, old(View(EofCreate))).0
    {
      hide Encode;
      conn.seq_ := conn.seq_ + 1;
      sendPkt.CreatePkt(conn.order, FILE_EOF, conn.seq_, []);
      return EofSend;
    }

    method WaitOnAck() returns (ph: ServerPhase)
      requires Valid() && Framed(conn.arrivals)
      modifies conn`arrivals, recvPkt, recvPkt.datagram
      ensures Valid() && recvPkt.datagram == old(recvPkt.datagram)
      ensures (View(ph), [], conn.arrivals) == ServerAwait(c, old(View(EofAwaitAck)), old(conn.arrivals))
    {
      hide Receive, Encode, BeginTransfer;
      ghost var whole := ServerAwait(c, View(EofAwaitAck), conn.arrivals);
      while true
        invariant Valid() && Framed(conn.arrivals) && recvPkt.datagram == old(recvPkt.datagram)
        invariant whole == ServerAwait(c, View(EofAwaitAck), conn.arrivals)
        decreases |conn.arrivals|
      {
        var ready := conn.SelectCall();
        if !ready {
          return EofTimeout;
        }
        var w := conn.Take();
        ghost var s := View(EofAwaitAck);
        var p := Recv(w);
        assert View(EofAwaitAck) == s;
        if p.Some? && p.value.seq_ == conn.seq_ {
          return ServerFinished;
        }
      }
    }

    method TimeoutOnAck() returns (ph: ServerPhase)
      requires Valid()
      modifies `numWait
      ensures Valid() && View(ph) == ServerPass(c, old(View(EofTimeout))).0
    {
      if numWait >= MAX_TRIES {
        return ServerFinished;
      }
      numWait := numWait + 1;
      return EofSend;
    }

    /** One turn of the state loop of `file_eof`. */
    method EofState(ph: ServerPhase) returns (next: ServerPhase)
      requires Valid() && Framed(conn.arrivals) && (ph == EofCreate ==> conn.seq_ + 1 < U32_LIMIT)
      requires ph in {EofCreate, EofSend, EofAwaitAck, EofTimeout}
      modifies `numWait, conn, sendPkt, sendPkt.datagram, recvPkt, recvPkt.datagram
      ensures Valid() && sendPkt.datagram == old(sendPkt.datagram) && recvPkt.datagram == old(recvPkt.datagram)
      ensures var (t, out, rest) := NextOf(c, old(View(ph)), old(conn.arrivals));
              View(next) == t && conn.sent == old(conn.sent) + out && conn.arrivals == rest
    {
      hide Receive, Encode, ServerAwait, BeginTransfer, ServerHear, ServerTimeout;
      assert conn.sent == old(conn.sent) + [];
      match ph {
        case EofCreate => next := CreateFileEof();
        case EofSend =>
          conn.SendPkt(sendPkt);
          next := EofAwaitAck;
        case EofAwaitAck => next := WaitOnAck();
        case EofTimeout => next := TimeoutOnAck();
      }
    }

    /** `file_eof`, against anything. */
    method FileEof() returns (ph: ServerPhase)
      requires Valid() && Framed(conn.arrivals) && conn.seq_ + 1 < U32_LIMIT
      modifies `numWait, conn, sendPkt, sendPkt.datagram, recvPkt, recvPkt.datagram
      ensures Valid()
      ensures var (t, out, rest) := ServerRun(c, old(View(EofCreate)), old(conn.arrivals));
              View(ph) == t && conn.sent == old(conn.sent) + out && conn.arrivals == rest
    {
      hide Receive, Encode, NextOf, ServerRun, EofTriesLeft, ServerRank;
      ph := EofCreate;
      ghost var whole := ServerRun(c, View(ph), conn.arrivals);
      ghost var out: seq<Wire> := [];
      NothingSentYet(c, View(ph), conn.arrivals);
      while ph != ServerFinished
        invariant Valid() && Framed(conn.arrivals) && EofPhases(ph) && (ph == EofCreate ==> conn.seq_ + 1 < U32_LIMIT)
        invariant sendPkt.datagram == old(sendPkt.datagram) && recvPkt.datagram == old(recvPkt.datagram)
        invariant conn.sent == old(conn.sent) + out
        invariant Leaves(c, whole, out, View(ph), conn.arrivals)
        decreases |conn.arrivals|, EofTriesLeft(View(ph)), ServerRank(View(ph))
      {
        ghost var (t, now, rest) := NextOf(c, View(ph), conn.arrivals);
        RunUnfolds(c, View(ph), conn.arrivals);
        NextLeaves(c, whole, out, View(ph), conn.arrivals);
        ph := EofState(ph);
        out := out + now;
      }
      StoppedLeaves(c, whole, out, View(ph), conn.arrivals);
    }
  }

  /** rcopy until it receives: `send_init_pkt`, `file_name` and `file_begin`. */
  class Starter {
    const c: Config
    const conn: Sock
    const sendPkt: Pkt
    const recvPkt: Pkt
    var numWait: nat
    var beginWaits: nat

    constructor (c: Config, conn: Sock)
      requires conn.order == c.clientOrder && conn.buffsize == c.buffsize && conn.seq_ == CLIENT_SEQ
      requires c.windowSize > 0 && HDR_LEN + c.buffsize < U32_LIMIT
      requires DATA_FILENAME_OFF + |c.name| + 1 <= c.buffsize
      ensures Valid() && this.c == c && this.conn == conn
      ensures View(SendInit) == ClientStart()
      ensures fresh(sendPkt) && fresh(recvPkt) && fresh(sendPkt.datagram) && fresh(recvPkt.datagram)
    {
      this.c, this.conn, this.numWait, this.beginWaits := c, conn, 0, 0;
      var p := new Pkt(conn.buffsize);
      var q := new Pkt(conn.buffsize);
      sendPkt, recvPkt := p, q;
    }

    ghost predicate Valid()
      reads conn, sendPkt, recvPkt
    {
      && conn.order == c.clientOrder && conn.buffsize == c.buffsize && conn.seq_ == CLIENT_SEQ
      && c.windowSize > 0 && DATA_FILENAME_OFF + |c.name| + 1 <= c.buffsize
      && sendPkt != recvPkt && sendPkt.datagram != recvPkt.datagram
      && sendPkt.datagram.Length == recvPkt.datagram.Length == HDR_LEN + c.buffsize < U32_LIMIT
    }

    /** What the session sees of rcopy in phase `ph` of its handshake. */
    ghost function View(ph: ClientPhase): Client
      reads this
    {
      Client(ph, numWait, beginWaits, None)
    }

    /** `create_init_pkt`: the payload is put together in a buffer of its own. */
    method CreateInitPkt()
      requires Valid()
      modifies sendPkt, sendPkt.datagram
      ensures Valid() && sendPkt.datagram == old(sendPkt.datagram)
      ensures sendPkt.datagramLen <= sendPkt.datagram.Length && sendPkt.Contents() == InitWire(c)
    {
      hide Encode;
      var nbuffsize, nwindowSize := NetworkBytes(c.buffsize), NetworkBytes(c.windowSize);
      var data := new byte[DATA_FILENAME_OFF + |c.name| + 1](_ => 0);
      forall i | 0 <= i < 4 { data[i] := nbuffsize[i]; }
      forall i | 0 <= i < 4 { data[DATA_WINDOW_SIZE_OFF + i] := nwindowSize[i]; }
      forall i | 0 <= i < |c.name| { data[DATA_FILENAME_OFF + i] := c.name[i]; }
      assert data[..] == InitData(c.buffsize, c.windowSize, c.name);
      sendPkt.CreatePkt(conn.order, FILE_NAME, conn.seq_, data[..]);
    }

    method SendInitPkt() returns (ph: ClientPhase)
      requires Valid()
      modifies conn`sent, sendPkt, sendPkt.datagram
      ensures Valid() && sendPkt.datagram == old(sendPkt.datagram)
      ensures (View(ph), conn.sent) == (ClientPass(c, old(View(SendInit))).0, old(conn.sent) + [InitWire(c)])
    {
      hide Encode, InitWire;
      CreateInitPkt();
      conn.SendPkt(sendPkt);
      return AwaitNameAck;
    }

    method Recv(w: Wire) returns (p: Option<Packet>)
      requires Valid() && |w| >= HDR_LEN
      modifies recvPkt, recvPkt.datagram
      ensures Valid() && recvPkt.datagram == old(recvPkt.datagram)
      ensures p == Receive(c.clientOrder, Truncate(w, c.buffsize))
    {
      hide Receive;
      var good := recvPkt.RecvPkt(conn.order, w);
      if !good {
        return None;
      }
      var data := recvPkt.datagram[HDR_LEN..recvPkt.datagramLen];
      assert data == recvPkt.Contents()[HDR_LEN..];
      return Some(Packet(recvPkt.flag, recvPkt.seq_, data));
    }

    method WaitOnAck() returns (ph: ClientPhase)
      requires Valid() && Framed(conn.arrivals)
      modifies conn`arrivals, recvPkt, recvPkt.datagram
      ensures Valid() && recvPkt.datagram == old(recvPkt.datagram)
      ensures (View(ph), conn.arrivals) == ClientAwait(c, old(View(AwaitNameAck)), old(conn.arrivals))
    {
      hide Receive, Encode;
      ghost var whole := ClientAwait(c, View(AwaitNameAck), conn.arrivals);
      while true
        invariant Valid() && Framed(conn.arrivals) && recvPkt.datagram == old(recvPkt.datagram)
        invariant whole == ClientAwait(c, View(AwaitNameAck), conn.arrivals)
        decreases |conn.arrivals|
      {
        var ready := conn.SelectCall();
        if !ready {
          return NameAckTimeout;
        }
        var w := conn.Take();
        var p := Recv(w);
        if p.Some? && p.value.seq_ == conn.seq_ && p.value.flag == FILE_NAME_ACK {
          return OpenRemote;
        }
      }
    }

    method TimeoutOnAck() returns (ph: ClientPhase)
      requires Valid()
      modifies `numWait
      ensures View(ph) == ClientPass(c, old(View(NameAckTimeout))).0
    {
      if numWait >= MAX_TRIES {
        return ClientFinished;
      }
      numWait := numWait + 1;
      return SendInit;
    }

    /** `file_begin`: asks to begin until it is told to, or has been met with silence ten times. */
    method FileBegin() returns (ph: ClientPhase)
      requires Valid() && Framed(conn.arrivals)
      modifies `beginWaits, conn`sent, conn`arrivals, sendPkt, sendPkt.datagram, recvPkt, recvPkt.datagram
      ensures Valid() && sendPkt.datagram == old(sendPkt.datagram) && recvPkt.datagram == old(recvPkt.datagram)
      ensures var (t, out, rest) := ClientRun(c, old(View(SendBegin)).(beginWaits := 0), old(conn.arrivals));
              View(ph) == t.(receiver := None) && conn.sent == old(conn.sent) + out && conn.arrivals == rest
    {
      hide Receive, Encode, ClientRun;
      beginWaits := 0;
      ghost var whole := ClientRun(c, View(SendBegin), conn.arrivals);
      ghost var out: seq<Wire> := [];
      assert out + whole.1 == whole.1;
      while beginWaits < MAX_TRIES
        invariant Valid() && Framed(conn.arrivals)
        invariant sendPkt.datagram == old(sendPkt.datagram) && recvPkt.datagram == old(recvPkt.datagram)
        invariant numWait == old(numWait)
        invariant conn.sent == old(conn.sent) + out
        invariant var (t, more, left) := ClientRun(c, View(SendBegin), conn.arrivals); whole == (t, out + more, left)
        decreases |conn.arrivals|, MAX_TRIES - beginWaits
      {
        BeginUnfolds(c, View(SendBegin), conn.arrivals);
        ghost var arrivals := conn.arrivals;
        ghost var next := BeginTurn(c, View(SendBegin), arrivals);
        ghost var more := ClientRun(c, next, Rest(arrivals)).1;
        assert out + ([BeginRequest(c)] + more) == out + [BeginRequest(c)] + more;
        out := out + [BeginRequest(c)];
        sendPkt.CreatePkt(conn.order, FILE_BEGIN, conn.seq_, []);
        conn.SendPkt(sendPkt);
        var ready := conn.SelectCall();
        if ready {
          var w := conn.Take();
          var p := Recv(w);
          if p.Some? && p.value.seq_ == conn.seq_ && p.value.flag == FILE_BEGIN_ACK {
            ClientRunStops(c, next, conn.arrivals);
            assert out + [] == out;
            return Receiving;
          }
        } else {
          beginWaits := beginWaits + 1;
        }
        assert View(SendBegin) == next;
      }
      BeginGivesUp(c, View(SendBegin), conn.arrivals);
      assert out + [] == out;
      return ClientFinished;
    }

    /** `good_file`; rcopy exits when the local file cannot be opened. */
    method GoodFile() returns (ph: ClientPhase)
      modifies `beginWaits
      ensures View(ph) == ClientPass(c, old(View(OpenLocal))).0
    {
      beginWaits := 0;
      return if c.localOpens then SendBegin else ClientFinished;
    }

    /** One turn of the state loops of `process_server` and `file_name`, before `file_begin`. */
    method NameState(ph: ClientPhase) returns (next: ClientPhase)
      requires Valid() && Framed(conn.arrivals)
      requires ph in {SendInit, AwaitNameAck, NameAckTimeout, OpenRemote, OpenLocal}
      modifies `numWait, `beginWaits, conn`sent, conn`arrivals, sendPkt, sendPkt.datagram, recvPkt, recvPkt.datagram
      ensures Valid() && sendPkt.datagram == old(sendPkt.datagram) && recvPkt.datagram == old(recvPkt.datagram)
      ensures var (t, out, rest) := ClientNext(c, old(View(ph)), old(conn.arrivals));
              View(next) == t && conn.sent == old(conn.sent) + out && conn.arrivals == rest
    {
      hide Receive, Encode, ClientAwait, InitWire;
      assert conn.sent == old(conn.sent) + [];
      match ph {
        case SendInit => next := SendInitPkt();
        case AwaitNameAck => next := WaitOnAck();
        case NameAckTimeout => next := TimeoutOnAck();
        case OpenRemote => next := OpenLocal;
        case OpenLocal => next := GoodFile();
      }
    }

    /** From the first packet to the transfer, or to giving up, against anything. */
    method Connect() returns (ph: ClientPhase)
      requires Valid() && Framed(conn.arrivals)
      modifies `numWait, `beginWaits, conn`sent, conn`arrivals, sendPkt, sendPkt.datagram, recvPkt, recvPkt.datagram
      ensures Valid()
      ensures var (t, out, rest) := ClientRun(c, old(View(SendInit)), old(conn.arrivals));
              View(ph) == t.(receiver := None) && conn.sent == old(conn.sent) + out && conn.arrivals == rest
    {
      hide Receive, Encode, ClientRun, ClientNext;
      ph := SendInit;
      ghost var whole := ClientRun(c, View(ph), conn.arrivals);
      ghost var out: seq<Wire> := [];
      assert out + whole.1 == whole.1;
      while ph != SendBegin && ph != ClientFinished
        invariant Valid() && Framed(conn.arrivals)
        invariant ph in {SendInit, AwaitNameAck, NameAckTimeout, OpenRemote, OpenLocal, SendBegin, ClientFinished}
        invariant ph == SendBegin ==> beginWaits == 0
        invariant sendPkt.datagram == old(sendPkt.datagram) && recvPkt.datagram == old(recvPkt.datagram)
        invariant conn.sent == old(conn.sent) + out
        invariant var (t, more, left) := ClientRun(c, View(ph), conn.arrivals); whole == (t, out + more, left)
        decreases |conn.arrivals|, ClientStage(View(ph)), ClientTriesLeft(View(ph)), ClientRank(View(ph))
      {
        ghost var (t, now, rest) := ClientNext(c, View(ph), conn.arrivals);
        ClientRunUnfolds(c, View(ph), conn.arrivals);
        ghost var more := ClientRun(c, t, rest).1;
        assert out + (now + more) == out + now + more;
        ph := NameState(ph);
        out := out + now;
      }
      if ph == SendBegin {
        ph := FileBegin();
      } else {
        ClientRunStops(c, View(ph), conn.arrivals);
        assert out + [] == out;
      }
    }
  }
}
