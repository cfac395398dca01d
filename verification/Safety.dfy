/** What holds in every run of a session. */
module Safety {
  import opened Bytes
  import opened Codec
  import opened Chunks
  import opened Session
  import opened SessionInvariant
  import Resend
  import SenderLoop
  import ReceiverLoop
  import Ring
  import S = Sender
  import R = Receiver

  /** Some run leads from the start of the session to `s`. */
  ghost predicate Reachable(c: Config, s: State) {
    exists es :: Legal(c, Initial(), es) && s == Exec(c, Initial(), es)
  }

  lemma ReachableInv(c: Config, s: State)
    requires Good(c) && Reachable(c, s)
    ensures Inv(c, s)
  {
    hide Inv;
    InitialInv(c);
    var es :| Legal(c, Initial(), es) && s == Exec(c, Initial(), es);
    RunKeeps(c, Initial(), es);
  }

  // ---------- the file ----------

  /** However the network behaves: when rcopy's transfer ends with FILE_EOF, its output is the server's file. */
  lemma TransferIsFaithful(c: Config, s: State)
    requires Good(c) && Reachable(c, s)
    requires ClientDone(s)
    ensures c.name in c.files
    ensures s.client.receiver.value.out == c.files[c.name]
  {
    hide Reachable, S.Inv, R.Inv, Chunk, Encode, Parse, NetworkInv, HandshakeInv;
    ReachableInv(c, s);
    SenderNeverRunsAhead(c, s);
    DoneMeansAllAcknowledged(c, s);
    var r := s.client.receiver.value;
    assert R.Unwritten(r) == [];
    assert R.SimpleOf(r).accepted == r.out + [];
    AllChunksAreTheFile(Content(c), c.buffsize, r.win.rr - 1);
  }

  lemma DoneMeansAllAcknowledged(c: Config, s: State)
    requires Good(c) && Inv(c, s) && ServerDone(s)
    ensures TopSent(s) == Total(c) && Wanted(s) == Total(c) + 1
  {
    hide S.Inv, R.Inv, R.SimpleOf, NetworkInv, HandshakeInv, ChunkCount;
    SenderNeverRunsAhead(c, s);
    S.DoneMeansAllSent(s.server.sender.value);
  }

  /** The chunks in the output file: those below the number wanted, except between the moment a chunk is
      acknowledged and the moment it is written. */
  function WrittenChunks(r: R.Receiver): int {
    if (r.st == R.CSendRR || r.st == R.CWriteData) && r.win.rr == r.win.bottom + 1 then r.win.rr - 2 else r.win.rr - 1
  }

  /** At any moment of any run, also one that is given up, the output file holds the first chunks of the
      server's file, in order, none missing and none twice. */
  lemma OutputIsPrefix(c: Config, s: State)
    requires Good(c) && Reachable(c, s)
    requires s.client.receiver.Some?
    ensures var r := s.client.receiver.value;
            && WrittenChunks(r) >= 0
            && r.out == ChunksUpTo(Content(c), c.buffsize, WrittenChunks(r))
            && (r.st == R.CWaitOnData ==> WrittenChunks(r) == r.win.rr - 1)
  {
    hide Reachable, S.Inv, Encode, Parse, NetworkInv, HandshakeInv, ServerInv;
    ReachableInv(c, s);
    var r := s.client.receiver.value;
    var k := WrittenChunks(r);
    assert 1 <= r.win.bottom <= r.win.rr;
    ChunksConcatenate(Content(c), c.buffsize, k);
    if k == r.win.rr - 2 {
      var b := r.win.bottom;
      assert R.StateOf(r, b) == Ring.Full && R.LenOf(r, b) == ChunkLen(c)(b);
      assert |R.Unwritten(r)| == |Chunk(Content(c), c.buffsize, b)|;
      NextChunkExtendsPrefix(Content(c), c.buffsize, b - 1);
      hide R.Inv, Chunk, R.Unwritten;
      var written := Content(c)[..Off(c.buffsize, |Content(c)|, b - 1)];
      SameLengthSuffix(r.out, R.Unwritten(r), written, Chunk(Content(c), c.buffsize, b));
    } else {
      assert R.Unwritten(r) == [];
      assert R.SimpleOf(r).accepted == r.out + [];
    }
  }

  lemma SameLengthSuffix(x: seq<byte>, y: seq<byte>, x': seq<byte>, y': seq<byte>)
    requires x + y == x' + y' && |y| == |y'|
    ensures x == x'
  {
    assert x == (x + y)[..|x|];
    assert x' == (x' + y')[..|x'|];
  }

  /** Every DATA datagram the server ever sends, resent or not, carries the bytes its number stands for. */
  lemma DataIsLabelled(c: Config, s: State, w: Wire)
    requires Good(c) && Reachable(c, s)
    requires w in s.toClient && |w| >= HDR_LEN && Parse(w).flag == DATA
    ensures var q := Parse(w).seq_;
            var file := Content(c);
            && c.name in c.files
            && 1 <= q <= Total(c)
            && (q - 1) * c.buffsize == Off(c.buffsize, |file|, q - 1) < |file|
            && Parse(w).data == Chunk(file, c.buffsize, q)
            && w == Encode(c.serverOrder, Parse(w))
  {
    hide Reachable, S.Inv, R.Inv, R.SimpleOf, Encode, Parse;
    ReachableInv(c, s);
    SenderNeverRunsAhead(c, s);
    assert FromServer(c, s, w);
    var q := Parse(w).seq_;
    OffAtCount(c.buffsize, |Content(c)|, q - 1);
  }

  // ---------- the two windows ----------

  /** The server never takes out of its window a frame rcopy has not accepted, and rcopy never wants
      more than one number past what has been sent; no acknowledgement is ahead of rcopy. */
  lemma WindowsOverlap(c: Config, s: State)
    requires Good(c) && Reachable(c, s) && s.server.sender.Some?
    ensures s.server.sender.value.win.bottom <= Wanted(s) <= TopSent(s) + 1
    ensures forall w :: w in s.toServer && |w| >= HDR_LEN && Parse(w).flag in {RR, SREJ} ==> Parse(w).seq_ <= Wanted(s)
  {
    hide Reachable, S.Inv, R.Inv, R.SimpleOf, Encode, Parse;
    ReachableInv(c, s);
    SenderNeverRunsAhead(c, s);
    forall w | w in s.toServer && |w| >= HDR_LEN && Parse(w).flag in {RR, SREJ} ensures Parse(w).seq_ <= Wanted(s) {
      assert FromClient(c, s, w);
    }
  }

  /** When rcopy waits, its window reaches at least as far as the server's, and no chunk that arrives
      intact goes unanswered. */
  lemma GoodDataIsAnswered(c: Config, s: State, w: Wire)
    requires Good(c) && Reachable(c, s)
    requires s.client.receiver.Some? && s.client.receiver.value.st == R.CWaitOnData
    requires Arrives(w, s.toClient)
    ensures var r := s.client.receiver.value;
            && s.server.sender.Some?
            && r.win.top >= s.server.sender.value.win.top
            && (R.Heard(r, w).Some? && R.Heard(r, w).value.flag == DATA ==>
                  R.Hear(r, w).st == if R.Heard(r, w).value.seq_ <= r.win.rr then R.CSendRR else R.CSendSREJ)
  {
    hide Reachable, R.SimpleOf, NetworkInv, HandshakeInv, Encode, Chunk, Off, ChunkCount, S.StateOf, S.WireOf, Receive;
    ReachableInv(c, s);
    ClientHearsOnlyServer(c, s, w);
    var r := s.client.receiver.value;
    assert r.win.bottom == r.win.rr;
    assert TopSent(s) <= s.server.sender.value.win.top by {
      hide R.Inv, R.SimpleOf, NetworkInv, HandshakeInv, Encode, Chunk, Off, ChunkCount, S.StateOf, S.WireOf;
    }
  }

  /** Whenever the server waits for a response, the frames it has read and not yet taken out of its window
      are sent and hold their chunks, and the rest of the window is empty; what it has read is the whole
      window or the whole file, and it knows of the end of the file exactly if the window reaches past it.  The
      window starts at the highest number asked for. */
  lemma SenderWindowWhenWaiting(c: Config, s: State, q: nat)
    requires Good(c) && Reachable(c, s)
    requires s.server.sender.Some? && s.server.sender.value.st == S.SWaitOnResponse
    requires var w := s.server.sender.value.win; 1 <= w.bottom <= q <= w.top
    ensures var v := s.server.sender.value;
            var n := Min(v.win.top, Total(c));
            && v.win.bottom == Max(v.win.rr, v.win.srej)
            && v.win.top == v.win.bottom + c.windowSize - 1
            && v.win.topSent == n
            && v.pos == Off(c.buffsize, |Content(c)|, n)
            && (v.win.eof <==> v.win.top * c.buffsize > |Content(c)|)
            && S.StateOf(v, q) == (if q <= n then Ring.Sent else Ring.Empty)
            && (q <= n ==> S.WireOf(v, q) == S.DataWire(c.serverOrder, q, Chunk(Content(c), c.buffsize, q)))
  {
    hide Reachable, R.Inv, R.SimpleOf, NetworkInv, HandshakeInv, Encode, Chunk, Off, ChunkCount;
    ReachableInv(c, s);
    var v := s.server.sender.value;
    assert q <= v.win.topSent ==> S.WireOf(v, q) == S.LabelledWire(v, q);
  }

  /** In the event `e` rcopy hears data numbered `q` early, past the chunk it wants and inside its window. */
  ghost predicate HearsEarly(s: State, e: Event, q: nat)
    requires Enabled(s, e)
  {
    && e.ClientHears? && s.client.ph == Receiving && s.client.receiver.Some?
    && s.client.receiver.value.st == R.CWaitOnData && R.HearsEarly(s.client.receiver.value, e.w, q)
  }

  ghost predicate HeardEarly(c: Config, s: State, es: seq<Event>, q: nat)
    requires StateOk(s) && Legal(c, s, es)
    decreases es
  {
    es != [] && (HearsEarly(s, es[0], q) || HeardEarly(c, Next(c, s, es[0]), es[1..], q))
  }

  /** Frame `q` is inside rcopy's window and full. */
  ghost predicate IsFull(s: State, q: nat)
    requires StateOk(s)
  {
    && s.client.receiver.Some?
    && q <= s.client.receiver.value.win.top && R.StateOf(s.client.receiver.value, q) == Ring.Full
  }

  /** One event fills the frame of an early chunk, and no other past the chunk wanted. */
  lemma EventFills(c: Config, s: State, e: Event, q: nat)
    requires Good(c) && Inv(c, s) && Enabled(s, e) && StateOk(s)
    ensures var t := Next(c, s, e);
            && Wanted(s) <= Wanted(t)
            && (q > Wanted(t) ==> (IsFull(t, q) <==> IsFull(s, q) || HearsEarly(s, e, q)))
  {
    hide Inv, R.Pass, R.Hear, R.Start, R.StateOf, Receive, Encode, ServerPass, ServerHear, ServerTimeout;
    StartsEmpty(c, q);
    StartWants(c);
    if s.client.receiver.Some? {
      var r := s.client.receiver.value;
      ReceiverIsInInv(c, s);
      R.PassFillsNothing(r, q, ChunkLen(c));
      SameFramesOnTimeout(r, q);
      if e.ClientHears? && s.client.ph == Receiving && r.st == R.CWaitOnData {
        HearingKeepsReceiver(c, s, e.w);
        R.HearingKeepsPlace(r, e.w);
        R.HearingFills(r, e.w, q, ChunkLen(c));
      }
    }
  }

  lemma ReceiverIsInInv(c: Config, s: State)
    requires Inv(c, s) && s.client.receiver.Some?
    ensures R.Inv(s.client.receiver.value, ChunkLen(c))
    ensures s.client.ph in {Receiving, SendEofAck, ClientFinished}
  {
    hide NetworkInv, ServerInv, HandshakeInv, R.Inv, R.SimpleOf, Encode;
  }

  lemma SameFramesOnTimeout(r: R.Receiver, q: nat)
    requires R.WellFormed(r)
    ensures R.StateOf(r.(st := R.CTimeoutOnData), q) == R.StateOf(r, q)
  {
  }

  lemma StartsEmpty(c: Config, q: nat)
    requires Good(c)
    ensures R.StateOf(R.Start(c.windowSize, c.scratch, c.clientOrder), q) == Ring.Empty
  {
  }

  lemma {:induction false} FullIffHeardEarly(c: Config, s: State, es: seq<Event>, q: nat)
    requires Good(c) && Inv(c, s) && StateOk(s) && Legal(c, s, es)
    ensures var t := Exec(c, s, es);
            && Wanted(s) <= Wanted(t)
            && (q > Wanted(t) ==> (IsFull(t, q) <==> IsFull(s, q) || HeardEarly(c, s, es, q)))
    decreases es
  {
    hide Inv, Next, IsFull, HearsEarly, Enabled;
    if es != [] {
      NextKeeps(c, s, es[0]);
      EventFills(c, s, es[0], q);
      FullIffHeardEarly(c, Next(c, s, es[0]), es[1..], q);
    }
  }

  /** rcopy's window when it waits, after the events `es`: it starts at the number wanted, and a frame past that
      is full exactly if its chunk has been heard early, and empty if not; a full frame has its chunk's length. */
  lemma ReceiverWindowWhenWaiting(c: Config, es: seq<Event>, q: nat)
    requires Good(c) && Legal(c, Initial(), es)
    requires var s := Exec(c, Initial(), es);
             && s.client.receiver.Some? && s.client.receiver.value.st == R.CWaitOnData
             && var w := s.client.receiver.value.win; 1 <= w.bottom <= q <= w.top
    ensures var r := Exec(c, Initial(), es).client.receiver.value;
            && r.win.bottom == r.win.rr && r.win.srej <= r.win.rr
            && r.win.top == r.win.rr + c.windowSize - 1
            && (R.StateOf(r, q) == Ring.Empty || R.StateOf(r, q) == Ring.Full)
            && (q > r.win.rr ==> (R.StateOf(r, q) == Ring.Full <==> HeardEarly(c, Initial(), es, q)))
            && (R.StateOf(r, q) == Ring.Full ==> R.LenOf(r, q) == |Chunk(Content(c), c.buffsize, q)|)
  {
    hide Reachable, S.Inv, R.SimpleOf, NetworkInv, HandshakeInv, Encode, Chunk, Off, ChunkCount, R.StateOf, R.LenOf;
    hide HeardEarly;
    var s := Exec(c, Initial(), es);
    InitialInv(c);
    RunKeeps(c, Initial(), es);
    FullIffHeardEarly(c, Initial(), es, q);
  }

  /** In every run, an RR or SREJ heard by a waiting server has, one pass later, ended the transfer, if the end of
      the file is known and more is acknowledged than was sent, or moved the window to the number asked for
      unless it starts further on already. */
  lemma EveryAnswerMovesWindow(c: Config, s: State, w: Wire)
    requires Good(c) && Reachable(c, s) && Arrives(w, s.toServer)
    requires s.server.ph == Transferring && s.server.sender.Some? && s.server.sender.value.st == S.SWaitOnResponse
    requires var p := Receive(c.serverOrder, Truncate(w, c.buffsize));
             p.Some? && (p.value.flag == RR || p.value.flag == SREJ)
    ensures StateOk(s)
    ensures var v := s.server.sender.value;
            var p := Receive(c.serverOrder, Truncate(w, c.buffsize)).value;
            var t := Next(c, Next(c, s, ServerHears(w)), ServerPasses);
            && (ServerDone(t) <==> v.win.eof && Resend.AckedBy(v, p) > v.win.topSent)
            && t.server.sender.Some?
            && (!ServerDone(t) ==>
                  && t.server.sender.value.win.bottom == Max(v.win.bottom, p.seq_)
                  && t.server.sender.value.win.top == Max(v.win.bottom, p.seq_) + c.windowSize - 1)
  {
    hide Reachable, S.Inv, S.Respond, S.AdjustWindow, R.Inv, R.SimpleOf, Encode, Parse, Receive, NetworkInv, HandshakeInv;
    ReachableInv(c, s);
    SenderNeverRunsAhead(c, s);
    ServerHearsOnlyClient(c, s, w, c.buffsize);
    var v := s.server.sender.value;
    var p := Receive(c.serverOrder, Truncate(w, c.buffsize)).value;
    Resend.AnswerMovesWindow(v, p);
    Resend.AnswerPasses(v, p);
  }

  // ---------- what is sent again ----------

  /** A pass of the server over its window puts on the network the chunks it has never sent, in order and once
      each, and with them all outstanding ones exactly if nothing valid has been heard since a timeout. */
  lemma OnlyTimeoutsResend(c: Config, s: State)
    requires Good(c) && Reachable(c, s)
    requires s.server.ph == Transferring && s.server.sender.Some? && s.server.sender.value.st == S.SSendWindow
    ensures StateOk(s)
    ensures var v := s.server.sender.value;
            var from := if v.win.numWait == 0 then v.win.topSent + 1 else v.win.bottom;
            && 1 <= from <= v.win.topSent + 1
            && Next(c, s, ServerPasses).toClient ==
               s.toClient + Resend.ChunkWires(v, from, Min(v.win.top, Total(c)))
  {
    hide Reachable, R.Inv, R.SimpleOf, NetworkInv, HandshakeInv, Encode, Chunk, Off, ChunkCount, S.StateOf, S.WireOf;
    hide S.SendWindow, Resend.ChunkWires;
    ReachableInv(c, s);
    Resend.PassSendsExactly(s.server.sender.value);
  }

  // ---------- arithmetic ----------

  /** No 32-bit computation on either end's window wraps around. */
  lemma NothingWraps(c: Config, s: State)
    requires Good(c) && Reachable(c, s)
    ensures s.server.sender.Some? ==> Ring.FitsU32(s.server.sender.value.win)
    ensures s.client.receiver.Some? ==> Ring.FitsU32(s.client.receiver.value.win)
  {
    hide Reachable, R.SimpleOf, NetworkInv, HandshakeInv, Encode, Chunk, Off, ChunkCount;
    hide S.StateOf, S.WireOf, R.StateOf, R.LenOf;
    ReachableInv(c, s);
    SenderNeverRunsAhead(c, s);
    if s.client.receiver.Some? {
      var r := s.client.receiver.value;
      assert r.win.srej <= r.win.bottom <= r.win.rr;
    }
  }

  lemma TameInInv(c: Config, s: State, w: Wire)
    requires Good(c) && Inv(c, s)
    ensures Arrives(w, s.toServer) ==> SenderLoop.Tame([Came(w)], c.serverOrder, c.buffsize, c.windowSize)
    ensures Arrives(w, s.toClient) ==> ReceiverLoop.Tame([Came(w)], c.clientOrder, c.buffsize, c.windowSize)
  {
    hide S.Inv, R.Inv, R.SimpleOf, Encode, Parse, Receive, ChunkCount;
    SenderNeverRunsAhead(c, s);
    if Arrives(w, s.toServer) {
      ServerHearsOnlyClient(c, s, w, c.buffsize);
    }
    if Arrives(w, s.toClient) {
      ClientHearsOnlyServer(c, s, w);
    }
  }

  /** Nothing that can reach either end asks it to compute a number that wraps. */
  lemma ArrivalsAreTame(c: Config, s: State, w: Wire)
    requires Good(c) && Reachable(c, s)
    ensures Arrives(w, s.toServer) ==> SenderLoop.Tame([Came(w)], c.serverOrder, c.buffsize, c.windowSize)
    ensures Arrives(w, s.toClient) ==> ReceiverLoop.Tame([Came(w)], c.clientOrder, c.buffsize, c.windowSize)
  {
    hide Reachable, Inv, Arrives, Receive;
    ReachableInv(c, s);
    TameInInv(c, s, w);
  }

  // ---------- the handshake ----------

  /** rcopy is in its transfer loop only after a FILE_BEGIN_ACK, which needs a FILE_BEGIN, which needs a
      FILE_NAME_ACK, which needs the file to have been opened; and both ends agree on the parameters. */
  lemma HandshakeOrder(c: Config, s: State)
    requires Good(c) && Reachable(c, s)
    ensures s.client.ph == Receiving ==> BeginAckWire(c) in s.toClient
    ensures BeginAckWire(c) in s.toClient ==> BeginWire(c) in s.toServer
    ensures BeginWire(c) in s.toServer ==> NameAckWire(c) in s.toClient
    ensures NameAckWire(c) in s.toClient ==> c.name in c.files
    ensures s.server.ph == Transferring ==>
              && s.server.sender.Some? && c.name in c.files && s.server.sender.value.content == c.files[c.name]
              && s.server.buffsize == c.buffsize && s.server.windowSize == c.windowSize && s.server.name == c.name
    ensures s.server.ph != Crashed
  {
    hide Reachable, S.Inv, R.Inv, R.SimpleOf, Encode, Parse;
    ReachableInv(c, s);
    ParseEncoded(c.serverOrder, Packet(FILE_BEGIN_ACK, 0, []));
    ParseEncoded(c.serverOrder, Packet(FILE_NAME_ACK, 0, []));
    assert BeginAckWire(c) in s.toClient ==> FromServer(c, s, BeginAckWire(c));
    assert NameAckWire(c) in s.toClient ==> FromServer(c, s, NameAckWire(c));
  }

  // ---------- the file that cannot be copied ----------

  /** An empty file is never transferred to the end: nothing is sent, so nothing is acknowledged, and the
      server never finds `rr` above the highest number sent. */
  lemma EmptyFileNeverCompletes(c: Config, s: State)
    requires Good(c) && Reachable(c, s)
    requires Content(c) == []
    ensures !ServerDone(s) && !ClientDone(s)
  {
    hide Reachable, R.Inv, R.SimpleOf, NetworkInv, HandshakeInv, Encode, Chunk, Off, ChunkCount, S.StateOf, S.WireOf;
    ReachableInv(c, s);
    OnlyEmptyFilesHaveNoChunks(c.buffsize, 0);
    SenderNeverRunsAhead(c, s);
  }

  lemma LocalFileWasOpened(c: Config, s: State)
    requires Good(c) && Reachable(c, s)
    requires ClientDone(s)
    ensures c.localOpens
  {
    hide Reachable, S.Inv, R.Inv, R.SimpleOf, Encode, Parse;
    ReachableInv(c, s);
  }
}
