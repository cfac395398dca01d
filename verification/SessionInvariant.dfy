/** What every reachable state of a session satisfies. */
module SessionInvariant {
  import opened Bytes
  import opened Checksum
  import opened Codec
  import opened Chunks
  import opened InitPayload
  import opened Session
  import Ring
  import S = Sender
  import R = Receiver

  // ---------- the configurations the session is meant for ----------

  ghost predicate Good(c: Config) {
    && 1 <= c.buffsize <= MAX_BUFF_SIZE
    && 1 <= c.windowSize
    && NulFree(c.name)
    && DATA_FILENAME_OFF + |c.name| + 1 <= c.buffsize
    && |c.scratch| == c.buffsize
    && ChunkCount(c.buffsize, |Content(c)|) + c.windowSize < U32_LIMIT - 1
  }

  function Content(c: Config): seq<byte> {
    if c.name in c.files then c.files[c.name] else []
  }

  function Total(c: Config): nat
    requires c.buffsize > 0
  {
    ChunkCount(c.buffsize, |Content(c)|)
  }

  /** The length of the chunk numbered `q`. */
  function ChunkLen(c: Config): nat -> nat {
    (q: nat) => if q >= 1 then |Chunk(Content(c), c.buffsize, q)| else 0
  }

  // ---------- observations ----------

  function TopSent(s: State): nat {
    if s.server.sender.Some? then s.server.sender.value.win.topSent else 0
  }

  /** The number rcopy wants next. */
  function Wanted(s: State): nat {
    if s.client.receiver.Some? then s.client.receiver.value.win.rr else 1
  }

  predicate ServerDone(s: State) {
    s.server.sender.Some? && s.server.sender.value.st == S.SDone
  }

  /** rcopy left its transfer loop because FILE_EOF arrived. */
  predicate ClientDone(s: State) {
    s.client.receiver.Some? && s.client.receiver.value.st == R.CDone
  }

  function NameAckWire(c: Config): Wire { Encode(c.serverOrder, Packet(FILE_NAME_ACK, 0, [])) }

  function BeginWire(c: Config): Wire { Encode(c.clientOrder, Packet(FILE_BEGIN, CLIENT_SEQ, [])) }

  function BeginAckWire(c: Config): Wire { Encode(c.serverOrder, Packet(FILE_BEGIN_ACK, 0, [])) }

  function EofWire(c: Config): Wire { Encode(c.serverOrder, Packet(FILE_EOF, 1, [])) }

  // ---------- what may be on the network ----------

  /** The packets the server can have sent by state `s`. */
  ghost predicate ServerMaySend(c: Config, s: State, p: Packet) {
    || (p.flag == FILE_NAME_ACK && p.seq_ == 0 && p.data == [] && c.name in c.files)
    || (p.flag == FILE_NAME_ERR_ACK && p.seq_ == 0 && |p.data| == 4 && c.name !in c.files)
    || (p.flag == FILE_BEGIN_ACK && p.seq_ == 0 && p.data == [] && s.server.sender.Some?)
    || (p.flag == DATA && 1 <= p.seq_ <= TopSent(s) && p.data == Chunk(Content(c), c.buffsize, p.seq_))
    || (p.flag == FILE_EOF && p.seq_ == 1 && p.data == [] && ServerDone(s))
  }

  /** The packets rcopy can have sent by state `s`. */
  ghost predicate ClientMaySend(c: Config, s: State, p: Packet) {
    || (p.flag == FILE_NAME && p.seq_ == CLIENT_SEQ && p.data == InitData(c.buffsize, c.windowSize, c.name))
    || (p.flag == FILE_BEGIN && p.seq_ == CLIENT_SEQ && p.data == [] && c.name in c.files)
    || (p.flag == RR && p.data == [] && 2 <= p.seq_ <= Wanted(s) && TopSent(s) >= 1)
    || (p.flag == SREJ && p.data == [] && 1 <= p.seq_ <= Wanted(s) && TopSent(s) >= 1)
    || (p.flag == FILE_EOF_ACK && p.data == [] && p.seq_ == 1 && ClientDone(s))
  }

  ghost predicate FromServer(c: Config, s: State, w: Wire) {
    |w| >= HDR_LEN && w == Encode(c.serverOrder, Parse(w)) && ServerMaySend(c, s, Parse(w))
  }

  ghost predicate FromClient(c: Config, s: State, w: Wire) {
    |w| >= HDR_LEN && w == Encode(c.clientOrder, Parse(w)) && ClientMaySend(c, s, Parse(w))
  }

  ghost predicate NetworkInv(c: Config, s: State) {
    && (forall w :: w in s.toClient ==> FromServer(c, s, w))
    && (forall w :: w in s.toServer ==> FromClient(c, s, w))
  }

  // ---------- the two ends ----------

  /** The sender transfers the requested file, and no acknowledgement it knows of exceeds what rcopy wants. */
  ghost predicate SenderInv(c: Config, s: State, t: S.Sender) {
    && S.Inv(t) && t.st != S.SStuck
    && t.content == Content(c)
    && t.order == c.serverOrder
    && t.win.buffsize == c.buffsize
    && |t.win.states| == c.windowSize
    && t.win.bottom <= Wanted(s)
    && t.win.rr <= Wanted(s)
    && t.win.srej <= Wanted(s)
    && (t.win.rr > 0 ==> t.win.topSent >= 1)
  }

  ghost predicate ServerInv(c: Config, s: State) {
    var v := s.server;
    && ServerOk(v)
    && v.ph != Crashed
    && (v.ph != Listening ==> v.buffsize == c.buffsize && v.windowSize == c.windowSize && v.name == c.name)
    && (v.sender.Some? ==> c.name in c.files && SenderInv(c, s, v.sender.value))
    && match v.ph
       case Listening => v.sender.None? && v.seq_ == 0
       case OpenFile => v.sender.None? && v.seq_ == 0
       case GoodFile => v.sender.None? && v.seq_ == 0 && c.name in c.files && v.file == Some(Content(c))
       case BadFile => v.sender.None? && v.seq_ == 0 && c.name !in c.files && v.file == None
       case SendNameAck =>
         && v.sender.None? && v.seq_ == 0 && FileMatches(c, v.file)
         && FromServer(c, s, v.sendPkt)
         && (c.name in c.files ==> v.sendPkt == NameAckWire(c))
       case AwaitBegin => v.sender.None? && v.seq_ == 0 && FileMatches(c, v.file)
       case Transferring => v.sender.Some? && v.seq_ == 0
       case EofCreate => ServerDone(s) && v.seq_ == 0
       case EofSend => ServerDone(s) && v.seq_ == 1 && FromServer(c, s, v.sendPkt) && v.sendPkt == EofWire(c)
       case EofAwaitAck => ServerDone(s) && v.seq_ == 1 && FromServer(c, s, v.sendPkt) && v.sendPkt == EofWire(c)
       case EofTimeout => ServerDone(s) && v.seq_ == 1 && FromServer(c, s, v.sendPkt) && v.sendPkt == EofWire(c)
       case _ => true
  }

  ghost predicate FileMatches(c: Config, f: Option<seq<byte>>) {
    f == if c.name in c.files then Some(Content(c)) else None
  }

  /** rcopy has accepted exactly the chunks below the number it wants, all of which have been sent. */
  ghost predicate ReceiverInv(c: Config, s: State, r: R.Receiver) {
    && R.Inv(r, ChunkLen(c))
    && r.order == c.clientOrder
    && r.win.buffsize == c.buffsize
    && |r.win.states| == c.windowSize
    && r.win.rr <= TopSent(s) + 1
    && R.SimpleOf(r).accepted == Content(c)[..Off(c.buffsize, |Content(c)|, r.win.rr - 1)]
    && (R.SimpleOf(r).owed != R.Nothing ==> TopSent(s) >= 1)
    && (r.st == R.CSendRR ==> r.win.rr >= 2)
    && (r.st == R.CDone ==> ServerDone(s) && r.seq_ == 1)
  }

  ghost predicate ClientInv(c: Config, s: State) {
    var k := s.client;
    && ClientOk(k)
    && (k.receiver.Some? ==> c.localOpens && s.server.sender.Some? && ReceiverInv(c, s, k.receiver.value))
    && match k.ph
       case SendInit => k.receiver.None?
       case AwaitNameAck => k.receiver.None?
       case NameAckTimeout => k.receiver.None?
       case OpenRemote => k.receiver.None? && c.name in c.files && NameAckWire(c) in s.toClient
       case OpenLocal => k.receiver.None? && c.name in c.files && NameAckWire(c) in s.toClient
       case SendBegin => k.receiver.None? && c.localOpens && c.name in c.files && NameAckWire(c) in s.toClient
       case AwaitBeginAck => k.receiver.None? && c.localOpens && c.name in c.files && NameAckWire(c) in s.toClient
       case Receiving => k.receiver.Some?
       case SendEofAck => k.receiver.Some? && k.receiver.value.st == R.CDone
       case _ => true
  }

  /** Each handshake packet on the network has the one that must come before it. */
  ghost predicate HandshakeInv(c: Config, s: State) {
    && (BeginWire(c) in s.toServer ==> NameAckWire(c) in s.toClient)
    && (s.server.sender.Some? ==> BeginWire(c) in s.toServer && BeginAckWire(c) in s.toClient)
  }

  ghost predicate Inv(c: Config, s: State) {
    && StateOk(s)
    && NetworkInv(c, s)
    && ServerInv(c, s)
    && ClientInv(c, s)
    && HandshakeInv(c, s)
  }

  // ---------- arrivals ----------

  lemma ParseEncoded(o: Order, p: Packet)
    ensures |Encode(o, p)| >= HDR_LEN && Parse(Encode(o, p)) == p
  {
    ParseDatagram(p, Store16(o, InCksum(o, Datagram(p, [0, 0]))));
  }

  /** What a datagram that arrives decodes to was sent as it is; a damaged one does not decode. */
  lemma ArrivalWasSent(o: Order, o': Order, sent: seq<Wire>, limit: nat, w: Wire)
    requires forall v :: v in sent ==> |v| >= HDR_LEN && v == Encode(o, Parse(v)) && |Parse(v).data| <= limit
    requires Arrives(w, sent)
    ensures var p := Receive(o', Truncate(w, limit));
            p.Some? ==> Encode(o, p.value) in sent && Parse(Encode(o, p.value)) == p.value
  {
    hide Encode, Parse, InCksum;
    if w in sent {
      assert Truncate(w, limit) == w;
      ParseEncoded(o, Parse(w));
      RoundTrip(o, o', Parse(w));
    } else {
      var v :| v in sent && |w| <= |v|;
      ParseEncoded(o, Parse(v));
      assert |v| == HDR_LEN + |Parse(v).data|;
      assert Truncate(w, limit) == w;
      PassingIsOrderFree(o', Big, w);
    }
  }

  /** The damage the network may do includes flipping any one bit of what was sent, header and checksum
      field included, and changing any one word of it unless 0x0000 becomes 0xFFFF or the other way round. */
  lemma DamageArrives(o: Order, p: Packet, sent: seq<Wire>)
    requires Encode(o, p) in sent
    ensures forall i: nat :: i < 8 * (HDR_LEN + |p.data|) ==> Arrives(FlipBit(Encode(o, p), i), sent)
    ensures forall e, k: nat :: DifferWithinWord(Encode(o, p), e, k) && e != Encode(o, p) ==>
              Arrives(e, sent)
              || (WordAt(Big, Encode(o, p), k) == 0 && WordAt(Big, e, k) == 0xFFFF)
              || (WordAt(Big, Encode(o, p), k) == 0xFFFF && WordAt(Big, e, k) == 0)
  {
    hide Encode, FlipBit, InCksum, WordAt;
    var w := Encode(o, p);
    forall i: nat | i < 8 * (HDR_LEN + |p.data|) ensures Arrives(FlipBit(w, i), sent) {
      FlippedBitIsRejected(o, Big, p, i);
      assert |FlipBit(w, i)| == |w|;
    }
    forall e, k: nat | DifferWithinWord(w, e, k) && e != w
      ensures Arrives(e, sent) || (WordAt(Big, w, k) == 0 && WordAt(Big, e, k) == 0xFFFF)
              || (WordAt(Big, w, k) == 0xFFFF && WordAt(Big, e, k) == 0)
    {
      DamagedWordIsAcceptedIff(o, Big, p, e, k);
    }
  }

  lemma InitDataFits(c: Config)
    requires Good(c)
    ensures |InitData(c.buffsize, c.windowSize, c.name)| <= c.buffsize
  {
  }

  lemma ServerHearsOnlyClient(c: Config, s: State, w: Wire, limit: nat)
    requires Good(c) && NetworkInv(c, s) && Arrives(w, s.toServer) && limit >= c.buffsize
    ensures var p := Receive(c.serverOrder, Truncate(w, limit));
            p.Some? ==> ClientMaySend(c, s, p.value) && Encode(c.clientOrder, p.value) in s.toServer
  {
    hide Encode, Parse, Receive;
    forall v | v in s.toServer
      ensures |v| >= HDR_LEN && v == Encode(c.clientOrder, Parse(v)) && |Parse(v).data| <= limit
    {
      assert FromClient(c, s, v);
      InitDataFits(c);
    }
    ArrivalWasSent(c.clientOrder, c.serverOrder, s.toServer, limit, w);
    var p := Receive(c.serverOrder, Truncate(w, limit));
    if p.Some? {
      assert FromClient(c, s, Encode(c.clientOrder, p.value));
    }
  }

  lemma ClientHearsOnlyServer(c: Config, s: State, w: Wire)
    requires Good(c) && NetworkInv(c, s) && Arrives(w, s.toClient)
    ensures var p := Receive(c.clientOrder, Truncate(w, c.buffsize));
            p.Some? ==> ServerMaySend(c, s, p.value) && Encode(c.serverOrder, p.value) in s.toClient
  {
    hide Encode, Parse, Receive;
    forall v | v in s.toClient
      ensures |v| >= HDR_LEN && v == Encode(c.serverOrder, Parse(v)) && |Parse(v).data| <= c.buffsize
    {
      assert FromServer(c, s, v);
      var p := Parse(v);
      if p.flag == DATA {
        ReadIsChunk(Content(c), c.buffsize, p.seq_ - 1);
      }
    }
    ArrivalWasSent(c.serverOrder, c.clientOrder, s.toClient, c.buffsize, w);
    var p := Receive(c.clientOrder, Truncate(w, c.buffsize));
    if p.Some? {
      assert FromServer(c, s, Encode(c.serverOrder, p.value));
    }
  }

  // ---------- nothing on the network is ever taken back ----------

  ghost predicate Grows(s: State, t: State) {
    && TopSent(s) <= TopSent(t)
    && Wanted(s) <= Wanted(t)
    && (ServerDone(s) ==> ServerDone(t))
    && (ClientDone(s) ==> ClientDone(t))
    && (s.server.sender.Some? ==> t.server.sender.Some?)
  }

  lemma NetworkKept(c: Config, s: State, t: State, toClient: seq<Wire>, toServer: seq<Wire>)
    requires NetworkInv(c, s) && Grows(s, t)
    requires t.toClient == s.toClient + toClient && t.toServer == s.toServer + toServer
    requires forall w :: w in toClient ==> FromServer(c, t, w)
    requires forall w :: w in toServer ==> FromClient(c, t, w)
    ensures NetworkInv(c, t)
  {
    hide Encode, Parse;
    forall w | w in t.toClient ensures FromServer(c, t, w) {
      if w in s.toClient {
        assert FromServer(c, s, w);
      }
    }
    forall w | w in t.toServer ensures FromClient(c, t, w) {
      if w in s.toServer {
        assert FromClient(c, s, w);
      }
    }
  }

  lemma ClientKept(c: Config, s: State, t: State)
    requires ClientInv(c, s) && Grows(s, t) && t.client == s.client
    requires forall w :: w in s.toClient ==> w in t.toClient
    ensures ClientInv(c, t)
  {
    hide Encode, R.Inv, R.SimpleOf, Chunk, Off;
  }

  lemma ServerKept(c: Config, s: State, t: State)
    requires ServerInv(c, s) && Grows(s, t) && t.server == s.server
    ensures ServerInv(c, t)
  {
    hide Encode, Parse, S.Inv, Chunk, Off;
    assert FromServer(c, s, s.server.sendPkt) ==> FromServer(c, t, s.server.sendPkt);
  }

  lemma HandshakeKept(c: Config, s: State, t: State)
    requires HandshakeInv(c, s)
    requires forall w :: w in s.toClient ==> w in t.toClient
    requires t.toServer == s.toServer
    requires t.server.sender.Some? ==> s.server.sender.Some?
    ensures HandshakeInv(c, t)
  {
    hide Encode;
  }

  // ---------- the server's steps ----------

  /** The sender moves on from `v` to `u`, sending `out`. */
  lemma SenderMoves(c: Config, s: State, u: S.Sender, out: seq<Wire>) returns (t: State)
    requires Inv(c, s) && s.server.ph == Transferring && s.server.sender.value.st != S.SDone
    requires S.WellFormed(u) && s.server.sender.value.win.topSent <= u.win.topSent
    ensures t == s.(server := s.server.(sender := Some(u)), toClient := s.toClient + out)
    ensures SenderInv(c, s, u) && (forall w :: w in out ==> FromServer(c, t, w)) ==> Inv(c, t)
  {
    hide Encode, Parse, S.Inv, R.Inv, R.SimpleOf, Chunk, Off;
    t := s.(server := s.server.(sender := Some(u)), toClient := s.toClient + out);
    assert Grows(s, t);
    if SenderInv(c, s, u) && (forall w :: w in out ==> FromServer(c, t, w)) {
      assert SenderInv(c, t, u);
      NetworkKept(c, s, t, out, []);
      ClientKept(c, s, t);
      HandshakeKept(c, s, t);
    }
  }

  /** What a pass of the sender puts on the network are chunks under their own numbers. */
  lemma PassSendsChunks(c: Config, s: State, t: State, w: Wire)
    requires Good(c) && s.server.sender.Some? && SenderInv(c, s, s.server.sender.value)
    requires t.server.sender == Some(S.Pass(s.server.sender.value).0)
    requires w in S.Pass(s.server.sender.value).1
    ensures FromServer(c, t, w)
  {
    hide Encode, Parse, Chunk, Off, ChunkCount;
    var v := s.server.sender.value;
    S.SendKeepsInv(v);
    hide S.Inv;
    S.FullWiresAreLabelled(v, v.win.bottom, S.FilledTo(v), w);
    var q :| v.win.bottom <= q <= S.FilledTo(v) && w == S.LabelledWire(v, q);
    assert q < U32_LIMIT;
    ParseEncoded(c.serverOrder, Packet(DATA, S.Low32(q), Chunk(Content(c), c.buffsize, q)));
  }

  predicate SenderRuns(s: State) {
    && s.server.ph == Transferring && s.server.sender.Some?
    && s.server.sender.value.st !in {S.SDone, S.SFileName, S.SFinish, S.SStuck}
  }

  lemma SenderPassKeepsInv(c: Config, s: State, v: S.Sender)
    requires SenderInv(c, s, v)
    ensures SenderInv(c, s, S.Pass(v).0)
    ensures S.WellFormed(S.Pass(v).0) && v.win.topSent <= S.Pass(v).0.win.topSent
  {
    S.PassKeepsInv(v);
    S.PassKeepsParameters(v);
    hide S.Inv, S.Pass;
  }

  lemma SenderPasses(c: Config, s: State)
    requires Good(c) && Inv(c, s) && SenderRuns(s)
    ensures Inv(c, Next(c, s, ServerPasses))
  {
    hide S.Inv, S.Pass, R.Inv, R.SimpleOf, Encode, Parse, Chunk, Off;
    var v := s.server.sender.value;
    var (u, out) := S.Pass(v);
    SenderPassKeepsInv(c, s, v);
    var t := SenderMoves(c, s, u, out);
    assert t == Next(c, s, ServerPasses);
    forall w | w in out ensures FromServer(c, t, w) {
      PassSendsChunks(c, s, t, w);
    }
  }

  lemma ServerPassesElsewhere(c: Config, s: State)
    requires Good(c) && Inv(c, s) && !SenderRuns(s)
    ensures var t := Next(c, s, ServerPasses);
            && Grows(s, t) && t.client == s.client && t.toServer == s.toServer && t.server.sender == s.server.sender
            && t.toClient == s.toClient + ServerPass(c, s.server).1
            && ServerInv(c, t)
            && forall w :: w in ServerPass(c, s.server).1 ==> FromServer(c, t, w)
  {
    hide Encode, Parse, S.Inv, S.Pass, R.Inv, R.SimpleOf, Chunk, Off, NetworkBytes;
    var t := Next(c, s, ServerPasses);
    ParseEncoded(c.serverOrder, Packet(FILE_NAME_ACK, 0, []));
    ParseEncoded(c.serverOrder, Packet(FILE_NAME_ERR_ACK, 0, NetworkBytes(c.errno)));
    ParseEncoded(c.serverOrder, Packet(FILE_EOF, (s.server.seq_ + 1) % U32_LIMIT, []));
    assert Grows(s, t);
    assert FromServer(c, s, s.server.sendPkt) ==> FromServer(c, t, s.server.sendPkt);
  }

  lemma ServerPassesKeeps(c: Config, s: State)
    requires Good(c) && Inv(c, s)
    ensures Inv(c, Next(c, s, ServerPasses))
  {
    hide Encode, Parse, S.Inv, S.Pass, R.Inv, R.SimpleOf, Chunk, Off, ServerPass;
    var t := Next(c, s, ServerPasses);
    if SenderRuns(s) {
      SenderPasses(c, s);
    } else {
      ServerPassesElsewhere(c, s);
      hide Next;
      NetworkKept(c, s, t, ServerPass(c, s.server).1, []);
      ClientKept(c, s, t);
      HandshakeKept(c, s, t);
    }
  }

  lemma ServerTimesOutKeeps(c: Config, s: State)
    requires Good(c) && Inv(c, s)
    ensures Inv(c, Next(c, s, ServerTimesOut))
  {
    hide Encode, Parse, S.Pass, R.Inv, R.SimpleOf, Chunk, Off, ChunkCount;
    var t := Next(c, s, ServerTimesOut);
    if s.server.ph == Transferring && s.server.sender.value.st == S.SWaitOnResponse {
      S.PhaseIsIrrelevant(s.server.sender.value, S.STimeoutOnResponse, TopSent(s));
    }
    hide S.Loaded, S.AllSent;
    assert SenderStep(c, s, t);
    hide S.Inv;
    assert Grows(s, t);
    assert t.toClient == s.toClient + [] && t.toServer == s.toServer + [];
    assert FromServer(c, s, s.server.sendPkt) ==> FromServer(c, t, s.server.sendPkt);
    NetworkKept(c, s, t, [], []);
    ClientKept(c, s, t);
    HandshakeKept(c, s, t);
  }

  ghost predicate SenderStep(c: Config, s: State, t: State) {
    t.server.sender.Some? ==> SenderInv(c, s, t.server.sender.value)
  }

  lemma StartMatches(c: Config, s: State)
    requires Good(c) && c.name in c.files && Wanted(s) == 1
    ensures SenderInv(c, s, S.Start(c.windowSize, c.buffsize, Content(c), c.serverOrder))
  {
    S.StartInv(c.windowSize, c.buffsize, Content(c), c.serverOrder);
  }

  lemma ResponseKeepsSender(c: Config, s: State, p: Option<Packet>)
    requires Inv(c, s) && s.server.ph == Transferring && s.server.sender.value.st == S.SWaitOnResponse
    requires p.Some? ==> ClientMaySend(c, s, p.value)
    ensures SenderInv(c, s, S.Respond(s.server.sender.value, p))
  {
    hide R.Inv, R.SimpleOf, Encode, Parse, Chunk, Off;
    var v := s.server.sender.value;
    assert Wanted(s) <= TopSent(s) + 1;
    S.RespondKeepsInv(v, p);
    hide S.Inv;
  }

  /** What a step of the server has to show when it hears a datagram. */
  ghost predicate HeardWell(c: Config, s: State, t: State, out: seq<Wire>) {
    && Grows(s, t) && t.client == s.client && t.toServer == s.toServer && t.toClient == s.toClient + out
    && ServerInv(c, t)
    && (out != [] ==> out == [BeginAckWire(c)] && t.server.sender.Some?)
    && (t.server.sender.Some? && s.server.sender.None? ==> out == [BeginAckWire(c)] && BeginWire(c) in s.toServer)
  }

  /** A sender that waits hears a datagram. */
  lemma SenderHears(c: Config, s: State, w: Wire)
    requires Good(c) && Inv(c, s) && Arrives(w, s.toServer) && s.server.ph == Transferring
    ensures HeardWell(c, s, Next(c, s, ServerHears(w)), ServerHear(c, s.server, w).1)
  {
    hide Encode, Parse, Receive, S.Inv, S.Respond, R.Inv, R.SimpleOf, Chunk, Off, InitData, ChunkCount;
    var t := Next(c, s, ServerHears(w));
    ServerHearsOnlyClient(c, s, w, c.buffsize);
    if s.server.sender.value.st == S.SWaitOnResponse {
      ResponseKeepsSender(c, s, Receive(c.serverOrder, Truncate(w, c.buffsize)));
      RespondKeepsTopSent(s.server.sender.value, Receive(c.serverOrder, Truncate(w, c.buffsize)));
    }
  }

  /** A server that listens for a client, or is handshaking or closing, hears a datagram. */
  lemma ChildHears(c: Config, s: State, w: Wire)
    requires Good(c) && Inv(c, s) && Arrives(w, s.toServer) && s.server.ph != Transferring
    ensures HeardWell(c, s, Next(c, s, ServerHears(w)), ServerHear(c, s.server, w).1)
  {
    hide Encode, Parse, Receive, S.Inv, S.Start, R.Inv, R.SimpleOf, Chunk, Off, InitData, ChunkCount;
    hide NetworkBytes, GetBuffsize, GetWindowSize, GetFilename;
    var t := Next(c, s, ServerHears(w));
    assert FromServer(c, s, s.server.sendPkt) && Grows(s, t) ==> FromServer(c, t, s.server.sendPkt);
    if s.server.ph == Listening {
      ServerHearsOnlyClient(c, s, w, MAX_BUFF_SIZE);
      ParametersRoundTrip(c.buffsize, c.windowSize, c.name, []);
      assert InitData(c.buffsize, c.windowSize, c.name) + [] == InitData(c.buffsize, c.windowSize, c.name);
    } else if s.server.ph == AwaitBegin {
      ServerHearsOnlyClient(c, s, w, c.buffsize);
      if t.server.ph != AwaitBegin && t.server.ph != OpenFile {
        StartMatches(c, s);
        StartSendsNothing(c);
      }
    }
  }

  lemma StartSendsNothing(c: Config)
    requires Good(c)
    ensures S.Start(c.windowSize, c.buffsize, Content(c), c.serverOrder).win.topSent == 0
    ensures S.Start(c.windowSize, c.buffsize, Content(c), c.serverOrder).st == S.SFillWindow
  {
  }

  /** What hearing a datagram does to the server, in every phase. */
  lemma ServerHearsLocally(c: Config, s: State, w: Wire)
    requires Good(c) && Inv(c, s) && Arrives(w, s.toServer)
    ensures HeardWell(c, s, Next(c, s, ServerHears(w)), ServerHear(c, s.server, w).1)
  {
    hide Inv, HeardWell, Next, ServerHear, Arrives;
    if s.server.ph == Transferring {
      SenderHears(c, s, w);
    } else {
      ChildHears(c, s, w);
    }
  }

  lemma RespondKeepsTopSent(v: S.Sender, p: Option<Packet>)
    requires S.WellFormed(v)
    ensures S.Respond(v, p).win.topSent == v.win.topSent
  {
  }

  lemma ServerHearsKeeps(c: Config, s: State, w: Wire)
    requires Good(c) && Inv(c, s) && Arrives(w, s.toServer)
    ensures Inv(c, Next(c, s, ServerHears(w)))
  {
    hide Encode, Parse, S.Inv, R.Inv, R.SimpleOf, Chunk, Off, ServerHear;
    var t := Next(c, s, ServerHears(w));
    var out := ServerHear(c, s.server, w).1;
    ServerHearsLocally(c, s, w);
    hide Next;
    ParseEncoded(c.serverOrder, Packet(FILE_BEGIN_ACK, 0, []));
    assert out != [] ==> FromServer(c, t, BeginAckWire(c));
    assert t.toServer == s.toServer + [];
    NetworkKept(c, s, t, out, []);
    ClientKept(c, s, t);
  }

  // ---------- rcopy's steps ----------

  /** What any step of rcopy has to show. */
  lemma ClientMoves(c: Config, s: State, t: State, out: seq<Wire>)
    requires Good(c) && Inv(c, s)
    requires t.server == s.server && t.toClient == s.toClient && t.toServer == s.toServer + out
    requires Wanted(s) <= Wanted(t) && (ClientDone(s) ==> ClientDone(t)) && ClientInv(c, t)
    requires forall w :: w in out ==> FromClient(c, t, w)
    requires BeginWire(c) in out ==> NameAckWire(c) in s.toClient
    ensures Inv(c, t)
  {
    hide Encode, Parse, S.Inv, R.Inv, R.SimpleOf, Chunk, Off;
    assert Grows(s, t);
    assert t.toClient == s.toClient + [];
    NetworkKept(c, s, t, [], out);
    ServerKept(c, s, t);
  }

  lemma ClientTimesOutKeeps(c: Config, s: State)
    requires Good(c) && Inv(c, s)
    ensures Inv(c, Next(c, s, ClientTimesOut))
  {
    hide Encode, Parse, S.Inv, R.Inv, R.SimpleOf, Chunk, Off;
    var t := Next(c, s, ClientTimesOut);
    if s.client.receiver.Some? && s.client.receiver.value.st == R.CWaitOnData {
      R.GivingUpKeepsInv(s.client.receiver.value, ChunkLen(c));
    }
    assert ClientInv(c, t);
    assert t.toServer == s.toServer + [];
    hide Next, Inv, ClientInv;
    ClientMoves(c, s, t, []);
  }

  lemma AcceptedGrows(c: Config, q: nat)
    requires q >= 1
    ensures Content(c)[..Off(c.buffsize, |Content(c)|, q - 1)] + Chunk(Content(c), c.buffsize, q)
            == Content(c)[..Off(c.buffsize, |Content(c)|, q)]
  {
    NextChunkExtendsPrefix(Content(c), c.buffsize, q - 1);
  }

  /** A datagram that may be on the network leaves the receiver with a longer prefix, or none the wiser. */
  lemma HearingKeepsReceiver(c: Config, s: State, w: Wire)
    requires Good(c) && Inv(c, s) && Arrives(w, s.toClient)
    requires s.client.receiver.Some? && s.client.receiver.value.st == R.CWaitOnData
    ensures var u := R.Hear(s.client.receiver.value, w);
            ReceiverInv(c, s, u) && Wanted(s) <= u.win.rr
  {
    hide Encode, Parse, Receive, S.Inv, Chunk, Off, R.Hear, R.Unwritten, ServerInv, HandshakeInv, ChunkCount;
    var r := s.client.receiver.value;
    ClientHearsOnlyServer(c, s, w);
    SenderNeverRunsAhead(c, s);
    R.AnswersToData(r, w);
    assert R.Consistent(R.Heard(r, w), ChunkLen(c));
    R.HearSimulates(r, w, ChunkLen(c));
    R.DoneTakesNumber(r, w);
    AcceptedGrows(c, r.win.rr);
    var u := R.Hear(r, w);
    assert R.SimpleOf(u).rr == u.win.rr && R.SimpleOf(r).rr == r.win.rr;
    assert R.SimpleOf(u).done <==> u.st == R.CDone;
    hide R.Inv, R.SimpleOf, R.Hear;
  }

  lemma ReceiverStarts(c: Config, s: State)
    requires Good(c)
    ensures var r := R.Start(c.windowSize, c.scratch, c.clientOrder);
            s.server.sender.Some? ==> ReceiverInv(c, s, r)
  {
    R.StartInv(c.windowSize, c.scratch, c.clientOrder, ChunkLen(c));
    assert Off(c.buffsize, |Content(c)|, 0) == 0;
  }

  lemma ClientHearsLocally(c: Config, s: State, w: Wire)
    requires Good(c) && Inv(c, s) && Arrives(w, s.toClient)
    ensures var t := Next(c, s, ClientHears(w));
            && ClientOk(t.client) && ClientInv(c, t) && Wanted(s) <= Wanted(t) && (ClientDone(s) ==> ClientDone(t))
  {
    hide Encode, Parse, Receive, S.Inv, R.Inv, R.SimpleOf, R.Hear, R.Start, Chunk, Off, ChunkCount;
    hide ServerInv, HandshakeInv;
    ClientHearsOnlyServer(c, s, w);
    hide NetworkInv;
    ReceiverStarts(c, s);
    StartWants(c);
    if s.client.ph == Receiving && s.client.receiver.value.st == R.CWaitOnData {
      HearingKeepsReceiver(c, s, w);
    }
  }

  lemma StartWants(c: Config)
    requires Good(c)
    ensures R.Start(c.windowSize, c.scratch, c.clientOrder).win.rr == 1
  {
  }

  lemma ClientHearsKeeps(c: Config, s: State, w: Wire)
    requires Good(c) && Inv(c, s) && Arrives(w, s.toClient)
    ensures Inv(c, Next(c, s, ClientHears(w)))
  {
    hide ClientHear, Encode, Parse;
    var t := Next(c, s, ClientHears(w));
    assert t.server == s.server && t.toClient == s.toClient && t.toServer == s.toServer + [];
    ClientHearsLocally(c, s, w);
    hide Next, Inv, ClientInv;
    ClientMoves(c, s, t, []);
  }

  predicate ReceiverRuns(s: State) {
    && s.client.ph == Receiving && s.client.receiver.Some?
    && s.client.receiver.value.st !in {R.CDone, R.CFinish}
  }

  /** A pass of the receiver: the reply it may send acknowledges nothing it has not accepted. */
  lemma PassKeepsReceiver(c: Config, s: State)
    requires Good(c) && Inv(c, s) && ReceiverRuns(s)
    ensures var r := s.client.receiver.value;
            var (u, out) := R.Pass(r);
            && R.WellFormed(u) && ReceiverInv(c, s, u) && u.win.rr == r.win.rr >= 1
            && (TopSent(s) >= 1 || out == [])
            && (forall w :: w in out ==>
                  || (w == R.ControlWire(c.clientOrder, RR, r.win.rr) && r.win.rr >= 2)
                  || w == R.ControlWire(c.clientOrder, SREJ, r.win.rr))
  {
    hide Encode, Parse, S.Inv, Chunk, Off, R.Pass, ChunkCount, R.ControlWire, R.Unwritten;
    hide NetworkInv, ServerInv, HandshakeInv;
    var r := s.client.receiver.value;
    var u := R.Pass(r).0;
    R.PassSimulates(r, ChunkLen(c));
    assert R.SimpleOf(u).rr == u.win.rr && R.SimpleOf(r).rr == r.win.rr;
    PassNeverFinishes(r);
  }

  lemma ControlIsFromClient(c: Config, s: State, flag: byte, q: nat)
    requires (flag == RR && q >= 2) || (flag == SREJ && q >= 1)
    requires q <= Wanted(s) && TopSent(s) >= 1 && q < U32_LIMIT
    ensures FromClient(c, s, R.ControlWire(c.clientOrder, flag, q))
    ensures R.ControlWire(c.clientOrder, flag, q) != BeginWire(c)
  {
    hide Encode, Parse;
    ParseEncoded(c.clientOrder, Packet(flag, q, []));
    ParseEncoded(c.clientOrder, Packet(FILE_BEGIN, CLIENT_SEQ, []));
  }

  lemma ReceiverPasses(c: Config, s: State)
    requires Good(c) && Inv(c, s) && ReceiverRuns(s)
    ensures Inv(c, Next(c, s, ClientPasses))
  {
    hide Encode, Parse, S.Inv, R.Inv, R.SimpleOf, Chunk, Off, R.Pass, ChunkCount, R.ControlWire;
    var r := s.client.receiver.value;
    var out := R.Pass(r).1;
    var t := Next(c, s, ClientPasses);
    hide NetworkInv, ServerInv, HandshakeInv;
    PassKeepsReceiver(c, s);
    assert ClientInv(c, t);
    SenderNeverRunsAhead(c, s);
    if TopSent(s) >= 1 {
      if r.win.rr >= 2 {
        ControlIsFromClient(c, t, RR, r.win.rr);
      }
      ControlIsFromClient(c, t, SREJ, r.win.rr);
    }
    hide Next, Inv, ClientInv;
    ClientMoves(c, s, t, out);
  }

  lemma PassNeverFinishes(r: R.Receiver)
    requires R.WellFormed(r) && r.st != R.CDone
    ensures R.Pass(r).0.st != R.CDone
  {
  }

  lemma SenderNeverRunsAhead(c: Config, s: State)
    requires Good(c) && Inv(c, s)
    ensures TopSent(s) <= Total(c) && Wanted(s) <= TopSent(s) + 1
  {
    hide NetworkInv, HandshakeInv, R.Inv, R.SimpleOf, ChunkCount, Chunk, Off, Encode, S.StateOf, S.WireOf;
  }

  lemma ClientPassesElsewhere(c: Config, s: State)
    requires Good(c) && Inv(c, s) && !ReceiverRuns(s)
    ensures var t := Next(c, s, ClientPasses);
            var out := ClientPass(c, s.client).1;
            && Wanted(s) <= Wanted(t) && (ClientDone(s) ==> ClientDone(t)) && ClientInv(c, t)
            && (forall w :: w in out ==> FromClient(c, t, w))
            && (BeginWire(c) in out ==> NameAckWire(c) in s.toClient)
  {
    hide Encode, Parse, S.Inv, R.Inv, R.SimpleOf, Chunk, Off, R.Pass, InitData, NetworkInv, ServerInv, HandshakeInv;
    ParseEncoded(c.clientOrder, Packet(FILE_NAME, CLIENT_SEQ, InitData(c.buffsize, c.windowSize, c.name)));
    ParseEncoded(c.clientOrder, Packet(FILE_BEGIN, CLIENT_SEQ, []));
    if s.client.receiver.Some? {
      ParseEncoded(c.clientOrder, Packet(FILE_EOF_ACK, s.client.receiver.value.seq_ % U32_LIMIT, []));
    }
  }

  lemma ClientPassesKeeps(c: Config, s: State)
    requires Good(c) && Inv(c, s)
    ensures Inv(c, Next(c, s, ClientPasses))
  {
    if ReceiverRuns(s) {
      ReceiverPasses(c, s);
    } else {
      hide ClientPass, Encode, Parse;
      var t := Next(c, s, ClientPasses);
      var out := ClientPass(c, s.client).1;
      ClientPassesElsewhere(c, s);
      hide Next, Inv, ClientInv;
      ClientMoves(c, s, t, out);
    }
  }

  // ---------- every run ----------

  lemma InitialInv(c: Config)
    ensures Inv(c, Initial())
  {
  }

  lemma NextKeeps(c: Config, s: State, e: Event)
    requires Good(c) && Inv(c, s) && Enabled(s, e)
    ensures Inv(c, Next(c, s, e))
  {
    hide NetworkInv, ServerInv, ClientInv, HandshakeInv, Next;
    match e
    case ServerPasses => ServerPassesKeeps(c, s);
    case ServerHears(w) => ServerHearsKeeps(c, s, w);
    case ServerTimesOut => ServerTimesOutKeeps(c, s);
    case ClientPasses => ClientPassesKeeps(c, s);
    case ClientHears(w) => ClientHearsKeeps(c, s, w);
    case ClientTimesOut => ClientTimesOutKeeps(c, s);
  }

  lemma {:induction false} RunKeeps(c: Config, s: State, es: seq<Event>)
    requires Good(c) && Inv(c, s) && Legal(c, s, es)
    ensures Inv(c, Exec(c, s, es))
    decreases es
  {
    hide NetworkInv, HandshakeInv, Next, S.Inv, R.Inv, R.SimpleOf;
    if es != [] {
      NextKeeps(c, s, es[0]);
      RunKeeps(c, Next(c, s, es[0]), es[1..]);
    }
  }
}
