/** What can end the server's transfer or its close before its time.

`wait_on_ack` of the server looks at the number of what it hears and not at its kind, and `wait_on_response`
takes anything but an acknowledgement for the end.  Here is exactly what of that can happen in a session. */
module EarlyEnds {
  import opened Bytes
  import opened Codec
  import opened Chunks
  import opened InitPayload
  import opened Session
  import opened SessionInvariant
  import opened Safety
  import opened Progress
  import opened Completion
  import Ring
  import S = Sender
  import R = Receiver

  /** What the server makes of the datagram `w`. */
  function ServerDecodes(c: Config, w: Wire): Option<Packet>
    requires |w| >= HDR_LEN
  {
    Receive(c.serverOrder, Truncate(w, c.buffsize))
  }

  // ---------- the close ----------

  /** Hearing `w` ends the server's wait for FILE_EOF_ACK. */
  ghost predicate EndsClose(c: Config, s: State, w: Wire)
    requires StateOk(s)
  {
    Arrives(w, s.toServer) && s.server.ph == EofAwaitAck && Next(c, s, ServerHears(w)).server.ph == ServerFinished
  }

  predicate IsEofAck(c: Config, w: Wire) {
    |w| >= HDR_LEN && var p := ServerDecodes(c, w); p.Some? && p.value.flag == FILE_EOF_ACK
  }

  function SrejWire(c: Config): Wire {
    R.ControlWire(c.clientOrder, SREJ, 1)
  }

  /** Of all that can arrive while the server waits for the end to be acknowledged, exactly FILE_EOF_ACK and a
      late SREJ of the first chunk end the wait. */
  lemma CloseEndsIff(c: Config, s: State, w: Wire)
    requires Good(c) && Reachable(c, s) && s.server.ph == EofAwaitAck && Arrives(w, s.toServer)
    ensures StateOk(s)
    ensures EndsClose(c, s, w) <==>
            var p := ServerDecodes(c, w);
            p.Some? && p.value.seq_ == 1 && (p.value.flag == FILE_EOF_ACK || p.value.flag == SREJ)
  {
    hide Reachable, S.Inv, R.Inv, R.SimpleOf, Encode, Parse, Receive, NetworkInv, HandshakeInv, InitData;
    ReachableInv(c, s);
    hide ClientInv;
    ServerHearsOnlyClient(c, s, w, c.buffsize);
  }

  /** The close can end on something else than an acknowledgement of the end exactly if rcopy has asked for the
      first chunk by SREJ; if it has not, rcopy has the file when the close ends. */
  lemma CloseIsAcknowledgedIff(c: Config, s: State)
    requires Good(c) && Reachable(c, s) && s.server.ph == EofAwaitAck
    ensures StateOk(s)
    ensures (exists w :: EndsClose(c, s, w) && !IsEofAck(c, w)) <==> SrejWire(c) in s.toServer
    ensures SrejWire(c) !in s.toServer ==> forall w :: EndsClose(c, s, w) ==> ClientDone(s)
  {
    hide Reachable, S.Inv, R.Inv, R.SimpleOf, Encode, Parse, Receive, Inv, EndsClose, IsEofAck;
    ReachableInv(c, s);
    InvIsOk(c, s);
    forall w | EndsClose(c, s, w) ensures if IsEofAck(c, w) then ClientDone(s) else SrejWire(c) in s.toServer {
      ClosedBy(c, s, w);
    }
    if SrejWire(c) in s.toServer {
      SrejEndsClose(c, s);
    }
  }

  lemma InvIsOk(c: Config, s: State)
    requires Inv(c, s)
    ensures StateOk(s)
  {
  }

  lemma ClosedBy(c: Config, s: State, w: Wire)
    requires Good(c) && Reachable(c, s) && StateOk(s) && EndsClose(c, s, w)
    ensures if IsEofAck(c, w) then ClientDone(s) else SrejWire(c) in s.toServer
  {
    CloseEndsIff(c, s, w);
    hide Reachable, S.Inv, R.Inv, R.SimpleOf, Encode, Parse, Receive, HandshakeInv, InitData, Next;
    ReachableInv(c, s);
    hide ClientInv, ServerInv;
    ServerHearsOnlyClient(c, s, w, c.buffsize);
    hide NetworkInv;
    var p := ServerDecodes(c, w);
    if p.value.flag != FILE_EOF_ACK {
      assert p.value == Packet(SREJ, 1, []);
    }
  }

  lemma SrejEndsClose(c: Config, s: State)
    requires Good(c) && Reachable(c, s) && StateOk(s) && s.server.ph == EofAwaitAck && SrejWire(c) in s.toServer
    ensures EndsClose(c, s, SrejWire(c)) && !IsEofAck(c, SrejWire(c))
  {
    var w := SrejWire(c);
    HeardAsSent(c.clientOrder, c.serverOrder, Packet(SREJ, 1, []), c.buffsize);
    hide Encode;
    assert Arrives(w, s.toServer);
    CloseEndsIff(c, s, w);
  }

  /** rcopy receives the second chunk before the first and asks for the first. */
  lemma SecondChunkFirst(c: Config, s: State) returns (t: State)
    requires Good(c) && Reachable(c, s) && Inv(c, s) && Listens(s) && Wanted(s) == 1 && c.windowSize >= 2
    requires ChunkWire(c, 2) in s.toClient && TopSent(s) >= 2
    ensures Reachable(c, t) && Listens(t) && t.server == s.server && SrejWire(c) in t.toServer
  {
    hide Reachable, S.Inv, Encode, Parse, R.WriteFrom, R.AdjustWindow, Chunk, Off, ChunkCount, Receive;
    var w := ChunkWire(c, 2);
    var r := s.client.receiver.value;
    var p := Packet(DATA, 2, Chunk(Content(c), c.buffsize, 2));
    ReadIsChunk(Content(c), c.buffsize, 1);
    HeardAsSent(c.serverOrder, c.clientOrder, p, c.buffsize);
    assert R.Heard(r, w) == Some(p);
    var h := R.Hear(r, w);
    assert h.st == R.CSendSREJ && h.win.rr == 1;
    ReachableNext(c, s, ClientHears(w));
    var s1 := Next(c, s, ClientHears(w));
    ReachableNext(c, s1, ClientPasses);
    t := Next(c, s1, ClientPasses);
    assert t.toServer == s1.toServer + [SrejWire(c)];
  }

  /** The first window is sent, and whatever of it arrives, a timeout follows. */
  lemma TimedOut(c: Config, s: State) returns (t: State)
    requires Good(c) && Reachable(c, s) && Inv(c, s) && Listens(s)
    requires s.server.ph == Transferring && s.server.sender.Some?
    requires s.server.sender.value.st == S.SWaitOnResponse && s.server.sender.value.win.numWait < MAX_TRIES
    ensures Reachable(c, t) && Ready(c, t) && t.toServer == s.toServer
    ensures Bottom(t) == Bottom(s) && t.client == s.client
  {
    hide Reachable, Ready, S.Inv, Encode, R.Inv, R.SimpleOf, NetworkInv, HandshakeInv, Legal, Exec, Ring.RefillFrom;
    ReachableNext(c, s, ServerTimesOut);
    var u := Next(c, s, ServerTimesOut);
    ReachableInv(c, u);
    TimeoutMakesReady(c, u);
    ReachableNext(c, u, ServerPasses);
    t := Next(c, u, ServerPasses);
  }

  /** A session in which the close ends although rcopy still waits for data and has never acknowledged the end:
      any file of two chunks or more, under a window of two frames or more. */
  lemma CloseCanEndEarly(c: Config) returns (t: State)
    requires Good(c) && c.name in c.files && c.localOpens && c.windowSize >= 2 && Total(c) >= 2
    ensures Reachable(c, t) && t.server.ph == ServerFinished && ServerDone(t)
    ensures Listens(t) && !ClientDone(t)
    ensures forall w :: w in t.toServer ==> |w| >= HDR_LEN && Parse(w).flag != FILE_EOF_ACK
  {
    hide Reachable, Ready, Inv, Leads, Next, ChunkWire, ChunkCount, Encode, Parse;
    var s := FirstWindowIsReady(c);
    OnlyEmptyFilesHaveNoChunks(c.buffsize, |Content(c)|);
    var s1 := FirstWindowIsSent(c, s);
    var s2 := SecondChunkFirst(c, s1);
    ReachableInv(c, s2);
    var s3 := TimedOut(c, s2);
    assert Bottom(s3) == 1;
    var s4 := ServerFinishes(c, s3);
    t := LateSrejIsHeard(c, s4);
    NoEofAck(c, t);
  }

  lemma FirstWindowIsSent(c: Config, s: State) returns (t: State)
    requires Good(c) && Reachable(c, s) && Ready(c, s) && Bottom(s) == 1 && Wanted(s) == 1
    requires s.server.sender.Some? && s.server.sender.value.win.numWait == 0
    requires c.windowSize >= 2 && Total(c) >= 2
    ensures Reachable(c, t) && Inv(c, t) && Listens(t) && Wanted(t) == 1 && Bottom(t) == 1
    ensures t.server.ph == Transferring && t.server.sender.Some?
    ensures t.server.sender.value.st == S.SWaitOnResponse && t.server.sender.value.win.numWait == 0
    ensures ChunkWire(c, 2) in t.toClient && TopSent(t) >= 2
  {
    hide Reachable, Ready, Inv, Leads, ChunkWire, ChunkCount, Encode;
    ReadyIsOk(c, s);
    WindowIsSent(c, s);
    WindowShape(c, s);
    NumWaitIsKept(c, s);
    ReachableThen(c, s, [ServerPasses], Next(c, s, ServerPasses));
    t := Next(c, s, ServerPasses);
  }

  lemma NumWaitIsKept(c: Config, s: State)
    requires Ready(c, s) && StateOk(s)
    ensures s.server.sender.Some? && Next(c, s, ServerPasses).server.sender.Some?
    ensures Next(c, s, ServerPasses).server.sender.value.win.numWait == s.server.sender.value.win.numWait
  {
    hide R.Inv, R.SimpleOf, NetworkInv, HandshakeInv, Encode;
    S.SendFromKeepsParameters(s.server.sender.value, s.server.sender.value.win.bottom);
  }

  lemma LateSrejIsHeard(c: Config, s: State) returns (t: State)
    requires Good(c) && Reachable(c, s) && ServerDone(s) && s.server.ph == Transferring && Listens(s)
    requires SrejWire(c) in s.toServer
    ensures Reachable(c, t) && t.server.ph == ServerFinished && ServerDone(t) && Listens(t)
  {
    hide Reachable, S.Inv, R.Inv, R.SimpleOf, NetworkInv, HandshakeInv, Encode, EofWire, SrejWire, S.Pass;
    ReachableInv(c, s);
    ReachableNext(c, s, ServerPasses);
    var s1 := Next(c, s, ServerPasses);
    ReachableNext(c, s1, ServerPasses);
    var s2 := Next(c, s1, ServerPasses);
    ReachableNext(c, s2, ServerPasses);
    var s3 := Next(c, s2, ServerPasses);
    SrejEndsClose(c, s3);
    ReachableNext(c, s3, ServerHears(SrejWire(c)));
    t := Next(c, s3, ServerHears(SrejWire(c)));
    ReachableInv(c, t);
  }

  lemma NoEofAck(c: Config, s: State)
    requires Good(c) && Reachable(c, s) && !ClientDone(s)
    ensures forall w :: w in s.toServer ==> |w| >= HDR_LEN && Parse(w).flag != FILE_EOF_ACK
  {
    hide Reachable, S.Inv, R.Inv, R.SimpleOf, ServerInv, ClientInv, HandshakeInv, Encode, Parse;
    ReachableInv(c, s);
    forall w | w in s.toServer ensures |w| >= HDR_LEN && Parse(w).flag != FILE_EOF_ACK {
      assert FromClient(c, s, w);
    }
  }

  // ---------- the transfer ----------

  /** Of all that can arrive while the server waits for a response, exactly FILE_NAME and FILE_BEGIN end the
      transfer unfinished: FILE_NAME starts it over, and FILE_BEGIN finishes the server. */
  lemma TransferIsInterruptedIff(c: Config, s: State, w: Wire)
    requires Good(c) && Reachable(c, s) && Arrives(w, s.toServer)
    requires s.server.ph == Transferring && s.server.sender.Some? && s.server.sender.value.st == S.SWaitOnResponse
    ensures var t := Next(c, s, ServerHears(w));
            var u := Next(c, t, ServerPasses);
            var p := ServerDecodes(c, w);
            && t.server.sender.Some?
            && (t.server.sender.value.st == S.SFileName <==> p.Some? && p.value.flag == FILE_NAME)
            && (t.server.sender.value.st == S.SFinish <==> p.Some? && p.value.flag == FILE_BEGIN)
            && (u.server.ph == Restarted <==> p.Some? && p.value.flag == FILE_NAME)
            && (u.server.ph == ServerFinished <==> p.Some? && p.value.flag == FILE_BEGIN)
  {
    hide Reachable, S.Inv, R.Inv, R.SimpleOf, Encode, Parse, Receive, NetworkInv, HandshakeInv, InitData, S.Pass;
    ReachableInv(c, s);
    ServerHearsOnlyClient(c, s, w, c.buffsize);
    assert ClientDone(s) ==> ServerDone(s);
  }

  /** A FILE_BEGIN heard once more during the transfer ends it: any file can be lost this way. */
  lemma RepeatedBeginEndsTransfer(c: Config) returns (t: State)
    requires Good(c) && c.name in c.files && c.localOpens
    ensures Reachable(c, t) && t.server.ph == ServerFinished && !ServerDone(t) && Listens(t)
  {
    hide Reachable, Ready, Inv, Leads, Encode, Receive;
    var s := FirstWindowIsReady(c);
    ReadyIsOk(c, s);
    ReadyBegan(c, s);
    WindowIsSent(c, s);
    ReachableThen(c, s, [ServerPasses], Next(c, s, ServerPasses));
    var s1 := Next(c, s, ServerPasses);
    HeardAsSent(c.clientOrder, c.serverOrder, Packet(FILE_BEGIN, CLIENT_SEQ, []), c.buffsize);
    InvIsOk(c, s1);
    ReachableNext(c, s1, ServerHears(BeginWire(c)));
    var s2 := Next(c, s1, ServerHears(BeginWire(c)));
    SameBuffsize(c, s1);
    ReachableNext(c, s2, ServerPasses);
    t := Next(c, s2, ServerPasses);
  }

  lemma ReadyBegan(c: Config, s: State)
    requires Ready(c, s)
    ensures BeginWire(c) in s.toServer
  {
    hide NetworkInv, S.Inv, R.Inv, R.SimpleOf, Encode;
  }

  lemma SameBuffsize(c: Config, s: State)
    requires Inv(c, s) && s.server.ph == Transferring
    ensures s.server.buffsize == c.buffsize
  {
    hide NetworkInv, S.Inv, R.Inv, R.SimpleOf, Encode;
  }
}
