/** Recovery after loss, what rounds achieve in which only the last acknowledgement of a window is
    heard, and which files can be copied at all. */
module Completion {
  import opened Bytes
  import opened Codec
  import opened Chunks
  import opened InitPayload
  import opened Session
  import opened SessionInvariant
  import opened Safety
  import opened Progress
  import opened FileEnd
  import P = Projection
  import SenderLoop
  import Ring
  import S = Sender
  import R = Receiver

  // ---------- recovery ----------

  /** After a timeout with tries left, whatever was lost: once the window is sent again and delivered, rcopy
      wants the number after the highest sent, and when it says so the server is done or has moved its
      window there. */
  lemma TimeoutRecovers(c: Config, s: State) returns (t: State, u: State)
    requires Good(c) && Reachable(c, s) && Listens(s)
    requires s.server.ph == Transferring && s.server.sender.Some?
    requires s.server.sender.value.st == S.STimeoutOnResponse && s.server.sender.value.win.numWait < MAX_TRIES
    requires Bottom(s) <= TopSent(s)
    ensures 1 <= Bottom(s)
    ensures Leads(c, s, [ServerPasses] + ([ServerPasses] + DeliverChunks(c, Bottom(s), TopSent(s))), t)
    ensures Wanted(t) == TopSent(s) + 1 && TopSent(t) == TopSent(s)
    ensures Leads(c, t, [ServerHears(RRWire(c, TopSent(s) + 1)), ServerPasses], u)
    ensures Wanted(u) == TopSent(s) + 1
    ensures ServerDone(u) || Bottom(u) == TopSent(s) + 1
  {
    hide Legal, Exec, ChunkWire, RRWire, Reachable, Inv, Ready;
    ReachableInv(c, s);
    TimeoutMakesReady(c, s);
    var r := Next(c, s, ServerPasses);
    hide Next;
    t := WindowIsAcknowledged(c, r);
    LeadsThen(c, s, [ServerPasses], r, WindowEvents(c, r), t);
    u := ServerSlides(c, t);
  }

  lemma TimeoutMakesReady(c: Config, s: State)
    requires Good(c) && Inv(c, s) && Listens(s)
    requires s.server.ph == Transferring && s.server.sender.Some?
    requires s.server.sender.value.st == S.STimeoutOnResponse && s.server.sender.value.win.numWait < MAX_TRIES
    ensures var t := Next(c, s, ServerPasses);
            && Leads(c, s, [ServerPasses], t) && Ready(c, t)
            && Bottom(t) == Bottom(s) >= 1 && Reach(c, t) == TopSent(t) == TopSent(s) && Wanted(t) == Wanted(s)
  {
    hide R.Inv, R.SimpleOf, Encode, Chunk, Off, ChunkCount, NetworkInv, HandshakeInv, Legal, Exec;
    LeadsOne(c, s, ServerPasses);
    NextKeeps(c, s, ServerPasses);
    S.TimeoutKeepsInv(s.server.sender.value);
  }

  // ---------- rounds ----------

  /** `t` is where `k` rounds lead from `s`: in each the window is sent, every chunk of it delivered once, and
      of the acknowledgements only that of the last one heard, once.  When the server has nothing to send
      there are no more rounds.  See `LossFree` for what is so when the others are heard as well. */
  ghost predicate AfterLastAckRounds(c: Config, s: State, k: nat, t: State)
    requires c.buffsize > 0
  {
    if k == 0 then t == s
    else exists u :: AfterLastAckRounds(c, s, k - 1, u) && LastAckRound(c, u, t)
  }

  ghost predicate LastAckRound(c: Config, u: State, t: State)
    requires c.buffsize > 0
  {
    if Ready(c, u) && 1 <= Bottom(u) <= Reach(c, u) then Leads(c, u, RoundEvents(c, u), t) else t == u
  }

  /** The chunks in `k` windows, or all there are. */
  function InWindows(c: Config, k: nat): nat
    requires c.buffsize > 0
  {
    Min(k * c.windowSize, Total(c))
  }

  /** Whether the file fills a number of windows to the last byte. */
  predicate FillsWindows(c: Config)
    requires c.buffsize > 0 && c.windowSize > 0
  {
    |Content(c)| % (c.windowSize * c.buffsize) == 0
  }

  /** The bytes in `k` whole windows. */
  function BytesIn(c: Config, k: nat): nat {
    k * (c.windowSize * c.buffsize)
  }

  /** What `k` rounds have achieved.  As long as `k` windows end within the file the server has moved past
      them; then all is accepted, and the server is done unless the file fills its windows, when it is left
      with nothing to send. */
  ghost predicate Delivered(c: Config, k: nat, t: State)
    requires c.buffsize > 0 && c.windowSize > 0
  {
    && Wanted(t) == InWindows(c, k) + 1
    && if BytesIn(c, k) <= |Content(c)| || FillsWindows(c) then
         Ready(c, t) && Asked(c, t) && Bottom(t) == Wanted(t)
       else ServerDone(t)
  }

  lemma ChunksInWindows(c: Config, k: nat)
    requires c.buffsize > 0 && c.windowSize > 0
    ensures BytesIn(c, 0) == 0 && InWindows(c, 0) == 0
    ensures BytesIn(c, k) == (k * c.windowSize) * c.buffsize
    ensures BytesIn(c, k) < |Content(c)| <==> k * c.windowSize < Total(c)
    ensures BytesIn(c, k) == |Content(c)| ==> k * c.windowSize == Total(c)
  {
    hide ChunkCount, Off;
    OffAtCount(c.buffsize, |Content(c)|, k * c.windowSize);
    assert Off(c.buffsize, |Content(c)|, k * c.windowSize) == Min((k * c.windowSize) * c.buffsize, |Content(c)|) by {
      OffIsMin(c.buffsize, |Content(c)|, k * c.windowSize);
    }
    if BytesIn(c, k) == |Content(c)| {
      FullChunks(c.buffsize, k * c.windowSize);
    }
  }

  lemma OffIsMin(size: nat, len: nat, k: nat)
    ensures Off(size, len, k) == Min(k * size, len)
  {
  }

  lemma FillsMeans(c: Config, k: nat)
    requires c.buffsize > 0 && c.windowSize > 0
    ensures FillsWindows(c) <==> |Content(c)| % (c.windowSize * c.buffsize) == 0
    ensures BytesIn(c, k + 1) == BytesIn(c, k) + c.windowSize * c.buffsize
    ensures BytesIn(c, k) == |Content(c)| ==> FillsWindows(c)
    ensures BytesIn(c, k) < |Content(c)| < BytesIn(c, k + 1) ==> !FillsWindows(c)
  {
    var p, len := c.windowSize * c.buffsize, |Content(c)|;
    assert (k + 1) * p == k * p + p;
    if BytesIn(c, k) <= len < BytesIn(c, k + 1) {
      Ring.SameQuotient(p, len, k, len - k * p);
    }
  }

  /** What one more window adds. */
  lemma NextWindow(c: Config, k: nat)
    requires c.buffsize > 0 && c.windowSize > 0
    ensures BytesIn(c, k) < BytesIn(c, k + 1)
    ensures InWindows(c, k) <= Total(c) && InWindows(c, k + 1) == Min(InWindows(c, k) + c.windowSize, Total(c))
    ensures BytesIn(c, k) < |Content(c)| <==> InWindows(c, k) < Total(c)
    ensures BytesIn(c, k) < |Content(c)| ==>
              (BytesIn(c, k + 1) > |Content(c)| <==>
               (InWindows(c, k) + c.windowSize) * c.buffsize > |Content(c)|)
  {
    hide BytesIn, FillsWindows, ChunkCount;
    ChunksInWindows(c, k);
    ChunksInWindows(c, k + 1);
    FillsMeans(c, k);
    assert (k + 1) * c.windowSize == k * c.windowSize + c.windowSize;
    assert c.windowSize * c.buffsize > 0;
  }

  /** The window that is sent in round `k + 1`. */
  lemma NextWindowSent(c: Config, u: State, k: nat)
    requires Good(c) && Ready(c, u) && Bottom(u) == InWindows(c, k) + 1
    ensures Bottom(u) >= 1
    ensures Bottom(u) <= Reach(c, u) <==> BytesIn(c, k) < |Content(c)|
    ensures Reach(c, u) == InWindows(c, k + 1)
    ensures BytesIn(c, k) < |Content(c)| ==> (ReachesEnd(c, u) <==> BytesIn(c, k + 1) > |Content(c)|)
  {
    hide Ready, Total, BytesIn, InWindows;
    NextWindow(c, k);
    WindowShape(c, u);
  }

  /** One more round, from a state as good as `k` rounds have made it. */
  lemma LastAckRoundDelivers(c: Config, u: State, k: nat, t: State)
    requires Good(c) && LastAckRound(c, u, t) && Delivered(c, k, u)
    ensures Delivered(c, k + 1, t)
  {
    hide Leads, Ready, RoundEvents, Total, FillsWindows, BytesIn, InWindows, ReachesEnd, Reach, Bottom;
    hide Asked, Wanted, ServerDone;
    NextWindow(c, k);
    FillsMeans(c, k);
    if ServerDone(u) {
      DoneIsNotReady(c, u);
    }
    if Ready(c, u) {
      NextWindowSent(c, u, k);
      if Bottom(u) <= Reach(c, u) {
        var v := LastAckRoundAdvances(c, u);
        LeadsToOne(c, u, RoundEvents(c, u), v, t);
      }
    }
  }

  lemma LeadsToOne(c: Config, s: State, es: seq<Event>, t: State, u: State)
    requires Leads(c, s, es, t) && Leads(c, s, es, u)
    ensures t == u
  {
  }

  /** Counting the first window as round one, `k` rounds get `k` windows of chunks accepted, or all there are. */
  lemma {:induction false} LastAckRoundsDeliver(c: Config, s: State, k: nat, t: State)
    requires Good(c)
    requires Ready(c, s) && Bottom(s) == 1 && Wanted(s) == 1
    requires AfterLastAckRounds(c, s, k, t)
    ensures Delivered(c, k, t)
  {
    hide Ready, LastAckRound, Total, BytesIn;
    ChunksInWindows(c, 0);
    if k > 0 {
      var u :| AfterLastAckRounds(c, s, k - 1, u) && LastAckRound(c, u, t);
      hide Delivered;
      LastAckRoundsDeliver(c, s, k - 1, u);
      LastAckRoundDelivers(c, u, k - 1, t);
    }
  }

  /** Enough such rounds finish the server exactly if the file does not fill its windows to the last byte;
      if it does, all of it is accepted and acknowledged, and the server has nothing to send and is not done. */
  lemma LastAckRoundsFinishIff(c: Config, s: State, k: nat, t: State)
    requires Good(c)
    requires Ready(c, s) && Bottom(s) == 1 && Wanted(s) == 1
    requires AfterLastAckRounds(c, s, k, t) && InWindows(c, k) == Total(c)
    ensures Wanted(t) == Total(c) + 1
    ensures ServerDone(t) <==> !FillsWindows(c)
    ensures !ServerDone(t) ==> Ready(c, t) && Bottom(t) == Total(c) + 1
  {
    hide Ready, AfterLastAckRounds, Total, FillsWindows, BytesIn, InWindows, Asked, Wanted, ServerDone;
    LastAckRoundsDeliver(c, s, k, t);
    NextWindow(c, k);
    FillsMeans(c, k);
    if ServerDone(t) {
      DoneIsNotReady(c, t);
    }
  }

  /** There are always `k` such rounds. */
  lemma {:induction false} LastAckRoundsExist(c: Config, s: State, k: nat) returns (t: State)
    requires Good(c)
    requires Ready(c, s) && Bottom(s) == 1 && Wanted(s) == 1
    ensures AfterLastAckRounds(c, s, k, t)
  {
    hide Ready, LastAckRound;
    if k == 0 {
      t := s;
    } else {
      var u := LastAckRoundsExist(c, s, k - 1);
      t := LastAckRoundExists(c, u);
    }
  }

  lemma LastAckRoundExists(c: Config, u: State) returns (t: State)
    requires Good(c)
    ensures LastAckRound(c, u, t)
  {
    hide Ready, Leads, RoundEvents;
    if Ready(c, u) && 1 <= Bottom(u) <= Reach(c, u) {
      t := LastAckRoundAdvances(c, u);
    } else {
      t := u;
    }
  }

  // ---------- from the first packet to the last ----------

  lemma ReachableNext(c: Config, s: State, e: Event)
    requires Reachable(c, s) && StateOk(s) && Enabled(s, e)
    ensures Reachable(c, Next(c, s, e))
  {
    hide Next, Enabled;
    LeadsOne(c, s, e);
    ReachableThen(c, s, [e], Next(c, s, e));
  }

  lemma ReachableThen(c: Config, s: State, es: seq<Event>, t: State)
    requires Reachable(c, s) && Leads(c, s, es, t)
    ensures Reachable(c, t)
  {
    var fs :| Legal(c, Initial(), fs) && s == Exec(c, Initial(), fs);
    hide Legal, Exec;
    assert Leads(c, Initial(), fs, s);
    LeadsThen(c, Initial(), fs, s, es, t);
    assert Legal(c, Initial(), fs + es) && t == Exec(c, Initial(), fs + es);
  }

  /** What rcopy has sent stays on the network. */
  lemma {:induction false} LogGrows(c: Config, s: State, es: seq<Event>, t: State)
    requires Leads(c, s, es, t)
    ensures forall w :: w in s.toServer ==> w in t.toServer
    decreases es
  {
    hide Enabled, ServerPass, ServerHear, ServerTimeout, ClientPass, ClientHear, ClientTimeout;
    if es != [] {
      LogGrows(c, Next(c, s, es[0]), es[1..], t);
    }
  }

  lemma ReachableInitial(c: Config)
    ensures Reachable(c, Initial())
  {
    assert Legal(c, Initial(), []) && Initial() == Exec(c, Initial(), []);
  }

  /** An undamaged datagram is heard for what it is. */
  lemma HeardAsSent(o: Order, o': Order, p: Packet, limit: nat)
    requires |p.data| <= limit
    ensures Receive(o', Truncate(Encode(o, p), limit)) == Some(p)
  {
    RoundTrip(o, o', p);
    assert Truncate(Encode(o, p), limit) == Encode(o, p);
  }

  /** The events `es` lead from the start to `s`, and neither transfer has heard anything on the way. */
  ghost predicate Quiet(c: Config, es: seq<Event>, s: State) {
    && Leads(c, Initial(), es, s)
    && P.SenderHeard(c, Initial(), es) == [] && P.ReceiverHeard(c, Initial(), es) == []
  }

  lemma QuietInitial(c: Config)
    ensures Quiet(c, [], Initial())
  {
  }

  lemma QuietNext(c: Config, es: seq<Event>, s: State, e: Event)
    requires Quiet(c, es, s) && StateOk(s) && Enabled(s, e)
    requires P.SenderEar(s, e) == [] && P.ReceiverEar(s, e) == []
    ensures Quiet(c, es + [e], Next(c, s, e))
  {
    hide Next, Enabled;
    LeadsOne(c, s, e);
    LeadsThen(c, Initial(), es, s, [e], Next(c, s, e));
    HeardThen(c, Initial(), es, s, [e], Next(c, s, e));
    HeardOne(c, s, e);
  }

  lemma {:induction false} HeardThen(c: Config, s: State, es: seq<Event>, t: State, fs: seq<Event>, u: State)
    requires Leads(c, s, es, t) && Leads(c, t, fs, u)
    ensures Leads(c, s, es + fs, u)
    ensures P.SenderHeard(c, s, es + fs) == P.SenderHeard(c, s, es) + P.SenderHeard(c, t, fs)
    ensures P.ReceiverHeard(c, s, es + fs) == P.ReceiverHeard(c, s, es) + P.ReceiverHeard(c, t, fs)
    decreases es
  {
    hide Next, Enabled, P.SenderEar, P.ReceiverEar;
    LeadsThen(c, s, es, t, fs, u);
    if es == [] {
      assert es + fs == fs;
    } else {
      HeardThen(c, Next(c, s, es[0]), es[1..], t, fs, u);
      assert (es + fs)[0] == es[0];
      assert (es + fs)[1..] == es[1..] + fs;
    }
  }

  lemma HeardOne(c: Config, s: State, e: Event)
    requires StateOk(s) && Enabled(s, e)
    ensures Leads(c, s, [e], Next(c, s, e))
    ensures P.SenderHeard(c, s, [e]) == P.SenderEar(s, e) && P.ReceiverHeard(c, s, [e]) == P.ReceiverEar(s, e)
  {
    hide Next, Enabled, P.SenderEar, P.ReceiverEar;
    LeadsOne(c, s, e);
    var t := Next(c, s, e);
    assert [e][1..] == [];
    assert Legal(c, t, []);
    assert P.SenderHeard(c, t, []) == [] && P.ReceiverHeard(c, t, []) == [];
  }

  lemma QuietIsReachable(c: Config, es: seq<Event>, s: State)
    requires Quiet(c, es, s)
    ensures Reachable(c, s)
  {
    ReachableInitial(c);
    ReachableThen(c, Initial(), es, s);
  }

  /** The name is sent, the file opened and the name acknowledged. */
  lemma NameIsAcknowledged(c: Config) returns (s: State, es: seq<Event>)
    requires Good(c) && c.name in c.files
    ensures Quiet(c, es, s) && s.client.ph == AwaitNameAck && s.client == ClientStart().(ph := AwaitNameAck)
    ensures s.server ==
            Server(AwaitBegin, c.buffsize, c.windowSize, c.name, Some(Content(c)), NameAckWire(c), 0, None, 0)
    ensures NameAckWire(c) in s.toClient
  {
    hide Encode, Receive, InitData, Quiet, GetBuffsize, GetWindowSize, GetFilename, NetworkBytes;
    QuietInitial(c);
    var s0 := Initial();
    var s1 := Next(c, s0, ClientPasses);
    QuietNext(c, [], s0, ClientPasses);
    var request := Packet(FILE_NAME, CLIENT_SEQ, InitData(c.buffsize, c.windowSize, c.name));
    HeardAsSent(c.clientOrder, c.serverOrder, request, MAX_BUFF_SIZE);
    ParametersRoundTrip(c.buffsize, c.windowSize, c.name, []);
    assert InitData(c.buffsize, c.windowSize, c.name) + [] == InitData(c.buffsize, c.windowSize, c.name);
    assert InitWire(c) in s1.toServer;
    es := [] + [ClientPasses];
    var s2 := Next(c, s1, ServerHears(InitWire(c)));
    QuietNext(c, es, s1, ServerHears(InitWire(c)));
    es := es + [ServerHears(InitWire(c))];
    var s3 := Next(c, s2, ServerPasses);
    QuietNext(c, es, s2, ServerPasses);
    es := es + [ServerPasses];
    var s4 := Next(c, s3, ServerPasses);
    QuietNext(c, es, s3, ServerPasses);
    es := es + [ServerPasses];
    s := Next(c, s4, ServerPasses);
    QuietNext(c, es, s4, ServerPasses);
    es := es + [ServerPasses];
  }

  /** The transfer is agreed on, and both ends are in their transfer loops. */
  lemma TransferBegins(c: Config) returns (s: State, es: seq<Event>)
    requires Good(c) && c.name in c.files && c.localOpens
    ensures Quiet(c, es, s) && s.server.ph == Transferring && Listens(s)
    ensures s.server.sender == Some(S.Start(c.windowSize, c.buffsize, Content(c), c.serverOrder))
    ensures Wanted(s) == 1
  {
    hide Encode, Receive, Quiet, S.Start;
    var s0;
    s0, es := NameIsAcknowledged(c);
    HeardAsSent(c.serverOrder, c.clientOrder, Packet(FILE_NAME_ACK, 0, []), c.buffsize);
    HeardAsSent(c.clientOrder, c.serverOrder, Packet(FILE_BEGIN, CLIENT_SEQ, []), c.buffsize);
    HeardAsSent(c.serverOrder, c.clientOrder, Packet(FILE_BEGIN_ACK, 0, []), c.buffsize);
    QuietNext(c, es, s0, ClientHears(NameAckWire(c)));
    var s1 := Next(c, s0, ClientHears(NameAckWire(c)));
    es := es + [ClientHears(NameAckWire(c))];
    QuietNext(c, es, s1, ClientPasses);
    var s2 := Next(c, s1, ClientPasses);
    es := es + [ClientPasses];
    QuietNext(c, es, s2, ClientPasses);
    var s3 := Next(c, s2, ClientPasses);
    es := es + [ClientPasses];
    QuietNext(c, es, s3, ClientPasses);
    var s4 := Next(c, s3, ClientPasses);
    es := es + [ClientPasses];
    assert BeginWire(c) in s4.toServer;
    QuietNext(c, es, s4, ServerHears(BeginWire(c)));
    var s5 := Next(c, s4, ServerHears(BeginWire(c)));
    es := es + [ServerHears(BeginWire(c))];
    assert BeginAckWire(c) in s5.toClient;
    StartFills(c);
    QuietNext(c, es, s5, ClientHears(BeginAckWire(c)));
    s := Next(c, s5, ClientHears(BeginAckWire(c)));
    es := es + [ClientHears(BeginAckWire(c))];
  }

  lemma StartFills(c: Config)
    requires Good(c)
    ensures S.Start(c.windowSize, c.buffsize, Content(c), c.serverOrder).st == S.SFillWindow
  {
  }

  lemma FirstWindowIsReady(c: Config) returns (s: State)
    requires Good(c) && c.name in c.files && c.localOpens
    ensures Reachable(c, s) && Ready(c, s) && Asked(c, s) && Bottom(s) == 1 && Wanted(s) == 1
    ensures s.server.sender.Some? && s.server.sender.value.win.numWait == 0
  {
    hide Reachable, Ready, Inv, Legal, Exec, S.FillFrom;
    var s0, es := TransferBegins(c);
    QuietIsReachable(c, es, s0);
    ReachableInv(c, s0);
    ServerFills(c, s0);
    S.FillFromKeepsParameters(s0.server.sender.value, 1);
    s := Next(c, s0, ServerPasses);
    ReachableThen(c, s0, [ServerPasses], s);
  }

  /** Rounds lead to a server that is done, or that is done once it hears the last acknowledgement again. */
  lemma {:induction false} ServerFinishes(c: Config, s: State) returns (t: State)
    requires Good(c) && Content(c) != []
    requires Reachable(c, s) && Ready(c, s) && Asked(c, s) && Bottom(s) <= Total(c) + 1
    ensures Reachable(c, t) && ServerDone(t) && t.server.ph == Transferring && Listens(t)
    ensures forall w :: w in s.toServer ==> w in t.toServer
    decreases Total(c) + 1 - Bottom(s)
  {
    hide Reachable, Ready, Inv, Legal, Exec, Leads, Next, ChunkWire, RRWire, ChunkCount, RoundEvents;
    if Bottom(s) > Reach(c, s) {
      t := RepeatedAckFinishes(c, s);
      var es := [ServerPasses] + [ServerHears(RRWire(c, Wanted(t))), ServerPasses];
      LogGrows(c, s, es, t);
      ReachableThen(c, s, es, t);
    } else {
      t := LastAckRoundAdvances(c, s);
      LogGrows(c, s, RoundEvents(c, s), t);
      ReachableThen(c, s, RoundEvents(c, s), t);
      if !ServerDone(t) {
        ReachBounds(c, t);
        var u := t;
        t := ServerFinishes(c, u);
      }
    }
  }

  // ---------- a file that fills its windows ----------

  /** A server that waits and hears that all it sent is accepted has ended the transfer, one pass later,
      exactly if its window reaches past the end of the file. */
  lemma LastAckEndsTransferIff(c: Config, s: State, w: Wire)
    requires Good(c) && Reachable(c, s) && Arrives(w, s.toServer)
    requires s.server.ph == Transferring && s.server.sender.Some? && s.server.sender.value.st == S.SWaitOnResponse
    requires var p := Receive(c.serverOrder, Truncate(w, c.buffsize));
             p.Some? && p.value.flag == RR && p.value.seq_ == TopSent(s) + 1
    ensures var heard := Next(c, s, ServerHears(w));
            ServerDone(Next(c, heard, ServerPasses)) <==>
            s.server.sender.value.win.top * c.buffsize > |Content(c)|
  {
    hide Reachable, S.Inv, S.Respond, S.AdjustWindow, R.Inv, R.SimpleOf, Encode, Receive, NetworkInv, HandshakeInv;
    ReachableInv(c, s);
    var v := s.server.sender.value;
    var p := Receive(c.serverOrder, Truncate(w, c.buffsize)).value;
    LastAckEndsIff(v, p);
    LastAckIsAdjusted(v, p);
    var heard := Next(c, s, ServerHears(w));
    assert heard.server.sender.value == S.Respond(v, Some(p));
    assert Next(c, heard, ServerPasses).server.sender.value == S.AdjustWindow(S.Respond(v, Some(p)));
  }

  lemma {:induction false} AfterLastAckRoundsReachable(c: Config, s: State, k: nat, t: State)
    requires Good(c) && Reachable(c, s) && AfterLastAckRounds(c, s, k, t)
    ensures Reachable(c, t)
  {
    hide Reachable, Ready, Leads, RoundEvents;
    if k > 0 {
      var u :| AfterLastAckRounds(c, s, k - 1, u) && LastAckRound(c, u, t);
      AfterLastAckRoundsReachable(c, s, k - 1, u);
      if Ready(c, u) && 1 <= Bottom(u) <= Reach(c, u) {
        ReachableThen(c, u, RoundEvents(c, u), t);
      }
    }
  }

  /** A server that hears nothing any more gives up. */
  lemma {:induction false} SilentServerGivesUp(c: Config, s: State) returns (t: State)
    requires Reachable(c, s) && StateOk(s)
    requires s.server.ph == Transferring && s.server.sender.Some?
    requires s.server.sender.value.st in {S.SSendWindow, S.SWaitOnResponse, S.STimeoutOnResponse, S.SFinish}
    requires s.server.sender.value.win.top < U32_MAX
    ensures Reachable(c, t) && StateOk(t) && t.server.ph == ServerFinished && !ServerDone(t)
    ensures t.client == s.client && t.toServer == s.toServer
    decreases if s.server.sender.value.st == S.SFinish then 0 else 1,
              SenderLoop.TriesLeft(s.server.sender.value), SenderLoop.Rank(s.server.sender.value.st)
  {
    hide Reachable, S.SendFrom, Ring.RefillFrom, Encode;
    var v := s.server.sender.value;
    S.SendFromKeepsParameters(v, v.win.bottom);
    var e := if v.st == S.SWaitOnResponse then ServerTimesOut else ServerPasses;
    ReachableNext(c, s, e);
    t := Next(c, s, e);
    if v.st != S.SFinish {
      t := SilentServerGivesUp(c, t);
    }
  }

  lemma SilentClientGivesUp(c: Config, s: State) returns (t: State)
    requires Reachable(c, s) && StateOk(s) && Listens(s)
    ensures Reachable(c, t) && t.client.ph == ClientFinished && !ClientDone(t) && t.server == s.server
    ensures t.client.receiver.Some? && t.client.receiver.value.out == s.client.receiver.value.out
  {
    hide Reachable, R.Hear, R.WriteFrom, R.AdjustWindow;
    ReachableNext(c, s, ClientTimesOut);
    var s1 := Next(c, s, ClientTimesOut);
    ReachableNext(c, s1, ClientPasses);
    var s2 := Next(c, s1, ClientPasses);
    ReachableNext(c, s2, ClientPasses);
    t := Next(c, s2, ClientPasses);
  }

  /** A file that fills its windows to the last byte can be received whole, and acknowledged, without either
      program finding out: if only the last acknowledgement of each window is heard, and then
      nothing, both give up. */
  lemma ExactFitIsGivenUp(c: Config) returns (t: State)
    requires Good(c) && c.name in c.files && c.localOpens
    requires |Content(c)| % (c.windowSize * c.buffsize) == 0
    ensures Reachable(c, t) && t.client.ph == ClientFinished && t.server.ph == ServerFinished
    ensures t.client.receiver.Some? && t.client.receiver.value.out == c.files[c.name]
    ensures !ServerDone(t) && !ClientDone(t)
  {
    hide Reachable, Ready, AfterLastAckRounds, FillsWindows, InWindows, Total;
    var s := FirstWindowIsReady(c);
    var k := |Content(c)|;
    EnoughWindows(c, k);
    var r := LastAckRoundsExist(c, s, k);
    AfterLastAckRoundsReachable(c, s, k, r);
    LastAckRoundsFinishIff(c, s, k, r);
    FillsMeans(c, 0);
    AllIsWritten(c, r);
    var u := SilentServerGivesUp(c, r);
    t := SilentClientGivesUp(c, u);
  }

  lemma EnoughWindows(c: Config, k: nat)
    requires Good(c) && k == |Content(c)|
    ensures InWindows(c, k) == Total(c)
  {
    hide ChunkCount;
    OffAtCount(c.buffsize, k, k);
    assert k * c.buffsize >= k && k * c.windowSize >= k;
    OffIsMin(c.buffsize, k, k);
  }

  lemma AllIsOut(c: Config, s: State)
    requires Good(c) && Reachable(c, s) && Listens(s) && Wanted(s) == Total(c) + 1
    ensures s.client.receiver.value.out == Content(c)
  {
    hide Reachable, S.Inv, R.Inv, R.SimpleOf, NetworkInv, HandshakeInv, Encode, Chunk, Off, ChunksUpTo;
    OutputIsPrefix(c, s);
    ChunksConcatenate(Content(c), c.buffsize, Total(c));
    AllChunksAreTheFile(Content(c), c.buffsize, Total(c));
  }

  lemma AllIsWritten(c: Config, s: State)
    requires Good(c) && Reachable(c, s) && Ready(c, s) && Wanted(s) == Total(c) + 1
    ensures StateOk(s) && Listens(s) && s.client.receiver.value.out == Content(c)
    ensures s.server.ph == Transferring && s.server.sender.Some? && s.server.sender.value.st == S.SSendWindow
    ensures s.server.sender.value.win.top < U32_MAX
  {
    ReachableInv(c, s);
    InvFits(s.server.sender.value);
    AllIsOut(c, s);
  }

  /** A server that is done says so. */
  lemma EofIsSent(c: Config, s: State) returns (t: State)
    requires Reachable(c, s) && StateOk(s) && ServerDone(s) && s.server.ph == Transferring && s.server.seq_ == 0
    ensures Reachable(c, t) && StateOk(t) && t.client == s.client && EofWire(c) in t.toClient
    ensures t.server.ph == EofAwaitAck
  {
    hide Encode, Reachable, S.Pass;
    ReachableNext(c, s, ServerPasses);
    var s1 := Next(c, s, ServerPasses);
    ReachableNext(c, s1, ServerPasses);
    var s2 := Next(c, s1, ServerPasses);
    ReachableNext(c, s2, ServerPasses);
    t := Next(c, s2, ServerPasses);
  }

  lemma EofIsHeard(c: Config, s: State) returns (t: State)
    requires Good(c) && Reachable(c, s) && StateOk(s) && Listens(s) && EofWire(c) in s.toClient
    requires var r := s.client.receiver.value; r.order == c.clientOrder && r.win.buffsize == c.buffsize
    ensures Reachable(c, t) && ClientDone(t) && t.client.ph == Receiving && t.server == s.server
  {
    hide Encode, Receive, Reachable, R.Pass;
    var w := EofWire(c);
    HeardAsSent(c.serverOrder, c.clientOrder, Packet(FILE_EOF, 1, []), c.buffsize);
    ReachableNext(c, s, ClientHears(w));
    t := Next(c, s, ClientHears(w));
  }

  /** The end reaches rcopy. */
  lemma EofArrives(c: Config, s: State) returns (t: State)
    requires Good(c) && Reachable(c, s) && ServerDone(s) && s.server.ph == Transferring && Listens(s)
    ensures Reachable(c, t) && ClientDone(t) && t.client.ph == Receiving && t.server.ph == EofAwaitAck
  {
    hide Reachable, S.Inv, R.Inv, R.SimpleOf, NetworkInv, HandshakeInv, Encode, EofWire;
    ReachableInv(c, s);
    var u := EofIsSent(c, s);
    t := EofIsHeard(c, u);
  }

  function EofAckWire(c: Config): Wire {
    R.ControlWire(c.clientOrder, FILE_EOF_ACK, 1)
  }

  /** rcopy acknowledges the end under its own number, and that ends the close. */
  lemma EofIsAcknowledged(c: Config, s: State) returns (t: State)
    requires Good(c) && Reachable(c, s) && StateOk(s) && ClientDone(s)
    requires s.client.ph == Receiving && s.client.receiver.value.seq_ == 1
    requires s.server.ph == EofAwaitAck && s.server.seq_ == 1 && s.server.buffsize == c.buffsize
    ensures Reachable(c, t) && ClientDone(t) && t.client.ph == ClientFinished && t.server.ph == ServerFinished
  {
    hide Encode, Receive, Reachable, R.Pass;
    var w := EofAckWire(c);
    HeardAsSent(c.clientOrder, c.serverOrder, Packet(FILE_EOF_ACK, 1, []), c.buffsize);
    ReachableNext(c, s, ClientPasses);
    var s1 := Next(c, s, ClientPasses);
    ReachableNext(c, s1, ClientPasses);
    var s2 := Next(c, s1, ClientPasses);
    assert w in s2.toServer;
    ReachableNext(c, s2, ServerHears(w));
    t := Next(c, s2, ServerHears(w));
  }

  lemma BothFinish(c: Config, s: State) returns (t: State)
    requires Good(c) && Reachable(c, s) && ClientDone(s) && s.client.ph == Receiving && s.server.ph == EofAwaitAck
    ensures Reachable(c, t) && ClientDone(t) && t.client.ph == ClientFinished && t.server.ph == ServerFinished
  {
    hide Reachable, S.Inv, R.Inv, R.SimpleOf, NetworkInv, HandshakeInv, Encode;
    ReachableInv(c, s);
    t := EofIsAcknowledged(c, s);
  }

  /** Some run ends with the file received, its end acknowledged, and both programs finished. */
  ghost predicate CanComplete(c: Config) {
    exists t :: Reachable(c, t) && ClientDone(t) && t.client.ph == ClientFinished && t.server.ph == ServerFinished
  }

  /** Some run copies the file and finishes both programs exactly when there is a file, the local one can
      be opened, and the file is not empty.  If the file fills its windows (see `ExactFitIsGivenUp`) the run
      found here is one in which the server hears its last acknowledgement twice. */
  lemma CompletesIff(c: Config)
    requires Good(c)
    ensures CanComplete(c) <==> c.name in c.files && c.localOpens && Content(c) != []
  {
    hide Reachable, Ready, Inv, ChunkCount;
    if c.name in c.files && c.localOpens && Content(c) != [] {
      var s := FirstWindowIsReady(c);
      var t := ServerFinishes(c, s);
      var u := EofArrives(c, t);
      var v := BothFinish(c, u);
      assert CanComplete(c);
    }
    if CanComplete(c) {
      var t :| Reachable(c, t) && ClientDone(t) && t.client.ph == ClientFinished && t.server.ph == ServerFinished;
      TransferIsFaithful(c, t);
      if Content(c) == [] {
        EmptyFileNeverCompletes(c, t);
      }
      LocalFileWasOpened(c, t);
    }
  }
}
