/** A session in which nothing is lost. */
module LossFreeRun {
  import opened Bytes
  import opened Codec
  import opened Chunks
  import opened Session
  import opened SessionInvariant
  import opened Safety
  import opened Progress
  import opened Completion
  import opened LossFree
  import opened FileEnd
  import opened Projection
  import Resend
  import SenderLoop
  import S = Sender
  import R = Receiver

  /** The transfer can end without luck: the window has two frames or more, or the last chunk is short. */
  predicate NoticesEnd(c: Config)
    requires c.buffsize > 0
  {
    c.windowSize >= 2 || |Content(c)| % c.buffsize != 0
  }

  // ---------- every such run ----------

  /** In every run in which the server hears every acknowledgement once, in order, and then nothing: left to
      itself its transfer ends exactly if the window has two frames or more or the last chunk is short, and
      every chunk is sent once. */
  lemma AllHeardFinishesRunIff(c: Config, es: seq<Event>, tail: seq<Arrival>)
    requires Good(c) && Content(c) != [] && Legal(c, Initial(), es) && AllSilent(tail)
    requires Exec(c, Initial(), es).server.sender.Some?
    requires SenderHeard(c, Initial(), es) == Acks(c.clientOrder, 2, Total(c) + 1) + tail
    ensures var t := Exec(c, Initial(), es);
            var (end, more, _) := SenderLoop.FileTransfer(t.server.sender.value, []);
            && end.st == (if NoticesEnd(c) then S.SDone else S.SFinish)
            && Flagged(t.toClient, {DATA}) + more ==
               Resend.ChunkWires(S.Start(c.windowSize, c.buffsize, Content(c), c.serverOrder), 1, Total(c))
            && (SenderLoop.Over(t.server.sender.value) ==> (ServerDone(t) <==> NoticesEnd(c)))
  {
    hide Exec, Legal, SenderHeard, Flagged, SenderLoop.FileTransfer, S.Start, Resend.ChunkWires, ChunkCount, Acks;
    hide SenderLoop.Tame;
    ServerRunsItsLoop(c, es, []);
    AllHeardFinishesIff(c.windowSize, c.buffsize, Content(c), c.serverOrder, c.clientOrder, tail);
    var heard := Acks(c.clientOrder, 2, Total(c) + 1) + tail;
    assert heard + [] == heard;
    var v := Exec(c, Initial(), es).server.sender.value;
    if SenderLoop.Over(v) {
      SenderLoop.NoTurn(v, []);
    }
  }

  // ---------- there is such a run ----------

  /** The chunks `q` to `n`, as they arrive. */
  function ChunksCome(c: Config, q: nat, n: nat): seq<Arrival>
    requires q >= 1
    decreases n
  {
    if q > n then [] else ChunksCome(c, q, n - 1) + [Came(ChunkWire(c, n))]
  }

  lemma {:induction false} AcksSnoc(peer: Order, q: nat, n: nat)
    requires q <= n + 1
    ensures Acks(peer, q, n + 1) == Acks(peer, q, n) + [Came(Encode(peer, LossFree.Ack(n + 1)))]
    decreases n + 1 - q
  {
    hide Encode;
    if q == n + 1 {
      assert Acks(peer, q + 1, n + 1) == [];
    } else {
      AcksSnoc(peer, q + 1, n);
    }
  }

  /** Until now rcopy has heard the chunks below `k` and the server the acknowledgements up to `k`, each once
      and in order. */
  ghost predicate Course(c: Config, es: seq<Event>, s: State, k: nat)
    requires k >= 1
  {
    && Leads(c, Initial(), es, s)
    && SenderHeard(c, Initial(), es) == Acks(c.clientOrder, 2, k)
    && ReceiverHeard(c, Initial(), es) == ChunksCome(c, 1, k - 1)
  }

  /** Both wait for chunk `k`: rcopy for it to come and the server for it to be acknowledged. */
  ghost predicate At(c: Config, s: State, k: nat) {
    && Inv(c, s) && Listens(s) && Wanted(s) == k
    && s.server.ph == Transferring && s.server.sender.Some? && WaitsFor(s.server.sender.value, k)
    && AllOnNetwork(c, s)
  }

  /** The chunks sent are on the network. */
  ghost predicate AllOnNetwork(c: Config, s: State) {
    forall q :: 1 <= q <= TopSent(s) ==> ChunkWire(c, q) in s.toClient
  }

  lemma {:induction false} WiresInclude(s: S.Sender, q: nat, n: nat, p: nat)
    requires 1 <= q <= p <= n
    ensures S.LabelledWire(s, p) in Resend.ChunkWires(s, q, n)
    decreases n + 1 - q
  {
    hide S.LabelledWire;
    if q < p {
      WiresInclude(s, q + 1, n, p);
    }
  }

  lemma SendingPutsOnNetwork(c: Config, s: State, t: State, v: S.Sender, m: nat, n: nat)
    requires AllOnNetwork(c, s) && TopSent(s) == m && TopSent(t) == n && Good(c)
    requires v.content == Content(c) && v.order == c.serverOrder && v.win.buffsize == c.buffsize
    requires t.toClient == s.toClient + Resend.ChunkWires(v, m + 1, n)
    ensures AllOnNetwork(c, t)
  {
    hide Resend.ChunkWires, Chunk, Encode;
    forall q | 1 <= q <= n ensures ChunkWire(c, q) in t.toClient {
      if q > m {
        WiresInclude(v, m + 1, n, q);
      }
    }
  }

  predicate IsPass(e: Event) {
    e == ServerPasses || e == ClientPasses
  }

  lemma {:induction false} PassesHearNothing(c: Config, s: State, es: seq<Event>)
    requires StateOk(s) && Legal(c, s, es) && forall i :: 0 <= i < |es| ==> IsPass(es[i])
    ensures SenderHeard(c, s, es) == [] && ReceiverHeard(c, s, es) == []
    decreases es
  {
    hide Next, Enabled;
    if es != [] {
      assert IsPass(es[0]);
      PassesHearNothing(c, Next(c, s, es[0]), es[1..]);
    }
  }

  /** One datagram heard, and passes after it. */
  lemma OneHeard(c: Config, s: State, e: Event, passes: seq<Event>, t: State)
    requires Leads(c, s, [e] + passes, t) && forall i :: 0 <= i < |passes| ==> IsPass(passes[i])
    requires e.ServerHears? || e.ClientHears?
    ensures Enabled(s, e)
    ensures SenderHeard(c, s, [e] + passes) == SenderEar(s, e)
    ensures ReceiverHeard(c, s, [e] + passes) == ReceiverEar(s, e)
  {
    hide Next, Enabled, SenderEar, ReceiverEar;
    var es := [e] + passes;
    assert es[0] == e && es[1..] == passes;
    PassesHearNothing(c, Next(c, s, e), passes);
  }

  // ---------- one chunk and its acknowledgement ----------

  /** The server hears that chunk `k` is accepted, slides, fills and sends. */
  function TurnEvents(c: Config, k: nat): seq<Event> {
    [ServerHears(RRWire(c, k + 1))] + [ServerPasses, ServerPasses, ServerPasses]
  }

  /** What the server does from hearing that chunk `k` is accepted until it waits again. */
  lemma ServerTurns(c: Config, s: State, k: nat) returns (t: State)
    requires Good(c) && Inv(c, s) && s.server.ph == Transferring && s.server.sender.Some?
    requires WaitsFor(s.server.sender.value, k) && k < Total(c) && RRWire(c, k + 1) in s.toServer
    ensures Leads(c, s, TurnEvents(c, k), t)
    ensures var (v, out) := Turn(s.server.sender.value, k);
            t == s.(server := s.server.(sender := Some(v)), toClient := s.toClient + out)
  {
    hide Inv, Leads, Encode, Receive, S.Respond, S.AdjustWindow, S.FillWindow, S.SendWindow, S.Pass, S.Inv;
    var v := s.server.sender.value;
    SenderIs(c, s);
    AckHeard(c, s, k);
    AckMovesWindow(v, k);
    var w := RRWire(c, k + 1);
    var r := S.Respond(v, Some(LossFree.Ack(k + 1)));
    var a := S.AdjustWindow(r);
    PassesAre(r, a);
    var s1 := Next(c, s, ServerHears(w));
    assert s1 == s.(server := s.server.(sender := Some(r)), toClient := s.toClient + []);
    var s2 := ServerPassesOnce(c, s1);
    var s3 := ServerPassesOnce(c, s2);
    t := ServerPassesOnce(c, s3);
    var out := S.SendWindow(S.FillWindow(a)).1;
    assert s.toClient + [] + [] + [] + out == s.toClient + out;
    LeadsOne(c, s, ServerHears(w));
    LeadsThen(c, s1, [ServerPasses], s2, [ServerPasses], s3);
    LeadsThen(c, s1, [ServerPasses] + [ServerPasses], s3, [ServerPasses], t);
    assert [ServerPasses] + [ServerPasses] + [ServerPasses] == [ServerPasses, ServerPasses, ServerPasses];
    LeadsThen(c, s, [ServerHears(w)], s1, [ServerPasses, ServerPasses, ServerPasses], t);
  }

  lemma ServerPassesOnce(c: Config, s: State) returns (t: State)
    requires StateOk(s) && s.server.ph == Transferring && s.server.sender.Some?
    requires s.server.sender.value.st !in {S.SDone, S.SFileName, S.SFinish}
    ensures Leads(c, s, [ServerPasses], t) && StateOk(t)
    ensures var (v, out) := S.Pass(s.server.sender.value);
            t == s.(server := s.server.(sender := Some(v)), toClient := s.toClient + out)
  {
    hide S.Pass;
    LeadsOne(c, s, ServerPasses);
    t := Next(c, s, ServerPasses);
  }

  lemma SenderIs(c: Config, s: State)
    requires Inv(c, s) && s.server.sender.Some?
    ensures StateOk(s)
    ensures var v := s.server.sender.value;
            && S.WellFormed(v) && v.content == Content(c) && v.order == c.serverOrder
            && v.win.buffsize == c.buffsize && |v.win.states| == c.windowSize
    ensures s.server.ph == Transferring ==> s.server.buffsize == c.buffsize
  {
    hide NetworkInv, ClientInv, HandshakeInv, S.Inv;
  }

  lemma AckHeard(c: Config, s: State, k: nat)
    requires RRWire(c, k + 1) in s.toServer
    ensures Receive(c.serverOrder, Truncate(RRWire(c, k + 1), c.buffsize)) == Some(LossFree.Ack(k + 1))
    ensures Arrives(RRWire(c, k + 1), s.toServer)
    ensures RRWire(c, k + 1) == Encode(c.clientOrder, LossFree.Ack(k + 1))
  {
    HeardAsSent(c.clientOrder, c.serverOrder, LossFree.Ack(k + 1), c.buffsize);
    hide Encode, Receive;
  }

  /** Chunk `k` is heard, accepted and acknowledged. */
  lemma ChunkTurn(c: Config, es: seq<Event>, s: State, k: nat) returns (fs: seq<Event>, t: State)
    requires Good(c) && 1 <= k <= Total(c) && Course(c, es, s, k) && At(c, s, k)
    ensures Leads(c, Initial(), fs, t)
    ensures SenderHeard(c, Initial(), fs) == Acks(c.clientOrder, 2, k)
    ensures ReceiverHeard(c, Initial(), fs) == ChunksCome(c, 1, k)
    ensures Inv(c, t) && Listens(t) && Wanted(t) == k + 1 && RRWire(c, k + 1) in t.toServer
    ensures t.server == s.server && t.toClient == s.toClient
  {
    hide Inv, Leads, Legal, Exec, SenderHeard, ReceiverHeard, Acks, RRWire, ChunkWire, ChunkCount, S.Inv, Next;
    ChunkIsSent(c, s, k);
    t := ChunkIsAcknowledged(c, s, k);
    var w := ChunkWire(c, k);
    assert [ClientHears(w)] + [ClientPasses, ClientPasses, ClientPasses] == Deliver(w);
    OneHeard(c, s, ClientHears(w), [ClientPasses, ClientPasses, ClientPasses], t);
    HeardThen(c, Initial(), es, s, Deliver(w), t);
    fs := es + Deliver(w);
    assert Acks(c.clientOrder, 2, k) + [] == Acks(c.clientOrder, 2, k);
  }

  lemma ChunkIsSent(c: Config, s: State, k: nat)
    requires Good(c) && At(c, s, k) && 1 <= k <= Total(c)
    ensures k <= TopSent(s) && ChunkWire(c, k) in s.toClient
  {
    hide Encode, Chunk, ChunkCount, S.Inv;
    SenderIs(c, s);
    hide Inv;
    SentSoFar(s.server.sender.value);
  }

  /** What the server makes of the acknowledgement of chunk `k`. */
  lemma AckTurn(c: Config, u: State, k: nat) returns (t: State)
    requires Good(c) && 1 <= k < Total(c) && Inv(c, u) && Listens(u) && Wanted(u) == k + 1
    requires u.server.ph == Transferring && u.server.sender.Some? && WaitsFor(u.server.sender.value, k)
    requires AllOnNetwork(c, u) && RRWire(c, k + 1) in u.toServer
    ensures Leads(c, u, TurnEvents(c, k), t)
    ensures At(c, t, k + 1)
  {
    hide Inv, Leads, RRWire, ChunkCount, S.Inv, Turn, AllOnNetwork, TurnEvents;
    SenderIs(c, u);
    t := ServerTurns(c, u, k);
    LeadsKeeps(c, u, TurnEvents(c, k), t);
    TurnedIsAt(c, u, t, k);
  }

  /** The state after that turn. */
  lemma TurnedIsAt(c: Config, u: State, t: State, k: nat)
    requires Good(c) && 1 <= k < Total(c) && Inv(c, u) && Inv(c, t) && Listens(u) && Wanted(u) == k + 1
    requires u.server.ph == Transferring && u.server.sender.Some? && WaitsFor(u.server.sender.value, k)
    requires AllOnNetwork(c, u)
    requires var (v, out) := Turn(u.server.sender.value, k);
             t == u.(server := u.server.(sender := Some(v)), toClient := u.toClient + out)
    ensures At(c, t, k + 1)
  {
    hide Inv, ChunkCount, S.Inv, Turn, AllOnNetwork, Resend.ChunkWires;
    SenderIs(c, u);
    var v := u.server.sender.value;
    TurnMovesWindow(v, k);
    SendingPutsOnNetwork(c, u, t, v, TopSent(u), TopSent(t));
  }

  lemma SameNetwork(c: Config, s: State, t: State)
    requires AllOnNetwork(c, s) && t.server == s.server && t.toClient == s.toClient
    ensures AllOnNetwork(c, t)
  {
    hide ChunkWire;
  }

  lemma AckIsHeard(c: Config, gs: seq<Event>, u: State, k: nat, passes: seq<Event>, t: State) returns (fs: seq<Event>)
    requires k >= 1 && SenderWaits(u) && RRWire(c, k + 1) in u.toServer
    requires Leads(c, Initial(), gs, u)
    requires SenderHeard(c, Initial(), gs) == Acks(c.clientOrder, 2, k)
    requires ReceiverHeard(c, Initial(), gs) == ChunksCome(c, 1, k)
    requires Leads(c, u, [ServerHears(RRWire(c, k + 1))] + passes, t)
    requires forall i :: 0 <= i < |passes| ==> IsPass(passes[i])
    ensures Course(c, fs, t, k + 1)
  {
    hide Leads, SenderHeard, ReceiverHeard, Acks, ChunksCome, RRWire, SenderEar, ReceiverEar, Encode;
    var w := RRWire(c, k + 1);
    var es := [ServerHears(w)] + passes;
    AckHeard(c, u, k);
    ServerEars(u, w);
    OneHeard(c, u, ServerHears(w), passes, t);
    HeardThen(c, Initial(), gs, u, es, t);
    fs := gs + es;
    AcksSnoc(c.clientOrder, 2, k);
    assert ChunksCome(c, 1, k) + [] == ChunksCome(c, 1, k);
  }

  lemma ServerEars(s: State, w: Wire)
    requires SenderWaits(s) && Arrives(w, s.toServer)
    ensures SenderEar(s, ServerHears(w)) == [Came(w)] && ReceiverEar(s, ServerHears(w)) == []
  {
  }

  /** Chunk `k`, which is not the last, is heard, and then its acknowledgement. */
  lemma NextTurn(c: Config, es: seq<Event>, s: State, k: nat) returns (fs: seq<Event>, t: State)
    requires Good(c) && 1 <= k < Total(c) && Course(c, es, s, k) && At(c, s, k)
    ensures Course(c, fs, t, k + 1) && At(c, t, k + 1)
  {
    hide Inv, Leads, SenderHeard, ReceiverHeard, Acks, RRWire, ChunkWire, ChunkCount, S.Inv, Turn, AllOnNetwork;
    var gs, u := ChunkTurn(c, es, s, k);
    SameNetwork(c, s, u);
    t := AckTurn(c, u, k);
    fs := AckIsHeard(c, gs, u, k, [ServerPasses, ServerPasses, ServerPasses], t);
  }

  /** From the first packet to the first wait. */
  lemma FirstWait(c: Config) returns (es: seq<Event>, s: State)
    requires Good(c) && c.name in c.files && c.localOpens && Content(c) != []
    ensures Course(c, es, s, 1) && At(c, s, 1)
  {
    hide Inv, Leads, Legal, Exec, SenderHeard, ReceiverHeard, ChunkWire, ChunkCount, S.Inv, Next, S.Start, S.FillWindow;
    hide S.SendWindow, Encode, Resend.ChunkWires;
    var s0, fs := TransferBegins(c);
    QuietIsReachable(c, fs, s0);
    ReachableInv(c, s0);
    SenderIs(c, s0);
    var v := s0.server.sender.value;
    StartFills(c);
    StartIsEmpty(c);
    var w := FirstWindowSent(c.windowSize, c.buffsize, Content(c), c.serverOrder, []);
    FirstPasses(c);
    var s1 := ServerPassesOnce(c, s0);
    s := ServerPassesOnce(c, s1);
    LeadsThen(c, s0, [ServerPasses], s1, [ServerPasses], s);
    var passes := [ServerPasses] + [ServerPasses];
    PassesHear(c, s0, passes, s);
    HeardThen(c, Initial(), fs, s0, passes, s);
    es := fs + passes;
    LeadsKeeps(c, s0, passes, s);
    assert s0.toClient + [] + S.SendWindow(S.FillWindow(v)).1 == s0.toClient + S.SendWindow(S.FillWindow(v)).1;
    SendingPutsOnNetwork(c, s0, s, v, 0, TopSent(s));
    assert Acks(c.clientOrder, 2, 1) == [] && ChunksCome(c, 1, 0) == [];
  }

  lemma PassesHear(c: Config, s: State, es: seq<Event>, t: State)
    requires Leads(c, s, es, t) && forall i :: 0 <= i < |es| ==> IsPass(es[i])
    ensures SenderHeard(c, s, es) == [] && ReceiverHeard(c, s, es) == []
  {
    PassesHearNothing(c, s, es);
  }

  lemma StartIsEmpty(c: Config)
    requires Good(c)
    ensures var s := S.Start(c.windowSize, c.buffsize, Content(c), c.serverOrder);
            && s.win.topSent == 0
            && s.content == Content(c) && s.order == c.serverOrder && s.win.buffsize == c.buffsize
  {
  }

  lemma FirstPasses(c: Config)
    requires Good(c)
    ensures var s := S.Start(c.windowSize, c.buffsize, Content(c), c.serverOrder);
            && S.Pass(s) == (S.FillWindow(s), [])
            && S.FillWindow(s).st == S.SSendWindow
            && S.Pass(S.FillWindow(s)) == S.SendWindow(S.FillWindow(s))
  {
    hide S.FillFrom, S.SendFrom, ChunkCount;
    var s := S.Start(c.windowSize, c.buffsize, Content(c), c.serverOrder);
    S.FillFromKeepsParameters(s, s.win.bottom);
  }

  /** From the first packet to the wait for chunk `k`. */
  lemma {:induction false} RunTo(c: Config, k: nat) returns (es: seq<Event>, s: State)
    requires Good(c) && c.name in c.files && c.localOpens && Content(c) != [] && 1 <= k <= Total(c)
    ensures Course(c, es, s, k) && At(c, s, k)
  {
    hide Course, At, Total;
    if k == 1 {
      es, s := FirstWait(c);
    } else {
      var fs, u := RunTo(c, k - 1);
      es, s := NextTurn(c, fs, u, k - 1);
    }
  }

  /** The last acknowledgement is heard. */
  lemma LastTurn(c: Config, es: seq<Event>, s: State) returns (fs: seq<Event>, t: State)
    requires Good(c) && Total(c) >= 1 && Course(c, es, s, Total(c)) && At(c, s, Total(c))
    ensures Course(c, fs, t, Total(c) + 1)
    ensures Inv(c, t) && Listens(t) && Wanted(t) == Total(c) + 1 && t.server.sender.Some?
    ensures ServerDone(t) <==> NoticesEnd(c)
  {
    hide Inv, Leads, Legal, Exec, SenderHeard, ReceiverHeard, Acks, RRWire, ChunkWire, ChunkCount, S.Inv, Next;
    var k := Total(c);
    SenderIs(c, s);
    var gs, u := ChunkTurn(c, es, s, k);
    var v := s.server.sender.value;
    LastWindowReachesEndIff(v);
    t := ServerSlides(c, u);
    assert [ServerHears(RRWire(c, k + 1))] + [ServerPasses] == [ServerHears(RRWire(c, Wanted(u))), ServerPasses];
    fs := AckIsHeard(c, gs, u, k, [ServerPasses], t);
    if !ReachesEnd(c, u) {
      assert !ServerDone(t);
    }
  }

  /** For every file there is a run in which rcopy hears every chunk once, in order, and the server every
      acknowledgement once, in order.  In it rcopy has written the whole file, and the server is done exactly
      if the window has two frames or more or the last chunk is short. */
  lemma NothingLost(c: Config) returns (es: seq<Event>)
    requires Good(c) && c.name in c.files && c.localOpens && Content(c) != []
    ensures Legal(c, Initial(), es)
    ensures ReceiverHeard(c, Initial(), es) == ChunksCome(c, 1, Total(c))
    ensures SenderHeard(c, Initial(), es) == Acks(c.clientOrder, 2, Total(c) + 1)
    ensures var t := Exec(c, Initial(), es);
            && t.server.sender.Some? && (ServerDone(t) <==> NoticesEnd(c))
            && Listens(t) && t.client.receiver.value.out == c.files[c.name]
  {
    hide Inv, SenderHeard, ReceiverHeard, Acks, ChunkCount, At;
    OnlyEmptyFilesHaveNoChunks(c.buffsize, |Content(c)|);
    var gs, u := RunTo(c, Total(c));
    var t;
    es, t := LastTurn(c, gs, u);
    assert Reachable(c, t);
    AllIsOut(c, t);
  }
}
