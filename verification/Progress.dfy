/** What a session achieves when the network does not lose what it is given. */
module Progress {
  import opened Bytes
  import opened Codec
  import opened Chunks
  import opened Session
  import opened SessionInvariant
  import opened FileEnd
  import Ring
  import S = Sender
  import R = Receiver

  // ---------- runs ----------

  /** The events `es` lead from `s` to `t`. */
  ghost predicate Leads(c: Config, s: State, es: seq<Event>, t: State) {
    StateOk(s) && Legal(c, s, es) && Exec(c, s, es) == t
  }

  lemma LeadsOne(c: Config, s: State, e: Event)
    requires StateOk(s) && Enabled(s, e)
    ensures Leads(c, s, [e], Next(c, s, e))
  {
    hide Next, Enabled;
    var t := Next(c, s, e);
    assert [e][1..] == [];
    assert Legal(c, t, []) && Exec(c, t, []) == t;
  }

  lemma {:induction false} LeadsThen(c: Config, s: State, es: seq<Event>, t: State, fs: seq<Event>, u: State)
    requires Leads(c, s, es, t) && Leads(c, t, fs, u)
    ensures Leads(c, s, es + fs, u)
    decreases es
  {
    hide Next, Enabled;
    if es == [] {
      assert es + fs == fs;
    } else {
      var n := Next(c, s, es[0]);
      LeadsThen(c, n, es[1..], t, fs, u);
      assert (es + fs)[0] == es[0];
      assert (es + fs)[1..] == es[1..] + fs;
    }
  }

  lemma LeadsKeeps(c: Config, s: State, es: seq<Event>, t: State)
    requires Good(c) && Inv(c, s) && Leads(c, s, es, t)
    ensures Inv(c, t)
  {
    hide Inv;
    RunKeeps(c, s, es);
  }

  // ---------- one chunk delivered ----------

  predicate Listens(s: State) {
    s.client.ph == Receiving && s.client.receiver.Some? && s.client.receiver.value.st == R.CWaitOnData
  }

  function RRWire(c: Config, q: nat): Wire {
    R.ControlWire(c.clientOrder, RR, q)
  }

  function ChunkWire(c: Config, q: nat): Wire
    requires q >= 1
  {
    S.DataWire(c.serverOrder, q, Chunk(Content(c), c.buffsize, q))
  }

  /** rcopy hears `w` and runs until it waits again. */
  function Deliver(w: Wire): seq<Event> {
    [ClientHears(w), ClientPasses, ClientPasses, ClientPasses]
  }

  /** Three passes of rcopy while its receiver runs. */
  lemma PassesSettle(c: Config, s: State)
    requires StateOk(s) && s.client.ph == Receiving && s.client.receiver.Some?
    requires s.client.receiver.value.st == R.CSendRR
    ensures var (r, out) := R.Settle(s.client.receiver.value);
            Leads(c, s, [ClientPasses, ClientPasses, ClientPasses],
                  s.(client := s.client.(receiver := Some(r)), toServer := s.toServer + out))
  {
    hide R.ControlWire, R.WriteFrom, R.AdjustWindow, Legal, Exec;
    var s1 := Next(c, s, ClientPasses);
    var s2 := Next(c, s1, ClientPasses);
    var s3 := Next(c, s2, ClientPasses);
    LeadsOne(c, s, ClientPasses);
    LeadsOne(c, s1, ClientPasses);
    LeadsOne(c, s2, ClientPasses);
    LeadsThen(c, s, [ClientPasses], s1, [ClientPasses], s2);
    LeadsThen(c, s, [ClientPasses] + [ClientPasses], s2, [ClientPasses], s3);
    assert [ClientPasses] + [ClientPasses] + [ClientPasses] == [ClientPasses, ClientPasses, ClientPasses];
    var (r, out) := R.Settle(s.client.receiver.value);
    assert s3.toServer == s.toServer + out;
  }

  /** Chunk `q`, delivered when rcopy wants it or has had it, is accepted and acknowledged. */
  lemma ChunkIsAcknowledged(c: Config, s: State, q: nat) returns (t: State)
    requires Good(c) && Inv(c, s) && Listens(s)
    requires 1 <= q <= Wanted(s) && q <= TopSent(s) && ChunkWire(c, q) in s.toClient
    ensures Leads(c, s, Deliver(ChunkWire(c, q)), t)
    ensures Inv(c, t) && Listens(t)
    ensures t.server == s.server && t.toClient == s.toClient
    ensures Wanted(t) == Max(Wanted(s), q + 1)
    ensures RRWire(c, Wanted(t)) in t.toServer
    ensures forall w :: w in s.toServer ==> w in t.toServer
  {
    hide S.Inv, Encode, Parse, Legal, Exec, R.WriteFrom, R.AdjustWindow, Chunk, Off, ChunkCount, Receive;
    var w := ChunkWire(c, q);
    var r := s.client.receiver.value;
    SenderNeverRunsAhead(c, s);
    var p := Packet(DATA, q, Chunk(Content(c), c.buffsize, q));
    ReadIsChunk(Content(c), c.buffsize, q - 1);
    ParseEncoded(c.serverOrder, p);
    RoundTrip(c.serverOrder, c.clientOrder, p);
    assert Truncate(w, c.buffsize) == w;
    assert R.Heard(r, w) == Some(p);
    var h := R.Hear(r, w);
    assert h.st == R.CSendRR && h.win.rr == Max(r.win.rr, q + 1);
    var s1 := Next(c, s, ClientHears(w));
    LeadsOne(c, s, ClientHears(w));
    assert s1 == s.(client := s.client.(receiver := Some(h)));
    PassesSettle(c, s1);
    var (u, out) := R.Settle(h);
    SettledReceiver(r, w, ChunkLen(c));
    t := s1.(client := s1.client.(receiver := Some(u)), toServer := s1.toServer + out);
    LeadsThen(c, s, [ClientHears(w)], s1, [ClientPasses, ClientPasses, ClientPasses], t);
    assert [ClientHears(w)] + [ClientPasses, ClientPasses, ClientPasses] == Deliver(w);
    assert out == [RRWire(c, h.win.rr)];
    hide Inv, R.Settle, R.Hear;
    LeadsKeeps(c, s, Deliver(w), t);
  }

  lemma SettledReceiver(r: R.Receiver, w: Wire, len: nat -> nat)
    requires R.Inv(r, len) && r.st == R.CWaitOnData && |w| >= HDR_LEN && R.Consistent(R.Heard(r, w), len)
    requires R.HasRoom(R.Heard(r, w), r.win.rr, |r.win.states|)
    requires R.Hear(r, w).st == R.CSendRR
    ensures var h := R.Hear(r, w);
            var (u, out) := R.Settle(h);
            u.st == R.CWaitOnData && u.win.rr == h.win.rr && out == [R.ControlWire(r.order, RR, h.win.rr)]
  {
    hide R.ControlWire, R.WriteFrom, R.AdjustWindow, R.Unwritten;
    R.HearSimulates(r, w, len);
    var h := R.Hear(r, w);
    R.SettleSimulates(h, len);
    assert R.SimpleOf(R.Settle(h).0).rr == R.Settle(h).0.win.rr;
    assert R.SimpleOf(h).rr == h.win.rr;
  }

  // ---------- a window delivered ----------

  function DeliverChunks(c: Config, q: nat, n: nat): seq<Event>
    requires q >= 1
    decreases n + 1 - q
  {
    if q > n then [] else Deliver(ChunkWire(c, q)) + DeliverChunks(c, q + 1, n)
  }

  /** The chunks `q` to `n`, delivered in order, bring rcopy past `n`. */
  lemma {:induction false} ChunksAreAcknowledged(c: Config, s: State, q: nat, n: nat) returns (t: State)
    requires Good(c) && Inv(c, s) && Listens(s)
    requires 1 <= q <= Wanted(s) && n <= TopSent(s) && q <= n + 1
    requires forall p :: q <= p <= n ==> ChunkWire(c, p) in s.toClient
    ensures Leads(c, s, DeliverChunks(c, q, n), t)
    ensures Inv(c, t) && Listens(t)
    ensures t.server == s.server && t.toClient == s.toClient
    ensures Wanted(t) == Max(Wanted(s), n + 1)
    ensures q <= n ==> RRWire(c, Wanted(t)) in t.toServer
    ensures forall w :: w in s.toServer ==> w in t.toServer
    decreases n + 1 - q
  {
    hide Inv, Legal, Exec, ChunkWire, RRWire;
    if q > n {
      t := s;
      LeadsNothing(c, s);
    } else {
      var u := ChunkIsAcknowledged(c, s, q);
      t := ChunksAreAcknowledged(c, u, q + 1, n);
      LeadsThen(c, s, Deliver(ChunkWire(c, q)), u, DeliverChunks(c, q + 1, n), t);
    }
  }

  lemma LeadsNothing(c: Config, s: State)
    requires Inv(c, s)
    ensures Leads(c, s, [], s)
  {
  }

  /** The server is about to send its window, every frame of it full, and rcopy waits for data. */
  ghost predicate Ready(c: Config, s: State) {
    && Inv(c, s)
    && s.server.ph == Transferring
    && s.server.sender.value.st == S.SSendWindow
    && (forall q :: var v := s.server.sender.value;
          v.win.bottom <= q <= S.FilledTo(v) ==> S.StateOf(v, q) == Ring.Full)
    && Listens(s)
  }

  function Bottom(s: State): nat {
    if s.server.sender.Some? then s.server.sender.value.win.bottom else 1
  }

  /** How far the window of the server reaches into the file. */
  function Reach(c: Config, s: State): nat
    requires c.buffsize > 0
  {
    if s.server.sender.Some? then Min(s.server.sender.value.win.top, Total(c)) else 0
  }

  /** The server sends its window and rcopy receives all of it, in order. */
  function WindowEvents(c: Config, s: State): seq<Event>
    requires c.buffsize > 0 && Bottom(s) >= 1
  {
    [ServerPasses] + DeliverChunks(c, Bottom(s), Reach(c, s))
  }

  lemma {:induction false} FullWiresAreAll(s: S.Sender, q: nat, n: nat, p: nat)
    requires S.WellFormed(s) && 1 <= q <= p <= n
    requires S.StateOf(s, p) == Ring.Full
    ensures S.LabelledWire(s, p) in S.FullWires(s, q, n)
    decreases n + 1 - q
  {
    hide S.LabelledWire, S.StateOf;
    if q < p {
      FullWiresAreAll(s, q + 1, n, p);
    }
  }

  lemma WindowIsSent(c: Config, s: State)
    requires Good(c) && Ready(c, s)
    ensures var t := Next(c, s, ServerPasses);
            && Leads(c, s, [ServerPasses], t)
            && Inv(c, t) && Listens(t) && t.client == s.client && t.toServer == s.toServer
            && t.server.ph == Transferring && t.server.sender.Some?
            && t.server.sender.value.st == S.SWaitOnResponse
            && TopSent(t) == Reach(c, s) && Bottom(t) == Bottom(s) && Reach(c, t) == Reach(c, s)
            && s.server.sender.Some? && t.server.sender.value.win.top == s.server.sender.value.win.top
            && 1 <= Bottom(s) <= Wanted(s) <= Reach(c, s) + 1 && Bottom(s) <= Reach(c, s) + 1
            && forall p :: Bottom(s) <= p <= Reach(c, s) ==> ChunkWire(c, p) in t.toClient
  {
    hide R.Inv, R.SimpleOf, Encode, Chunk, Off, ChunkCount, NetworkInv, HandshakeInv, Legal, Exec;
    var v := s.server.sender.value;
    S.SendKeepsInv(v);
    NextKeeps(c, s, ServerPasses);
    LeadsOne(c, s, ServerPasses);
    var t := Next(c, s, ServerPasses);
    SenderNeverRunsAhead(c, t);
    SenderNeverRunsAhead(c, s);
    forall p | Bottom(s) <= p <= Reach(c, s) ensures ChunkWire(c, p) in t.toClient {
      FullWiresAreAll(v, v.win.bottom, S.FilledTo(v), p);
      assert ChunkWire(c, p) == S.LabelledWire(v, p);
    }
  }

  /** After a window all of which was delivered rcopy wants the first chunk past it and has said so. */
  lemma WindowIsAcknowledged(c: Config, s: State) returns (t: State)
    requires Good(c) && Ready(c, s)
    ensures Bottom(s) >= 1 && Leads(c, s, WindowEvents(c, s), t)
    ensures Inv(c, t) && Listens(t)
    ensures t.server.ph == Transferring && t.server.sender.Some? && t.server.sender.value.st == S.SWaitOnResponse
    ensures s.server.sender.Some? && t.server.sender.value.win.top == s.server.sender.value.win.top
    ensures TopSent(t) == Reach(c, s) && Wanted(t) == Reach(c, s) + 1
    ensures Bottom(t) == Bottom(s) && Reach(c, t) == Reach(c, s)
    ensures Bottom(s) <= Reach(c, s) ==> RRWire(c, Wanted(t)) in t.toServer
    ensures Bottom(s) > Reach(c, s) ==> Reach(c, s) == Total(c)
    ensures forall w :: w in s.toServer ==> w in t.toServer
  {
    hide Leads, ChunkWire, RRWire, Inv, Ready, Next, StateOk, DeliverChunks, ChunkCount;
    ReadyIsOk(c, s);
    WindowIsSent(c, s);
    var u := Next(c, s, ServerPasses);
    t := ChunksAreAcknowledged(c, u, Bottom(s), Reach(c, s));
    LeadsThen(c, s, [ServerPasses], u, DeliverChunks(c, Bottom(s), Reach(c, s)), t);
    WindowShape(c, s);
  }

  lemma ReadyIsOk(c: Config, s: State)
    requires Ready(c, s)
    ensures StateOk(s)
  {
    hide NetworkInv, HandshakeInv, S.Inv, R.Inv, R.SimpleOf;
  }

  lemma WindowShape(c: Config, s: State)
    requires Good(c) && Ready(c, s)
    ensures Bottom(s) > Reach(c, s) ==> Reach(c, s) == Total(c)
    ensures s.server.sender.Some? && s.server.sender.value.win.top == Bottom(s) + c.windowSize - 1
    ensures Reach(c, s) == Min(Bottom(s) + c.windowSize - 1, Total(c))
  {
    hide R.Inv, R.SimpleOf, Encode, Chunk, Off, ChunkCount, NetworkInv, HandshakeInv, Legal, Exec;
  }

  // ---------- a round ----------

  /** Whether filling the server's window takes a read that comes out short. */
  predicate ReachesEnd(c: Config, s: State) {
    s.server.sender.Some? && s.server.sender.value.win.top * c.buffsize > |Content(c)|
  }

  /** The last acknowledgement of the window reaches the server, which slides and, unless it is done,
      fills its window again. */
  function AckEvents(c: Config, n: nat, done: bool): seq<Event> {
    [ServerHears(RRWire(c, n + 1)), ServerPasses] + if done then [] else [ServerPasses]
  }

  function RoundEvents(c: Config, s: State): seq<Event>
    requires c.buffsize > 0 && Bottom(s) >= 1
  {
    WindowEvents(c, s) + AckEvents(c, Reach(c, s), ReachesEnd(c, s))
  }

  /** What the server's window starts with has been asked for. */
  predicate Asked(c: Config, s: State) {
    Bottom(s) > 1 ==> RRWire(c, Bottom(s)) in s.toServer
  }

  /** The server hears that everything it sent is accepted: it is done exactly if its window reaches past the
      end of the file, and moves its window on if not. */
  lemma ServerSlides(c: Config, s: State) returns (t: State)
    requires Good(c) && Inv(c, s) && s.server.sender.Some?
    requires s.server.ph == Transferring && s.server.sender.value.st == S.SWaitOnResponse
    requires 1 <= TopSent(s) && Wanted(s) == TopSent(s) + 1 && RRWire(c, Wanted(s)) in s.toServer
    ensures Leads(c, s, [ServerHears(RRWire(c, Wanted(s))), ServerPasses], t)
    ensures Inv(c, t) && t.client == s.client && t.toServer == s.toServer
    ensures t.server.ph == Transferring && t.server.sender.Some?
    ensures TopSent(t) == TopSent(s)
    ensures if ReachesEnd(c, s) then ServerDone(t)
            else t.server.sender.value.st == S.SFillWindow && Bottom(t) == TopSent(s) + 1
  {
    hide S.Inv, S.Respond, S.AdjustWindow, R.Inv, R.SimpleOf, Encode, Receive, Chunk, Off, ChunkCount, NetworkInv;
    hide HandshakeInv, Leads;
    var w := RRWire(c, Wanted(s));
    var p := Packet(RR, Wanted(s) % U32_LIMIT, []);
    SenderNeverRunsAhead(c, s);
    RoundTrip(c.clientOrder, c.serverOrder, p);
    assert Truncate(w, c.buffsize) == w;
    var v := s.server.sender.value;
    LastAckEndsIff(v, p);
    LastAckIsAdjusted(v, p);
    var u := Next(c, s, ServerHears(w));
    t := Next(c, u, ServerPasses);
    assert u.server.sender.value == S.Respond(v, Some(p));
    assert t.server.sender.value == S.AdjustWindow(S.Respond(v, Some(p)));
    LeadsOne(c, s, ServerHears(w));
    LeadsOne(c, u, ServerPasses);
    LeadsThen(c, s, [ServerHears(w)], u, [ServerPasses], t);
    assert [ServerHears(w)] + [ServerPasses] == [ServerHears(w), ServerPasses];
    NextKeeps(c, s, ServerHears(w));
    NextKeeps(c, u, ServerPasses);
  }

  /** The server fills a window nothing of which has been sent. */
  lemma ServerFills(c: Config, s: State)
    requires Good(c) && Inv(c, s) && Listens(s)
    requires s.server.ph == Transferring && s.server.sender.value.st == S.SFillWindow
    requires Bottom(s) == TopSent(s) + 1
    ensures var t := Next(c, s, ServerPasses);
            && Leads(c, s, [ServerPasses], t) && Ready(c, t) && Inv(c, t) && Listens(t)
            && Bottom(t) == Bottom(s) && t.client == s.client && t.toServer == s.toServer && t.server.ph == Transferring
  {
    hide R.Inv, R.SimpleOf, Encode, Chunk, Off, ChunkCount, NetworkInv, HandshakeInv, Legal, Exec;
    var t := Next(c, s, ServerPasses);
    LeadsOne(c, s, ServerPasses);
    NextKeeps(c, s, ServerPasses);
    S.FillFromKeepsParameters(s.server.sender.value, Bottom(s));
  }

  /** A round, in which every chunk is delivered once and only the last acknowledgement is heard: a whole window
      is accepted, and the server is done exactly if that window reaches past the end of the file, and
      otherwise ready to send the window that follows. */
  lemma LastAckRoundAdvances(c: Config, s: State) returns (t: State)
    requires Good(c) && Ready(c, s) && Bottom(s) <= Reach(c, s)
    ensures Bottom(s) >= 1 && Leads(c, s, RoundEvents(c, s), t)
    ensures Inv(c, t) && Listens(t) && t.server.ph == Transferring
    ensures Wanted(t) == Reach(c, s) + 1
    ensures if ReachesEnd(c, s) then ServerDone(t) && !Ready(c, t) && Reach(c, s) == Total(c)
            else Ready(c, t) && Asked(c, t) && Bottom(t) == Reach(c, s) + 1
  {
    hide Legal, Exec, ChunkWire, RRWire, Next, Inv;
    ReachBounds(c, s);
    hide Ready;
    var u := WindowIsAcknowledged(c, s);
    var v := ServerSlides(c, u);
    LeadsThen(c, s, WindowEvents(c, s), u, [ServerHears(RRWire(c, Wanted(u))), ServerPasses], v);
    if ReachesEnd(c, s) {
      t := v;
      DoneIsNotReady(c, t);
      assert WindowEvents(c, s) + [ServerHears(RRWire(c, Wanted(u))), ServerPasses] == RoundEvents(c, s);
    } else {
      t := Next(c, v, ServerPasses);
      ServerFills(c, v);
      LeadsThen(c, s, WindowEvents(c, s) + [ServerHears(RRWire(c, Wanted(u))), ServerPasses], v, [ServerPasses], t);
      assert WindowEvents(c, s) + [ServerHears(RRWire(c, Wanted(u))), ServerPasses] + [ServerPasses]
          == RoundEvents(c, s);
    }
  }

  /** When nothing is left to send, a server that hears its last acknowledgement once more is done. */
  lemma RepeatedAckFinishes(c: Config, s: State) returns (t: State)
    requires Good(c) && Ready(c, s) && Asked(c, s) && Bottom(s) > Reach(c, s) && Content(c) != []
    ensures Leads(c, s, [ServerPasses] + [ServerHears(RRWire(c, Wanted(t))), ServerPasses], t)
    ensures Inv(c, t) && Listens(t) && t.server.ph == Transferring && ServerDone(t)
  {
    hide Legal, Exec, ChunkWire, RRWire, Next, Inv;
    ReachBounds(c, s);
    EmptyWindowReachesEnd(c, s);
    OnlyEmptyFilesHaveNoChunks(c.buffsize, |Content(c)|);
    hide Ready;
    var u := WindowIsAcknowledged(c, s);
    assert WindowEvents(c, s) == [ServerPasses];
    assert Bottom(s) == Wanted(u);
    t := ServerSlides(c, u);
    LeadsThen(c, s, [ServerPasses], u, [ServerHears(RRWire(c, Wanted(u))), ServerPasses], t);
  }

  lemma DoneIsNotReady(c: Config, s: State)
    requires ServerDone(s)
    ensures !Ready(c, s)
  {
  }

  lemma ReachBounds(c: Config, s: State)
    requires Good(c) && Ready(c, s)
    ensures 1 <= Bottom(s) <= Reach(c, s) + 1
    ensures s.server.sender.Some?
    ensures ReachesEnd(c, s) ==> Reach(c, s) == Total(c)
    ensures Bottom(s) > Reach(c, s) ==> Reach(c, s) == Total(c)
  {
    hide R.Inv, R.SimpleOf, Encode, Chunk, Off, ChunkCount, NetworkInv, HandshakeInv, Legal, Exec, S.StateOf, S.WireOf;
    PastEndBounds(c.buffsize, |Content(c)|, s.server.sender.value.win.top);
  }

  lemma EmptyWindowReachesEnd(c: Config, s: State)
    requires Good(c) && Ready(c, s) && Bottom(s) > Reach(c, s)
    ensures ReachesEnd(c, s)
  {
    hide R.Inv, R.SimpleOf, Encode, Chunk, Off, ChunkCount, NetworkInv, HandshakeInv, Legal, Exec, S.StateOf, S.WireOf;
    PastEndBounds(c.buffsize, |Content(c)|, s.server.sender.value.win.top);
  }
}
