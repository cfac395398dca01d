/** Each program by itself inside a session.

A run of the session interleaves both programs, event by event; the loops `SenderLoop.FileTransfer` and
`ReceiverLoop.FileTransfer`, which the classes are proved to run, see only what arrives at their own socket.
Here it is shown that they are the same: what either program does in a run is what its loop does on what it
heard in that run. */
module Projection {
  import opened Bytes
  import opened Codec
  import opened Chunks
  import opened InitPayload
  import opened Session
  import opened SessionInvariant
  import opened Safety
  import S = Sender
  import R = Receiver
  import SenderLoop
  import ReceiverLoop

  // ---------- the server ----------

  predicate SenderWaits(s: State) {
    s.server.ph == Transferring && s.server.sender.Some? && s.server.sender.value.st == S.SWaitOnResponse
  }

  /** What the sender makes of an event: something it hears, or a silence, if it waits. */
  ghost function SenderEar(s: State, e: Event): (a: seq<Arrival>)
    requires Enabled(s, e)
    ensures Framed(a)
  {
    if !SenderWaits(s) then []
    else
      match e
      case ServerHears(w) => [Came(w)]
      case ServerTimesOut => [Silence]
      case _ => []
  }

  /** What the sender puts on the network in an event. */
  function SenderVoice(s: State, e: Event): seq<Wire>
    requires StateOk(s)
  {
    if e.ServerPasses? && SenderRuns(s) then S.Pass(s.server.sender.value).1 else []
  }

  ghost function SenderHeard(c: Config, s: State, es: seq<Event>): (a: seq<Arrival>)
    requires StateOk(s) && Legal(c, s, es)
    ensures Framed(a)
    decreases es
  {
    if es == [] then [] else SenderEar(s, es[0]) + SenderHeard(c, Next(c, s, es[0]), es[1..])
  }

  ghost function SenderSaid(c: Config, s: State, es: seq<Event>): seq<Wire>
    requires StateOk(s) && Legal(c, s, es)
    decreases es
  {
    if es == [] then [] else SenderVoice(s, es[0]) + SenderSaid(c, Next(c, s, es[0]), es[1..])
  }

  /** The loop goes from `v` on what is heard, `heard`, to where it goes on from `u`, sending `said` meanwhile. */
  ghost predicate SenderGoes(v: S.Sender, heard: seq<Arrival>, said: seq<Wire>, u: S.Sender, future: seq<Arrival>)
    requires S.WellFormed(v) && S.WellFormed(u) && Framed(heard) && Framed(future)
  {
    var (x, all, _) := SenderLoop.FileTransfer(v, heard + future);
    var (y, more, _) := SenderLoop.FileTransfer(u, future);
    x == y && all == said + more
  }

  lemma SenderGoesOn(v: S.Sender, a: seq<Arrival>, x: seq<Wire>, u: S.Sender, b: seq<Arrival>, y: seq<Wire>,
                     t: S.Sender, future: seq<Arrival>)
    requires S.WellFormed(v) && S.WellFormed(u) && S.WellFormed(t) && Framed(a) && Framed(b) && Framed(future)
    requires SenderGoes(v, a, x, u, b + future) && SenderGoes(u, b, y, t, future)
    ensures SenderGoes(v, a + b, x + y, t, future)
  {
    hide SenderLoop.FileTransfer;
    assert a + (b + future) == a + b + future;
    var more := SenderLoop.FileTransfer(t, future).1;
    assert x + (y + more) == x + y + more;
  }

  lemma SenderStays(v: S.Sender, future: seq<Arrival>)
    requires S.WellFormed(v) && Framed(future)
    ensures SenderGoes(v, [], [], v, future)
  {
    hide SenderLoop.FileTransfer;
    assert [] + future == future;
  }

  /** One turn of the loop, as the session makes it. */
  lemma SenderTurns(v: S.Sender, a: Arrival, future: seq<Arrival>)
    requires S.WellFormed(v) && Framed([a]) && Framed(future) && !SenderLoop.Over(v)
    ensures if v.st == S.SWaitOnResponse then SenderGoes(v, [a], [], SenderLoop.Wait(v, a), future)
            else SenderGoes(v, [], S.Pass(v).1, S.Pass(v).0, future)
  {
    hide SenderLoop.FileTransfer, S.Pass, SenderLoop.Wait;
    if v.st == S.SWaitOnResponse {
      SenderLoop.OneTurn(v, [a] + future);
      assert Rest([a] + future) == future;
    } else {
      SenderLoop.OneTurn(v, future);
      assert [] + future == future;
    }
  }

  /** One event, once the transfer has begun. */
  lemma SenderFollows(c: Config, s: State, e: Event, future: seq<Arrival>)
    requires Good(c) && Inv(c, s) && Enabled(s, e) && s.server.sender.Some? && Framed(future)
    ensures var t := Next(c, s, e);
            && t.server.sender.Some?
            && SenderGoes(s.server.sender.value, SenderEar(s, e), SenderVoice(s, e), t.server.sender.value, future)
  {
    hide SenderGoes, S.Inv, S.Pass, S.Respond, Receive, Encode, NetworkInv, ClientInv, HandshakeInv;
    hide ClientPass, ClientHear, ClientTimeout;
    var v := s.server.sender.value;
    SenderStays(v, future);
    WaitingPassIsNone(v);
    assert v.st != S.SStuck;
    if SenderRuns(s) {
      SenderTurns(v, if e.ServerHears? then Came(e.w) else Silence, future);
    }
  }

  lemma WaitingPassIsNone(v: S.Sender)
    requires S.WellFormed(v)
    ensures v.st == S.SWaitOnResponse ==> S.Pass(v) == (v, [])
  {
  }

  /** One event, while it has not. */
  lemma SenderAwaitsBegin(c: Config, s: State, e: Event)
    requires Good(c) && Inv(c, s) && Enabled(s, e) && s.server.sender.None?
    ensures SenderEar(s, e) == [] && SenderVoice(s, e) == []
    ensures var t := Next(c, s, e);
            t.server.sender.Some? ==>
              t.server.sender.value == S.Start(c.windowSize, c.buffsize, Content(c), c.serverOrder)
  {
    hide S.Start, S.Pass, Receive, Encode, NetworkInv, ClientInv, HandshakeInv, ClientPass, ClientHear, ClientTimeout;
    hide NetworkBytes;
  }

  lemma {:induction false} SenderFollowsRun(c: Config, s: State, es: seq<Event>, future: seq<Arrival>)
    requires Good(c) && Inv(c, s) && Legal(c, s, es) && Framed(future)
    ensures var t := Exec(c, s, es);
            t.server.sender.Some? ==>
              SenderGoes(if s.server.sender.Some? then s.server.sender.value
                         else S.Start(c.windowSize, c.buffsize, Content(c), c.serverOrder),
                         SenderHeard(c, s, es), SenderSaid(c, s, es), t.server.sender.value, future)
    decreases es
  {
    assert StateOk(s);
    hide Inv, Next, SenderGoes, SenderEar, SenderVoice, S.Start, Enabled, Encode;
    if es == [] {
      if s.server.sender.Some? {
        SenderStays(s.server.sender.value, future);
      }
    } else {
      var t := Next(c, s, es[0]);
      NextKeeps(c, s, es[0]);
      SenderFollowsRun(c, t, es[1..], future);
      var rest, said := SenderHeard(c, t, es[1..]), SenderSaid(c, t, es[1..]);
      if s.server.sender.Some? {
        SenderFollows(c, s, es[0], rest + future);
        if Exec(c, s, es).server.sender.Some? {
          SenderGoesOn(s.server.sender.value, SenderEar(s, es[0]), SenderVoice(s, es[0]), t.server.sender.value,
                       rest, said, Exec(c, s, es).server.sender.value, future);
        }
      } else {
        SenderAwaitsBegin(c, s, es[0]);
        assert [] + rest == rest && [] + said == said;
      }
    }
  }

  // ---------- rcopy ----------

  predicate ReceiverWaits(s: State) {
    s.client.ph == Receiving && s.client.receiver.Some? && s.client.receiver.value.st == R.CWaitOnData
  }

  ghost function ReceiverEar(s: State, e: Event): (a: seq<Arrival>)
    requires Enabled(s, e)
    ensures Framed(a)
  {
    if !ReceiverWaits(s) then []
    else
      match e
      case ClientHears(w) => [Came(w)]
      case ClientTimesOut => [Silence]
      case _ => []
  }

  function ReceiverVoice(s: State, e: Event): seq<Wire>
    requires StateOk(s)
  {
    if e.ClientPasses? && ReceiverRuns(s) then R.Pass(s.client.receiver.value).1 else []
  }

  ghost function ReceiverHeard(c: Config, s: State, es: seq<Event>): (a: seq<Arrival>)
    requires StateOk(s) && Legal(c, s, es)
    ensures Framed(a)
    decreases es
  {
    if es == [] then [] else ReceiverEar(s, es[0]) + ReceiverHeard(c, Next(c, s, es[0]), es[1..])
  }

  ghost function ReceiverSaid(c: Config, s: State, es: seq<Event>): seq<Wire>
    requires StateOk(s) && Legal(c, s, es)
    decreases es
  {
    if es == [] then [] else ReceiverVoice(s, es[0]) + ReceiverSaid(c, Next(c, s, es[0]), es[1..])
  }

  ghost predicate ReceiverGoes(v: R.Receiver, heard: seq<Arrival>, said: seq<Wire>, u: R.Receiver,
                               future: seq<Arrival>)
    requires R.WellFormed(v) && R.WellFormed(u) && Framed(heard) && Framed(future)
  {
    var (x, all) := ReceiverLoop.FileTransfer(v, heard + future);
    var (y, more) := ReceiverLoop.FileTransfer(u, future);
    x == y && all == said + more
  }

  lemma ReceiverGoesOn(v: R.Receiver, a: seq<Arrival>, x: seq<Wire>, u: R.Receiver, b: seq<Arrival>, y: seq<Wire>,
                       t: R.Receiver, future: seq<Arrival>)
    requires R.WellFormed(v) && R.WellFormed(u) && R.WellFormed(t) && Framed(a) && Framed(b) && Framed(future)
    requires ReceiverGoes(v, a, x, u, b + future) && ReceiverGoes(u, b, y, t, future)
    ensures ReceiverGoes(v, a + b, x + y, t, future)
  {
    hide ReceiverLoop.FileTransfer;
    assert a + (b + future) == a + b + future;
    var more := ReceiverLoop.FileTransfer(t, future).1;
    assert x + (y + more) == x + y + more;
  }

  lemma ReceiverStays(v: R.Receiver, future: seq<Arrival>)
    requires R.WellFormed(v) && Framed(future)
    ensures ReceiverGoes(v, [], [], v, future)
  {
    hide ReceiverLoop.FileTransfer;
    assert [] + future == future;
  }

  lemma ReceiverTurns(v: R.Receiver, a: Arrival, future: seq<Arrival>)
    requires R.WellFormed(v) && Framed([a]) && Framed(future)
    ensures v.st == R.CWaitOnData ==>
              var t := match a case Silence => v.(st := R.CTimeoutOnData) case Came(w) => R.Hear(v, w);
              ReceiverGoes(v, [a], [], t, future)
    ensures ReceiverGoes(v, [], R.Pass(v).1, R.Pass(v).0, future)
  {
    hide ReceiverLoop.FileTransfer, R.Hear;
    if v.st == R.CWaitOnData {
      ReceiverLoop.HeardFirst(v, [a] + future);
      assert Rest([a] + future) == future;
      var t := v.(st := R.CTimeoutOnData);
      ReceiverLoop.PassFirst(t, future);
      ReceiverLoop.NoTurn(R.Pass(t).0, future);
    }
    ReceiverLoop.PassFirst(v, future);
    assert [] + future == future;
  }

  /** One event, once rcopy is receiving. */
  lemma ReceiverFollows(c: Config, s: State, e: Event, future: seq<Arrival>)
    requires Good(c) && Inv(c, s) && Enabled(s, e) && s.client.receiver.Some? && Framed(future)
    ensures var t := Next(c, s, e);
            && t.client.receiver.Some?
            && ReceiverGoes(s.client.receiver.value, ReceiverEar(s, e), ReceiverVoice(s, e), t.client.receiver.value,
                            future)
  {
    hide ReceiverGoes, R.Inv, R.SimpleOf, R.Pass, R.Hear, R.Start, Receive, Encode, NetworkInv, ServerInv, HandshakeInv;
    hide ServerPass, ServerHear, ServerTimeout;
    var v := s.client.receiver.value;
    ReceiverStays(v, future);
    if ReceiverRuns(s) {
      ReceiverTurns(v, if e.ClientHears? then Came(e.w) else Silence, future);
    }
  }

  /** One event, while it is not. */
  lemma ReceiverAwaitsBegin(c: Config, s: State, e: Event)
    requires Good(c) && Inv(c, s) && Enabled(s, e) && s.client.receiver.None?
    ensures ReceiverEar(s, e) == [] && ReceiverVoice(s, e) == []
    ensures var t := Next(c, s, e);
            t.client.receiver.Some? ==>
              t.client.receiver.value == R.Start(c.windowSize, c.scratch, c.clientOrder)
  {
    hide R.Start, R.Pass, R.Hear, Receive, Encode, NetworkInv, ServerInv, HandshakeInv;
    hide ServerPass, ServerHear, ServerTimeout;
  }

  lemma {:induction false} ReceiverFollowsRun(c: Config, s: State, es: seq<Event>, future: seq<Arrival>)
    requires Good(c) && Inv(c, s) && Legal(c, s, es) && Framed(future)
    ensures var t := Exec(c, s, es);
            t.client.receiver.Some? ==>
              ReceiverGoes(if s.client.receiver.Some? then s.client.receiver.value
                           else R.Start(c.windowSize, c.scratch, c.clientOrder),
                           ReceiverHeard(c, s, es), ReceiverSaid(c, s, es), t.client.receiver.value, future)
    decreases es
  {
    assert StateOk(s);
    hide Inv, Next, ReceiverGoes, ReceiverEar, ReceiverVoice, R.Start, Enabled, Encode;
    if es == [] {
      if s.client.receiver.Some? {
        ReceiverStays(s.client.receiver.value, future);
      }
    } else {
      var t := Next(c, s, es[0]);
      NextKeeps(c, s, es[0]);
      ReceiverFollowsRun(c, t, es[1..], future);
      var rest, said := ReceiverHeard(c, t, es[1..]), ReceiverSaid(c, t, es[1..]);
      if s.client.receiver.Some? {
        ReceiverFollows(c, s, es[0], rest + future);
        if Exec(c, s, es).client.receiver.Some? {
          ReceiverGoesOn(s.client.receiver.value, ReceiverEar(s, es[0]), ReceiverVoice(s, es[0]),
                         t.client.receiver.value, rest, said, Exec(c, s, es).client.receiver.value, future);
        }
      } else {
        ReceiverAwaitsBegin(c, s, es[0]);
        assert [] + rest == rest && [] + said == said;
      }
    }
  }

  // ---------- what is heard is what the loops can take ----------

  lemma {:induction false} HeardIsTame(c: Config, s: State, es: seq<Event>)
    requires Good(c) && Inv(c, s) && StateOk(s) && Legal(c, s, es)
    ensures SenderLoop.Tame(SenderHeard(c, s, es), c.serverOrder, c.buffsize, c.windowSize)
    ensures ReceiverLoop.Tame(ReceiverHeard(c, s, es), c.clientOrder, c.buffsize, c.windowSize)
    decreases es
  {
    hide Inv, Next, Receive, Encode, Arrives;
    if es != [] {
      NextKeeps(c, s, es[0]);
      HeardIsTame(c, Next(c, s, es[0]), es[1..]);
      match es[0]
      case ServerHears(w) => TameInInv(c, s, w);
      case ClientHears(w) => TameInInv(c, s, w);
      case _ =>
    }
  }

  /** The data rcopy hears are chunks of the file, so those of one number have one length. */
  lemma {:induction false} HeardAreChunks(c: Config, s: State, es: seq<Event>, a: Arrival)
    requires Good(c) && Inv(c, s) && StateOk(s) && Legal(c, s, es)
    requires a in ReceiverHeard(c, s, es) && ReceiverLoop.IsData(a, c.clientOrder, c.buffsize)
    ensures var p := Receive(c.clientOrder, Truncate(a.w, c.buffsize)).value;
            p.seq_ >= 1 && p.data == Chunk(Content(c), c.buffsize, p.seq_)
    decreases es
  {
    hide Inv, Next, Receive, Encode, Arrives, Chunk;
    if a in ReceiverEar(s, es[0]) {
      InvOfNetwork(c, s);
      ClientHearsOnlyServer(c, s, a.w);
    } else {
      NextKeeps(c, s, es[0]);
      HeardAreChunks(c, Next(c, s, es[0]), es[1..], a);
    }
  }

  lemma InvOfNetwork(c: Config, s: State)
    requires Inv(c, s)
    ensures NetworkInv(c, s)
  {
  }

  lemma HeardHasOneLengthEach(c: Config, s: State, es: seq<Event>)
    requires Good(c) && Inv(c, s) && StateOk(s) && Legal(c, s, es)
    ensures ReceiverLoop.OneLengthEach(ReceiverHeard(c, s, es), c.clientOrder, c.buffsize)
  {
    hide Inv, Next, Receive, Encode, Chunk, ReceiverHeard, ReceiverLoop.IsData;
    var heard := ReceiverHeard(c, s, es);
    forall a | a in heard && ReceiverLoop.IsData(a, c.clientOrder, c.buffsize)
      ensures DataIsChunk(c, a)
    {
      HeardAreChunks(c, s, es, a);
    }
    ChunksHaveOneLength(c, heard);
  }

  ghost predicate DataIsChunk(c: Config, a: Arrival) {
    ReceiverLoop.IsData(a, c.clientOrder, c.buffsize) ==>
      var p := Receive(c.clientOrder, Truncate(a.w, c.buffsize)).value;
      p.seq_ >= 1 && p.data == Chunk(Content(c), c.buffsize, p.seq_)
  }

  lemma ChunksHaveOneLength(c: Config, heard: seq<Arrival>)
    requires Framed(heard) && forall a :: a in heard ==> DataIsChunk(c, a)
    ensures ReceiverLoop.OneLengthEach(heard, c.clientOrder, c.buffsize)
  {
    hide Receive, Chunk;
    assert forall a :: a in heard ==> DataIsChunk(c, a);
  }

  // ---------- what is said is what is on the network ----------

  /** The datagrams of certain kinds, in order. */
  function Flagged(ws: seq<Wire>, flags: set<byte>): seq<Wire> {
    if ws == [] then []
    else (if HasFlag(ws[0], flags) then [ws[0]] else []) + Flagged(ws[1..], flags)
  }

  predicate HasFlag(w: Wire, flags: set<byte>) {
    |w| >= HDR_LEN && Parse(w).flag in flags
  }

  lemma {:induction false} FlaggedAppend(a: seq<Wire>, b: seq<Wire>, flags: set<byte>)
    ensures Flagged(a + b, flags) == Flagged(a, flags) + Flagged(b, flags)
    decreases a
  {
    hide HasFlag;
    if a == [] {
      assert a + b == b;
    } else {
      assert (a + b)[1..] == a[1..] + b;
      FlaggedAppend(a[1..], b, flags);
    }
  }

  lemma {:induction false} FlaggedAll(ws: seq<Wire>, flags: set<byte>)
    ensures (forall w :: w in ws ==> HasFlag(w, flags)) ==> Flagged(ws, flags) == ws
    ensures (forall w :: w in ws ==> !HasFlag(w, flags)) ==> Flagged(ws, flags) == []
    decreases ws
  {
    hide HasFlag;
    if ws != [] {
      FlaggedAll(ws[1..], flags);
    }
  }

  lemma EncodedFlag(o: Order, p: Packet, flags: set<byte>)
    ensures HasFlag(Encode(o, p), flags) <==> p.flag in flags
  {
    ParseEncoded(o, p);
  }

  /** All that a pass of the sender says is data. */
  lemma VoiceIsData(c: Config, s: State, w: Wire)
    requires Good(c) && s.server.sender.Some? && SenderInv(c, s, s.server.sender.value)
    requires w in S.Pass(s.server.sender.value).1
    ensures HasFlag(w, {DATA})
  {
    hide Encode, Parse, Chunk, Off, ChunkCount;
    var v := s.server.sender.value;
    S.SendKeepsInv(v);
    hide S.Inv;
    S.FullWiresAreLabelled(v, v.win.bottom, S.FilledTo(v), w);
    var q :| v.win.bottom <= q <= S.FilledTo(v) && w == S.LabelledWire(v, q);
    EncodedFlag(c.serverOrder, Packet(DATA, S.Low32(q), Chunk(Content(c), c.buffsize, q)), {DATA});
  }

  /** What the server says besides data is not data. */
  lemma ServerSaysNoData(c: Config, s: State, w: Wire)
    requires Good(c) && Inv(c, s) && !SenderRuns(s) && w in ServerPass(c, s.server).1
    ensures !HasFlag(w, {DATA})
  {
    hide S.Inv, S.Pass, Encode, Parse, NetworkInv, ClientInv, HandshakeInv, NetworkBytes;
    EncodedFlag(c.serverOrder, Packet(FILE_EOF, 1, []), {DATA});
    assert w == s.server.sendPkt;
  }

  lemma SenderOfInv(c: Config, s: State)
    requires Inv(c, s) && s.server.sender.Some?
    ensures SenderInv(c, s, s.server.sender.value)
  {
  }

  lemma PassSaysVoice(c: Config, s: State)
    requires Good(c) && Inv(c, s) && StateOk(s)
    ensures Flagged(ServerPass(c, s.server).1, {DATA}) == SenderVoice(s, ServerPasses)
  {
    hide Inv, S.Pass, Encode, Parse, Flagged, HasFlag;
    var out := ServerPass(c, s.server).1;
    FlaggedAll(out, {DATA});
    if SenderRuns(s) {
      SenderOfInv(c, s);
      forall w | w in out ensures HasFlag(w, {DATA}) {
        VoiceIsData(c, s, w);
      }
    } else {
      hide ServerPass;
      forall w | w in out ensures !HasFlag(w, {DATA}) {
        ServerSaysNoData(c, s, w);
      }
    }
  }

  lemma ReplySaysNoData(c: Config, s: State, w: Wire)
    requires Good(c) && Inv(c, s) && StateOk(s) && Arrives(w, s.toServer)
    ensures Flagged(ServerHear(c, s.server, w).1, {DATA}) == []
  {
    ServerHearsLocally(c, s, w);
    hide Inv, ServerHear, Next, ServerInv, Grows, Encode, Parse, Flagged, HasFlag;
    FlaggedAll(ServerHear(c, s.server, w).1, {DATA});
    EncodedFlag(c.serverOrder, Packet(FILE_BEGIN_ACK, 0, []), {DATA});
  }

  lemma ServerLogGrows(c: Config, s: State, e: Event)
    requires Good(c) && Inv(c, s) && Enabled(s, e) && StateOk(s)
    ensures Flagged(Next(c, s, e).toClient, {DATA}) == Flagged(s.toClient, {DATA}) + SenderVoice(s, e)
  {
    hide Inv, ServerPass, ServerHear, ServerTimeout, ClientPass, ClientHear, ClientTimeout, Flagged;
    match e
    case ServerPasses =>
      FlaggedAppend(s.toClient, ServerPass(c, s.server).1, {DATA});
      PassSaysVoice(c, s);
    case ServerHears(w) =>
      FlaggedAppend(s.toClient, ServerHear(c, s.server, w).1, {DATA});
      ReplySaysNoData(c, s, w);
    case _ =>
  }

  lemma {:induction false} ServerLogIsSaid(c: Config, s: State, es: seq<Event>)
    requires Good(c) && Inv(c, s) && StateOk(s) && Legal(c, s, es)
    ensures Flagged(Exec(c, s, es).toClient, {DATA}) == Flagged(s.toClient, {DATA}) + SenderSaid(c, s, es)
    decreases es
  {
    hide Inv, Next, Flagged, SenderVoice;
    if es != [] {
      NextKeeps(c, s, es[0]);
      ServerLogGrows(c, s, es[0]);
      ServerLogIsSaid(c, Next(c, s, es[0]), es[1..]);
    }
  }

  lemma RcopySaysVoice(c: Config, s: State)
    requires Good(c) && Inv(c, s) && StateOk(s)
    ensures Flagged(ClientPass(c, s.client).1, {RR, SREJ}) == ReceiverVoice(s, ClientPasses)
  {
    hide Inv, R.Pass, Encode, Parse, Flagged, HasFlag, InitData;
    FlaggedAll(ClientPass(c, s.client).1, {RR, SREJ});
    EncodedFlag(c.clientOrder, Packet(FILE_NAME, CLIENT_SEQ, InitData(c.buffsize, c.windowSize, c.name)), {RR, SREJ});
    EncodedFlag(c.clientOrder, Packet(FILE_BEGIN, CLIENT_SEQ, []), {RR, SREJ});
    if s.client.receiver.Some? {
      var r := s.client.receiver.value;
      EncodedFlag(c.clientOrder, Packet(FILE_EOF_ACK, r.seq_ % U32_LIMIT, []), {RR, SREJ});
    }
    if ReceiverRuns(s) {
      forall w | w in R.Pass(s.client.receiver.value).1 ensures HasFlag(w, {RR, SREJ}) {
        ReplyFlags(c, s, w);
      }
    }
  }

  lemma ReplyFlags(c: Config, s: State, w: Wire)
    requires StateOk(s) && ReceiverRuns(s) && w in R.Pass(s.client.receiver.value).1
    ensures HasFlag(w, {RR, SREJ})
  {
    hide Encode, Parse, HasFlag, R.WriteFrom, R.AdjustWindow;
    var r := s.client.receiver.value;
    EncodedFlag(r.order, Packet(RR, r.win.rr % U32_LIMIT, []), {RR, SREJ});
    EncodedFlag(r.order, Packet(SREJ, r.win.rr % U32_LIMIT, []), {RR, SREJ});
  }

  lemma ClientLogGrows(c: Config, s: State, e: Event)
    requires Good(c) && Inv(c, s) && Enabled(s, e) && StateOk(s)
    ensures Flagged(Next(c, s, e).toServer, {RR, SREJ}) == Flagged(s.toServer, {RR, SREJ}) + ReceiverVoice(s, e)
  {
    hide Inv, ServerPass, ServerHear, ServerTimeout, ClientPass, ClientHear, ClientTimeout, Flagged;
    if e == ClientPasses {
      FlaggedAppend(s.toServer, ClientPass(c, s.client).1, {RR, SREJ});
      RcopySaysVoice(c, s);
    }
  }

  lemma {:induction false} ClientLogIsSaid(c: Config, s: State, es: seq<Event>)
    requires Good(c) && Inv(c, s) && StateOk(s) && Legal(c, s, es)
    ensures Flagged(Exec(c, s, es).toServer, {RR, SREJ}) == Flagged(s.toServer, {RR, SREJ}) + ReceiverSaid(c, s, es)
    decreases es
  {
    hide Inv, Next, Flagged, ReceiverVoice;
    if es != [] {
      NextKeeps(c, s, es[0]);
      ClientLogGrows(c, s, es[0]);
      ClientLogIsSaid(c, Next(c, s, es[0]), es[1..]);
    }
  }

  // ---------- the two programs ----------

  /** In every run the server's loop, given what the server has heard, has got to the sender of the state
      reached, and has sent the data that are on the network. */
  lemma ServerRunsItsLoop(c: Config, es: seq<Event>, future: seq<Arrival>)
    requires Good(c) && Legal(c, Initial(), es) && Framed(future)
    requires Exec(c, Initial(), es).server.sender.Some?
    ensures var t := Exec(c, Initial(), es);
            var heard := SenderHeard(c, Initial(), es);
            && SenderLoop.Tame(heard, c.serverOrder, c.buffsize, c.windowSize)
            && SenderLoop.Returns(S.Start(c.windowSize, c.buffsize, Content(c), c.serverOrder), heard)
            && SenderGoes(S.Start(c.windowSize, c.buffsize, Content(c), c.serverOrder), heard,
                          Flagged(t.toClient, {DATA}), t.server.sender.value, future)
  {
    hide Inv, SenderGoes, SenderHeard, SenderSaid, S.Start, Exec, SenderLoop.Tame, SenderLoop.Returns;
    InitialInv(c);
    HeardIsTame(c, Initial(), es);
    SenderLoop.TameReturns(c.windowSize, c.buffsize, Content(c), c.serverOrder, SenderHeard(c, Initial(), es));
    SenderFollowsRun(c, Initial(), es, future);
    ServerLogIsSaid(c, Initial(), es);
    assert Flagged([], {DATA}) + SenderSaid(c, Initial(), es) == SenderSaid(c, Initial(), es);
  }

  /** And rcopy's loop, given what rcopy has heard, has got to the receiver of the state reached, and has sent
      the replies that are on the network. */
  lemma ClientRunsItsLoop(c: Config, es: seq<Event>, future: seq<Arrival>)
    requires Good(c) && Legal(c, Initial(), es) && Framed(future)
    requires Exec(c, Initial(), es).client.receiver.Some?
    ensures var t := Exec(c, Initial(), es);
            var heard := ReceiverHeard(c, Initial(), es);
            && ReceiverLoop.Tame(heard, c.clientOrder, c.buffsize, c.windowSize)
            && ReceiverLoop.OneLengthEach(heard, c.clientOrder, c.buffsize)
            && ReceiverLoop.NoneIsLast(heard, c.clientOrder, c.buffsize, c.windowSize)
            && ReceiverGoes(R.Start(c.windowSize, c.scratch, c.clientOrder), heard,
                            Flagged(t.toServer, {RR, SREJ}), t.client.receiver.value, future)
  {
    hide Inv, ReceiverGoes, ReceiverHeard, ReceiverSaid, R.Start, Exec, ReceiverLoop.Tame, ReceiverLoop.NoneIsLast;
    InitialInv(c);
    HeardIsTame(c, Initial(), es);
    ReceiverLoop.TameIsNotLast(ReceiverHeard(c, Initial(), es), c.clientOrder, c.buffsize, c.windowSize);
    HeardHasOneLengthEach(c, Initial(), es);
    ReceiverFollowsRun(c, Initial(), es, future);
    ClientLogIsSaid(c, Initial(), es);
    assert Flagged([], {RR, SREJ}) + ReceiverSaid(c, Initial(), es) == ReceiverSaid(c, Initial(), es);
  }

  /** What the two classes do: given what each heard in a run in which rcopy hears the end, the server's
      `file_transfer` ends done, and rcopy's ends with the server's file as its output. */
  lemma ProgramsCopyTheFile(c: Config, es: seq<Event>)
    requires Good(c) && Legal(c, Initial(), es) && ClientDone(Exec(c, Initial(), es))
    ensures c.name in c.files
    ensures var (v, sent, _) := SenderLoop.FileTransfer(
                S.Start(c.windowSize, c.buffsize, c.files[c.name], c.serverOrder), SenderHeard(c, Initial(), es));
            v.st == S.SDone && sent == Flagged(Exec(c, Initial(), es).toClient, {DATA})
    ensures var (r, replies) := ReceiverLoop.FileTransfer(
                R.Start(c.windowSize, c.scratch, c.clientOrder), ReceiverHeard(c, Initial(), es));
            && r.st == R.CDone && r.out == c.files[c.name]
            && replies == Flagged(Exec(c, Initial(), es).toServer, {RR, SREJ})
  {
    hide Inv, SenderHeard, ReceiverHeard, S.Start, R.Start, Exec, Flagged, SenderLoop.FileTransfer;
    hide ReceiverLoop.FileTransfer, SenderLoop.Tame, ReceiverLoop.Tame, ReceiverLoop.OneLengthEach;
    var t := Exec(c, Initial(), es);
    assert Reachable(c, t);
    hide Reachable, Legal;
    TransferIsFaithful(c, t);
    ServerIsDone(c, t);
    ServerRunsItsLoop(c, es, []);
    ClientRunsItsLoop(c, es, []);
    SenderLoop.NoTurn(t.server.sender.value, []);
    ReceiverLoop.NoTurn(t.client.receiver.value, []);
    var a, b := SenderHeard(c, Initial(), es), ReceiverHeard(c, Initial(), es);
    assert a + [] == a && b + [] == b;
  }

  lemma ServerIsDone(c: Config, s: State)
    requires Good(c) && Reachable(c, s) && ClientDone(s)
    ensures ServerDone(s)
  {
    hide Reachable, NetworkInv, HandshakeInv, R.Inv, R.SimpleOf, S.Inv;
    ReachableInv(c, s);
  }
}
