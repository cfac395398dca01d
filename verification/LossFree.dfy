/** The transfer when nothing is lost: every acknowledgement is heard, once, in order. */
module LossFree {
  import opened Bytes
  import opened Codec
  import opened Chunks
  import opened Ring
  import opened Sender
  import opened SenderLoop
  import opened Resend
  import opened FileEnd

  function Ack(q: nat): Packet {
    Packet(RR, Low32(q), [])
  }

  /** The acknowledgements `q` to `n`, as a host of order `peer` sends them. */
  function Acks(peer: Order, q: nat, n: nat): (a: seq<Arrival>)
    ensures Framed(a)
    decreases n + 1 - q
  {
    if q > n then [] else [Came(Encode(peer, Ack(q)))] + Acks(peer, q + 1, n)
  }

  /** The server waits, everything below `k` has been acknowledged, and nothing else has been heard. */
  ghost predicate WaitsFor(s: Sender, k: nat) {
    && WellFormed(s) && s.win.buffsize > 0
    && Inv(s) && s.st == SWaitOnResponse
    && s.win.bottom == k && s.win.rr <= k && s.win.srej <= k
    && k <= Total(s)
  }

  /** From one wait to the next, when RR `k + 1` is heard. */
  function Turn(s: Sender, k: nat): (Sender, seq<Wire>)
    requires WellFormed(s)
  {
    SendWindow(FillWindow(AdjustWindow(Respond(s, Some(Ack(k + 1))))))
  }

  /** What the acknowledgement of a chunk that is not the last leads to: the window moves by one. */
  lemma AckMovesWindow(s: Sender, k: nat)
    requires WaitsFor(s, k) && k < Total(s)
    ensures var a := AdjustWindow(Respond(s, Some(Ack(k + 1))));
            && Respond(s, Some(Ack(k + 1))).st == SAdjustWindow
            && Inv(a) && a.st == SFillWindow && a.win.bottom == k + 1 && a.win.rr == k + 1 && a.win.srej <= k + 1
            && a.content == s.content && a.order == s.order && a.win.buffsize == s.win.buffsize
            && |a.win.states| == |s.win.states| && a.win.topSent == s.win.topSent
  {
    hide DataWire, StateOf, WireOf, Chunk, Off, EmptyDown, ChunkCount;
    RespondKeepsInv(s, Some(Ack(k + 1)));
    AdjustKeepsInv(Respond(s, Some(Ack(k + 1))));
    PastEndBounds(s.win.buffsize, |s.content|, k);
  }

  /** What is sent when a window has moved: the chunks that have entered it. */
  lemma SendsWhatEntered(a: Sender)
    requires Inv(a) && a.st == SFillWindow
    ensures var (t, out) := SendWindow(FillWindow(a));
            && WellFormed(t) && t.win.buffsize > 0 && Inv(t) && t.st == SWaitOnResponse
            && t.win.bottom == a.win.bottom && t.win.rr == a.win.rr && t.win.srej == a.win.srej
            && t.content == a.content && t.order == a.order && t.win.buffsize == a.win.buffsize
            && |t.win.states| == |a.win.states|
            && t.win.topSent == Min(a.win.bottom + |a.win.states| - 1, Total(a))
            && out == ChunkWires(a, a.win.topSent + 1, t.win.topSent)
  {
    hide DataWire, LabelledWire, StateOf, WireOf, Chunk, Off, ChunkCount, Loaded, AllSent, EndIsKnown, FillFrom;
    hide SendWindow, ChunkWires;
    FillKeepsInv(a);
    FillFromKeepsParameters(a, a.win.bottom);
    var f := FillWindow(a);
    SendKeepsInv(f);
    PassSendsExactly(f);
    SameFileSameWires(a, f, a.win.topSent + 1, FilledTo(f));
  }

  lemma TurnMovesWindow(s: Sender, k: nat)
    requires WaitsFor(s, k) && k < Total(s)
    ensures var (t, out) := Turn(s, k);
            && WaitsFor(t, k + 1) && t.win.rr == k + 1
            && t.content == s.content && t.order == s.order && t.win.buffsize == s.win.buffsize
            && |t.win.states| == |s.win.states|
            && t.win.topSent == Min(k + |s.win.states|, Total(s)) >= s.win.topSent
            && out == ChunkWires(s, s.win.topSent + 1, t.win.topSent)
  {
    hide Inv, SendWindow, FillWindow, AdjustWindow, Respond, ChunkWires, ChunkCount;
    AckMovesWindow(s, k);
    var a := AdjustWindow(Respond(s, Some(Ack(k + 1))));
    SendsWhatEntered(a);
    SameFileSameWires(s, a, s.win.topSent + 1, SendWindow(FillWindow(a)).0.win.topSent);
    SentSoFar(s);
  }

  lemma SentSoFar(s: Sender)
    requires Inv(s) && s.st == SWaitOnResponse
    ensures s.win.topSent == Min(s.win.bottom + |s.win.states| - 1, Total(s))
  {
    hide DataWire, StateOf, WireOf, Chunk, Off, ChunkCount;
  }

  /** The loop makes that turn. */
  lemma LoopTurns(s: Sender, k: nat, peer: Order, rest: seq<Arrival>)
    requires WaitsFor(s, k) && k < Total(s) && Framed(rest)
    ensures var (t, out) := Turn(s, k);
            var (u, more, _) := FileTransfer(t, rest);
            var (v, all, _) := FileTransfer(s, [Came(Encode(peer, Ack(k + 1)))] + rest);
            v == u && all == out + more
  {
    hide Inv, Pass, FileTransfer, AdjustWindow, FillWindow, SendWindow, Respond, Encode, Receive, Total;
    var arrivals := [Came(Encode(peer, Ack(k + 1)))] + rest;
    var r := Respond(s, Some(Ack(k + 1)));
    HeardAck(s, k, peer);
    AckMovesWindow(s, k);
    OneTurn(s, arrivals);
    assert Rest(arrivals) == rest;
    var a := AdjustWindow(r);
    var f := FillWindow(a);
    PassesAre(r, a);
    OneTurn(r, rest);
    OneTurn(a, rest);
    OneTurn(f, rest);
    var (t, out) := SendWindow(f);
    var more := FileTransfer(t, rest).1;
    assert [] + ([] + (out + more)) == out + more;
  }

  lemma HeardAck(s: Sender, k: nat, peer: Order)
    requires WellFormed(s)
    ensures Wait(s, Came(Encode(peer, Ack(k + 1)))) == Respond(s, Some(Ack(k + 1)))
  {
    hide Encode, Receive, Respond;
    RoundTrip(peer, s.order, Ack(k + 1));
    assert Truncate(Encode(peer, Ack(k + 1)), s.win.buffsize) == Encode(peer, Ack(k + 1));
  }

  lemma PassesAre(r: Sender, a: Sender)
    requires WellFormed(r) && r.st == SAdjustWindow && a == AdjustWindow(r) && a.st == SFillWindow && Inv(a)
    ensures Pass(r) == (a, []) && Pass(a) == (FillWindow(a), []) && Pass(FillWindow(a)) == SendWindow(FillWindow(a))
    ensures FillWindow(a).st == SSendWindow
  {
    hide FillFrom, SendFrom, EmptyDown, Loaded, AllSent;
    InvFits(a);
    FillFromKeepsParameters(a, a.win.bottom);
  }

  /** The last acknowledgement is that of all that was sent, and whether it ends the transfer is a matter of
      the window's size and the file's length. */
  lemma LastWindowReachesEndIff(s: Sender)
    requires WaitsFor(s, s.win.bottom) && s.win.bottom == Total(s) >= 1
    ensures s.win.topSent == Total(s)
    ensures s.win.top * s.win.buffsize > |s.content| <==>
            |s.win.states| >= 2 || |s.content| % s.win.buffsize != 0
  {
    hide DataWire, StateOf, WireOf, Chunk, Off, Loaded, AllSent;
    SentSoFar(s);
    PastEndBounds(s.win.buffsize, |s.content|, s.win.top);
    LastChunkShortIff(s.win.buffsize, |s.content|);
  }

  lemma LastChunkShortIff(size: nat, len: nat)
    requires size > 0
    ensures ChunkCount(size, len) * size > len <==> len % size != 0
  {
    var n := ChunkCount(size, len);
    DivBounds(len + size - 1, size);
    if len % size == 0 {
      assert len == (len / size) * size;
      FullChunks(size, len / size);
    } else if n * size == len {
      SameQuotient(size, len, n, 0);
    }
  }

  lemma {:induction false} WiresInOrder(s: Sender, q: nat, m: nat, n: nat)
    requires 1 <= q <= m + 1 && m <= n
    ensures ChunkWires(s, q, m) + ChunkWires(s, m + 1, n) == ChunkWires(s, q, n)
    decreases m + 1 - q
  {
    hide LabelledWire;
    if q <= m {
      WiresInOrder(s, q + 1, m, n);
    }
  }

  lemma SmallNumbers(s: Sender)
    requires Inv(s)
    ensures s.win.buffsize > 0 && Total(s) + 1 < U32_LIMIT
  {
    hide DataWire, StateOf, WireOf, Chunk, Off, ChunkCount;
  }

  lemma NoWires(s: Sender, n: nat)
    ensures ChunkWires(s, n + 1, n) == []
  {
  }

  /** The last acknowledgement, and then silence. */
  lemma LastAckFinishesIff(s: Sender, peer: Order, tail: seq<Arrival>)
    requires WaitsFor(s, s.win.bottom) && s.win.bottom == Total(s) >= 1 && AllSilent(tail)
    ensures var (t, out, _) := FileTransfer(s, [Came(Encode(peer, Ack(Total(s) + 1)))] + tail);
            && t.st == (if |s.win.states| >= 2 || |s.content| % s.win.buffsize != 0 then SDone else SFinish)
            && out == [] && s.win.topSent == Total(s)
  {
    hide Inv, Pass, FileTransfer, Respond, AdjustWindow, Encode, Receive, ChunkCount;
    var n := Total(s);
    var arrivals := [Came(Encode(peer, Ack(n + 1)))] + tail;
    LastWindowReachesEndIff(s);
    SmallNumbers(s);
    HeardAck(s, n, peer);
    OneTurn(s, arrivals);
    assert Rest(arrivals) == tail;
    LastAckThenSilence(s, Ack(n + 1));
    SilentTail(Respond(s, Some(Ack(n + 1))), tail);
  }

  /** From any wait on: with every acknowledgement heard once and in order, and silence after the last, the
      transfer ends exactly if the window has two frames or more or the last chunk is short, and every chunk
      not yet sent is sent once. */
  lemma {:induction false} AcksFinishIff(s: Sender, k: nat, peer: Order, tail: seq<Arrival>)
    requires WaitsFor(s, k) && k >= 1 && AllSilent(tail)
    ensures var (t, out, _) := FileTransfer(s, Acks(peer, k + 1, Total(s) + 1) + tail);
            && t.st == (if |s.win.states| >= 2 || |s.content| % s.win.buffsize != 0 then SDone else SFinish)
            && out == ChunkWires(s, s.win.topSent + 1, Total(s))
    decreases Total(s) - k
  {
    hide Inv, FileTransfer, Turn, Encode, ChunkWires, ChunkCount;
    var n := Total(s);
    assert Acks(peer, k + 1, n + 1) == [Came(Encode(peer, Ack(k + 1)))] + Acks(peer, k + 2, n + 1);
    var rest := Acks(peer, k + 2, n + 1) + tail;
    assert Acks(peer, k + 1, n + 1) + tail == [Came(Encode(peer, Ack(k + 1)))] + rest;
    if k == n {
      assert rest == tail;
      LastAckFinishesIff(s, peer, tail);
      NoWires(s, n);
    } else {
      LoopTurns(s, k, peer, rest);
      TurnMovesWindow(s, k);
      var (t, out) := Turn(s, k);
      AcksFinishIff(t, k + 1, peer, tail);
      SameFileSameWires(s, t, t.win.topSent + 1, n);
      SentSoFar(s);
      WiresInOrder(s, s.win.topSent + 1, t.win.topSent, n);
    }
  }

  /** From the start: a transfer in which every acknowledgement is heard, once and in order, ends exactly if the
      window has two frames or more or the file is no whole number of chunks; every chunk is sent once. */
  lemma AllHeardFinishesIff(windowSize: u32, buffsize: nat, content: seq<byte>, order: Order, peer: Order,
                            tail: seq<Arrival>)
    requires windowSize > 0 && buffsize > 0 && content != [] && AllSilent(tail)
    requires ChunkCount(buffsize, |content|) + windowSize < U32_MAX
    ensures var s := Start(windowSize, buffsize, content, order);
            var n := ChunkCount(buffsize, |content|);
            var (t, out, _) := FileTransfer(s, Acks(peer, 2, n + 1) + tail);
            && t.st == (if windowSize >= 2 || |content| % buffsize != 0 then SDone else SFinish)
            && out == ChunkWires(s, 1, n)
  {
    hide FileTransfer, ChunkWires, ChunkCount, Acks;
    var s := Start(windowSize, buffsize, content, order);
    var n := ChunkCount(buffsize, |content|);
    var arrivals := Acks(peer, 2, n + 1) + tail;
    OnlyEmptyFilesHaveNoChunks(buffsize, |content|);
    var w := FirstWindowSent(windowSize, buffsize, content, order, arrivals);
    AcksFinishIff(w, 1, peer, tail);
    SameFileSameWires(s, w, w.win.topSent + 1, n);
    WiresInOrder(s, 1, w.win.topSent, n);
  }

  /** The first window is sent. */
  lemma FirstWindowSent(windowSize: u32, buffsize: nat, content: seq<byte>, order: Order, arrivals: seq<Arrival>)
    returns (w: Sender)
    requires windowSize > 0 && buffsize > 0 && content != [] && Framed(arrivals)
    requires ChunkCount(buffsize, |content|) + windowSize < U32_MAX
    ensures var s := Start(windowSize, buffsize, content, order);
            && w == SendWindow(FillWindow(s)).0
            && WaitsFor(w, 1) && w.win.topSent <= Total(w)
            && w.content == content && w.order == order && w.win.buffsize == buffsize
            && |w.win.states| == windowSize
            && SendWindow(FillWindow(s)).1 == ChunkWires(s, 1, w.win.topSent)
            && (var (u, more, _) := FileTransfer(w, arrivals);
                FileTransfer(s, arrivals).0 == u
                && FileTransfer(s, arrivals).1 == ChunkWires(s, 1, w.win.topSent) + more)
  {
    hide DataWire, LabelledWire, ChunkCount, Off, Chunk, Slot, Loaded, AllSent, AllFull, FileTransfer, FillFrom, SendFrom;
    hide FullWires, ChunkWires, EndIsKnown;
    var s := Start(windowSize, buffsize, content, order);
    OnlyEmptyFilesHaveNoChunks(buffsize, |content|);
    StartInv(windowSize, buffsize, content, order);
    FillKeepsInv(s);
    FillFromKeepsParameters(s, s.win.bottom);
    OneTurn(s, arrivals);
    var f := FillWindow(s);
    InvFits(f);
    SendKeepsInv(f);
    PassSendsExactly(f);
    OneTurn(f, arrivals);
    var out: seq<Wire>;
    w, out := SendWindow(f).0, SendWindow(f).1;
    SameFileSameWires(s, f, 1, w.win.topSent);
    SentSoFar(w);
    var more := FileTransfer(w, arrivals).1;
    assert [] + (out + more) == out + more;
  }
}
