/** The server's `file_transfer` run to its end, against any responses at all.

There is one way for it not to end: an acknowledgement that takes the window's top to 2^32 - 1 makes the next loop
over the window run for ever.  What such a loop does to the frames, and what it sends, is not modelled. */
module SenderLoop {
  import opened Bytes
  import opened Codec
  import opened Chunks
  import opened Ring
  import opened Sender

  predicate Ended(s: Sender) {
    s.st == SDone || s.st == SFileName || s.st == SFinish
  }

  /** Nothing more comes of the loop: it has ended, or hangs. */
  predicate Over(s: Sender) {
    Ended(s) || s.st == SStuck
  }

  /** How far a state is from waiting, for the termination of the loop. */
  function Rank(st: SState): nat {
    match st
    case SAdjustWindow => 4
    case SFillWindow => 3
    case SSendWindow => 2
    case SWaitOnResponse => 1
    case _ => 0
  }

  function TriesLeft(s: Sender): nat {
    if s.win.numWait < MAX_TRIES then MAX_TRIES - s.win.numWait else 0
  }

  function Wait(s: Sender, a: Arrival): (r: Sender)
    requires WellFormed(s) && (a.Came? ==> |a.w| >= HDR_LEN)
    ensures WellFormed(r)
  {
    match a
    case Silence => s.(st := STimeoutOnResponse)
    case Came(w) => Respond(s, Receive(s.order, Truncate(w, s.win.buffsize)))
  }

  lemma PassMakesProgress(s: Sender)
    requires WellFormed(s) && !Over(s) && s.st != SWaitOnResponse
    ensures var r := Pass(s).0;
            || Over(r)
            || (TriesLeft(r) == TriesLeft(s) && Rank(r.st) < Rank(s.st))
            || TriesLeft(r) < TriesLeft(s)
  {
    FillFromKeepsParameters(s, s.win.bottom);
    SendFromKeepsParameters(s, s.win.bottom);
  }

  /** The passes over the window that a pass of the state loop completes. */
  function SendPasses(s: Sender): nat {
    if s.st == SSendWindow && !Hangs(s) then 1 else 0
  }

  /** The state loop: the final state, the datagrams sent, and the number of `send_window` passes. */
  function FileTransfer(s: Sender, arrivals: seq<Arrival>): (r: (Sender, seq<Wire>, nat))
    requires WellFormed(s) && Framed(arrivals)
    ensures WellFormed(r.0) && Over(r.0)
    decreases if Over(s) then 0 else 1, |arrivals|, TriesLeft(s), Rank(s.st)
  {
    if Over(s) then (s, [], 0)
    else if s.st == SWaitOnResponse then
      FileTransfer(Wait(s, First(arrivals)), Rest(arrivals))
    else
      PassMakesProgress(s);
      var (t, out) := Pass(s);
      var (u, more, n) := FileTransfer(t, arrivals);
      (u, out + more, n + SendPasses(s))
  }

  lemma NoTurn(s: Sender, arrivals: seq<Arrival>)
    requires WellFormed(s) && Framed(arrivals) && Over(s)
    ensures FileTransfer(s, arrivals) == (s, [], 0)
  {
  }

  /** One turn of the loop, and what makes it end. */
  lemma OneTurn(s: Sender, arrivals: seq<Arrival>)
    requires WellFormed(s) && Framed(arrivals) && !Over(s)
    ensures if s.st == SWaitOnResponse then
              var t := Wait(s, First(arrivals));
              && FileTransfer(s, arrivals) == FileTransfer(t, Rest(arrivals))
              && (|Rest(arrivals)| < |arrivals|
                  || (Rest(arrivals) == arrivals && TriesLeft(t) == TriesLeft(s) && Rank(t.st) < Rank(s.st)))
            else
              var (t, out) := Pass(s);
              var (u, more, n) := FileTransfer(t, arrivals);
              && FileTransfer(s, arrivals) == (u, out + more, n + SendPasses(s))
              && (Over(t)
                  || (TriesLeft(t) == TriesLeft(s) && Rank(t.st) < Rank(s.st))
                  || TriesLeft(t) < TriesLeft(s))
  {
    hide Pass, Respond, Receive;
    if s.st != SWaitOnResponse {
      PassMakesProgress(s);
    }
  }

  /** After `out` has been sent, the loop goes on from `s` to end in `last` with `all` sent. */
  ghost predicate Leaves(last: Sender, all: seq<Wire>, out: seq<Wire>, s: Sender, arrivals: seq<Arrival>)
    requires WellFormed(s) && Framed(arrivals)
  {
    var (u, more, _) := FileTransfer(s, arrivals);
    u == last && all == out + more
  }

  lemma NothingSentYet(s: Sender, arrivals: seq<Arrival>)
    requires WellFormed(s) && Framed(arrivals)
    ensures var (u, all, _) := FileTransfer(s, arrivals); Leaves(u, all, [], s, arrivals)
  {
    hide FileTransfer;
  }

  lemma TurnLeaves(last: Sender, all: seq<Wire>, out: seq<Wire>, s: Sender, arrivals: seq<Arrival>)
    requires WellFormed(s) && Framed(arrivals) && !Over(s) && Leaves(last, all, out, s, arrivals)
    ensures if s.st == SWaitOnResponse then Leaves(last, all, out, Wait(s, First(arrivals)), Rest(arrivals))
            else Leaves(last, all, out + Pass(s).1, Pass(s).0, arrivals)
  {
    hide Pass, Wait, FileTransfer;
    OneTurn(s, arrivals);
    if s.st != SWaitOnResponse {
      var (t, now) := Pass(s);
      assert out + (now + FileTransfer(t, arrivals).1) == out + now + FileTransfer(t, arrivals).1;
    }
  }

  lemma LeavesNothing(last: Sender, all: seq<Wire>, out: seq<Wire>, s: Sender, arrivals: seq<Arrival>)
    requires WellFormed(s) && Framed(arrivals) && Over(s) && Leaves(last, all, out, s, arrivals)
    ensures last == s && all == out
  {
    NoTurn(s, arrivals);
    assert out + [] == out;
  }

  /** A loop that ends in a state of its own never hangs on the way. */
  lemma LeavesUnstuck(last: Sender, all: seq<Wire>, out: seq<Wire>, s: Sender, arrivals: seq<Arrival>)
    requires WellFormed(s) && Framed(arrivals) && Leaves(last, all, out, s, arrivals) && last.st != SStuck
    ensures s.st != SStuck && !Hangs(s)
  {
    if s.st == SStuck {
      NoTurn(s, arrivals);
    } else if Hangs(s) {
      HangsForGood(s, arrivals);
    }
  }

  /** The datagrams that pass the checksum. */
  function ValidCount(s: Sender, arrivals: seq<Arrival>): nat
    requires Framed(arrivals)
    decreases arrivals
  {
    if arrivals == [] then 0
    else (if Valid(s, arrivals[0]) then 1 else 0) + ValidCount(s, arrivals[1..])
  }

  predicate Valid(s: Sender, a: Arrival)
    requires a.Came? ==> |a.w| >= HDR_LEN
  {
    a.Came? && Receive(s.order, Truncate(a.w, s.win.buffsize)).Some?
  }

  lemma {:induction false} ValidCountDependsOnHost(s: Sender, r: Sender, arrivals: seq<Arrival>)
    requires Framed(arrivals) && r.order == s.order && r.win.buffsize == s.win.buffsize
    ensures ValidCount(r, arrivals) == ValidCount(s, arrivals)
    decreases arrivals
  {
    if arrivals != [] {
      ValidCountDependsOnHost(s, r, arrivals[1..]);
    }
  }

  /** A damaged datagram is to the server what silence is. */
  lemma DamageIsSilence(s: Sender, w: Wire, rest: seq<Arrival>)
    requires WellFormed(s) && s.st == SWaitOnResponse && |w| >= HDR_LEN && Framed(rest)
    requires Receive(s.order, Truncate(w, s.win.buffsize)) == None
    ensures FileTransfer(s, [Came(w)] + rest) == FileTransfer(s, [Silence] + rest)
    ensures Wait(s, Silence).st == STimeoutOnResponse && Wait(s, Silence).win == s.win
  {
    hide FileTransfer, Receive;
    OneTurn(s, [Came(w)] + rest);
    OneTurn(s, [Silence] + rest);
    assert Rest([Came(w)] + rest) == rest && Rest([Silence] + rest) == rest;
  }

  // ---------- does it end? ----------

  lemma HangsForGood(s: Sender, arrivals: seq<Arrival>)
    requires WellFormed(s) && Framed(arrivals) && Hangs(s)
    ensures FileTransfer(s, arrivals) == (s.(st := SStuck), [], 0)
  {
    OneTurn(s, arrivals);
    NoTurn(s.(st := SStuck), arrivals);
    assert [] + FileTransfer(s.(st := SStuck), arrivals).1 == [];
  }

  /** The loop ends. */
  predicate Returns(s: Sender, arrivals: seq<Arrival>)
    requires WellFormed(s) && Framed(arrivals)
  {
    Ended(FileTransfer(s, arrivals).0)
  }

  /** The one number an acknowledgement must not have: it starts a window whose top is 2^32 - 1. */
  predicate Sticks(p: Option<Packet>, size: nat) {
    p.Some? && (p.value.flag == RR || p.value.flag == SREJ) && p.value.seq_ + size == U32_LIMIT
  }

  ghost predicate NoneSticks(arrivals: seq<Arrival>, order: Order, buffsize: nat, size: nat)
    requires Framed(arrivals)
  {
    forall a :: a in arrivals && a.Came? ==> !Sticks(Receive(order, Truncate(a.w, buffsize)), size)
  }

  /** Neither the window nor the acknowledgements heard so far have that top or lead to it. */
  predicate Unstuck(s: Sender) {
    && |s.win.states| < U32_LIMIT && s.win.top < U32_MAX
    && s.win.rr < U32_LIMIT && s.win.rr + |s.win.states| != U32_LIMIT
    && s.win.srej < U32_LIMIT && s.win.srej + |s.win.states| != U32_LIMIT
    && s.st != SStuck
  }

  lemma PassStaysUnstuck(s: Sender)
    requires WellFormed(s) && Unstuck(s)
    ensures Unstuck(Pass(s).0) && |Pass(s).0.win.states| == |s.win.states|
  {
    hide FillFrom, SendFrom, EmptyDown, RefillFrom;
    FillFromKeepsParameters(s, s.win.bottom);
    SendFromKeepsParameters(s, s.win.bottom);
  }

  /** The loop ends unless an acknowledgement of that number is heard. */
  lemma {:induction false} ReturnsUnlessStuck(s: Sender, arrivals: seq<Arrival>)
    requires WellFormed(s) && Unstuck(s) && Framed(arrivals)
    requires NoneSticks(arrivals, s.order, s.win.buffsize, |s.win.states|)
    ensures Returns(s, arrivals)
    decreases if Over(s) then 0 else 1, |arrivals|, TriesLeft(s), Rank(s.st)
  {
    hide Pass, Receive, Unstuck, FileTransfer;
    IsNotStuck(s);
    if Over(s) {
      NoTurn(s, arrivals);
    } else {
      OneTurn(s, arrivals);
      if s.st == SWaitOnResponse {
        WaitStaysUnstuck(s, arrivals);
        ReturnsUnlessStuck(Wait(s, First(arrivals)), Rest(arrivals));
      } else {
        PassStaysUnstuck(s);
        PassKeepsParameters(s);
        ReturnsUnlessStuck(Pass(s).0, arrivals);
      }
    }
  }

  lemma IsNotStuck(s: Sender)
    requires Unstuck(s)
    ensures s.st != SStuck
  {
  }

  lemma WaitStaysUnstuck(s: Sender, arrivals: seq<Arrival>)
    requires WellFormed(s) && Unstuck(s) && Framed(arrivals)
    requires NoneSticks(arrivals, s.order, s.win.buffsize, |s.win.states|)
    ensures var t := Wait(s, First(arrivals));
            && Unstuck(t) && t.order == s.order && t.win.buffsize == s.win.buffsize
            && NoneSticks(Rest(arrivals), t.order, t.win.buffsize, |t.win.states|)
  {
    hide Receive;
  }

  /** The acknowledgement that makes the server hang, in any state in which it waits: the one of that number,
      unless the end of the file is known and all that was sent is acknowledged.  The server then neither sends
      nor hears anything more. */
  lemma AckHangsIff(s: Sender, p: Packet, arrivals: seq<Arrival>)
    requires Inv(s) && s.st == SWaitOnResponse && (p.flag == RR || p.flag == SREJ) && Framed(arrivals)
    ensures Hangs(AdjustWindow(Respond(s, Some(p)))) <==>
            p.seq_ + |s.win.states| == U32_LIMIT && !(s.win.eof && (p.flag == RR || s.win.rr > s.win.topSent))
    ensures Hangs(AdjustWindow(Respond(s, Some(p)))) ==>
              var (t, out, passes) := FileTransfer(Respond(s, Some(p)), arrivals);
              t.st == SStuck && out == [] && passes == 0
  {
    hide Inv, FileTransfer, AdjustWindow, Hangs, EmptyDown;
    AckHangsLocally(s, p);
    var r := Respond(s, Some(p));
    var t := AdjustWindow(r);
    AdjustedState(r);
    if Hangs(t) {
      OneTurn(r, arrivals);
      HangsForGood(t, arrivals);
    }
  }

  lemma AckHangsLocally(s: Sender, p: Packet)
    requires Inv(s) && s.st == SWaitOnResponse && (p.flag == RR || p.flag == SREJ)
    ensures Hangs(AdjustWindow(Respond(s, Some(p)))) <==>
            p.seq_ + |s.win.states| == U32_LIMIT && !(s.win.eof && (p.flag == RR || s.win.rr > s.win.topSent))
  {
    hide Inv, EmptyDown;
    WindowNumbers(s);
    var w := Respond(s, Some(p)).win;
    SlideTop(w, |s.win.states|);
    hide Slide;
  }

  lemma SlideTop(w: Win, size: u32)
    requires size == |w.states| >= 1 && w.rr < U32_LIMIT && w.srej < U32_LIMIT && w.bottom >= 1 && w.top < U32_MAX
    ensures Slide(w).top == U32_MAX <==> Moves(w) && Max(w.rr, w.srej) + size == U32_LIMIT
    ensures Slide(w).top <= U32_MAX
  {
    hide EmptyDown;
    if Moves(w) {
      SlidTopIff(Max(w.rr, w.srej), size);
    }
  }

  lemma WindowNumbers(s: Sender)
    requires Inv(s) && s.st == SWaitOnResponse
    ensures WellFormed(s) && 1 <= s.win.bottom <= s.win.topSent + 1
    ensures s.win.rr <= s.win.topSent + 1 && s.win.srej <= s.win.topSent + 1
    ensures s.win.topSent + |s.win.states| < U32_MAX && s.win.top < U32_MAX
  {
    hide DataWire, StateOf, WireOf, Chunk, Off, ChunkCount;
  }

  lemma AdjustedState(s: Sender)
    requires WellFormed(s) && s.st == SAdjustWindow
    ensures Pass(s) == (AdjustWindow(s), [])
    ensures AdjustWindow(s).st in {SDone, SFillWindow, SSendWindow}
  {
    hide EmptyDown;
  }

  // ---------- 32 bits are enough for modest sequence numbers ----------

  /** No response that arrives asks for a number the window cannot slide to without wrapping around. */
  ghost predicate Tame(arrivals: seq<Arrival>, order: Order, buffsize: nat, size: nat)
    requires Framed(arrivals)
  {
    forall a :: a in arrivals && a.Came? ==>
      var p := Receive(order, Truncate(a.w, buffsize));
      p.Some? && p.value.flag in {RR, SREJ} ==> p.value.seq_ + size < U32_LIMIT && p.value.seq_ + 1 < U32_LIMIT
  }

  lemma TameReturns(windowSize: u32, buffsize: nat, content: seq<byte>, order: Order, arrivals: seq<Arrival>)
    requires 0 < windowSize < U32_MAX && Framed(arrivals) && Tame(arrivals, order, buffsize, windowSize)
    ensures Returns(Start(windowSize, buffsize, content, order), arrivals)
  {
    hide FileTransfer, Receive;
    ReturnsUnlessStuck(Start(windowSize, buffsize, content, order), arrivals);
  }

  // ---------- the bound ----------

  /** The send passes a state can still make when `k` valid packets are still to come: one now if it is
      about to send, one for every try left, and eleven for every packet that resets the count of tries. */
  function Credit(s: Sender, k: nat): nat {
    11 * k + TriesLeft(s) + if s.st in {SAdjustWindow, SFillWindow, SSendWindow} then 1 else 0
  }

  predicate OneWindow(s: Sender) {
    s.win.top + 1 <= s.win.bottom + |s.win.states|
  }

  lemma {:induction false} SendFromIsBounded(s: Sender, q: nat)
    requires WellFormed(s) && q <= s.win.top + 1
    ensures |SendFrom(s, q).1| <= s.win.top + 1 - q
    decreases s.win.top + 1 - q
  {
    if q <= s.win.top {
      SendFromIsBounded(SendFrame(s, q).0, q + 1);
    }
  }

  lemma PassIsBounded(s: Sender, k: nat)
    requires WellFormed(s) && OneWindow(s) && !Over(s) && s.st != SWaitOnResponse
    ensures var (t, out) := Pass(s);
            && OneWindow(t) && |t.win.states| == |s.win.states|
            && (if SendPasses(s) == 1 then |out| <= |s.win.states| else out == [])
            && Credit(t, k) + SendPasses(s) <= Credit(s, k)
  {
    hide FillFrom, SendFrom, EmptyDown, RefillFrom;
    FillFromKeepsParameters(s, s.win.bottom);
    SendFromKeepsParameters(s, s.win.bottom);
    if s.win.bottom <= s.win.top + 1 {
      SendFromIsBounded(s, s.win.bottom);
    } else {
      NothingToSend(s, s.win.bottom);
    }
  }

  lemma NothingToSend(s: Sender, q: nat)
    requires WellFormed(s) && q > s.win.top
    ensures SendFrom(s, q) == (s, [])
  {
  }

  /** Whatever the peer answers, the loop is over, ended or hanging (see `Returns`); and if `k` of the datagrams that arrive are valid, it makes
      at most 11 * (k + 1) passes over the window and sends at most a window of datagrams in each. */
  lemma {:induction false} TransferIsBounded(s: Sender, arrivals: seq<Arrival>)
    requires WellFormed(s) && OneWindow(s) && Framed(arrivals)
    ensures var (t, out, passes) := FileTransfer(s, arrivals);
            && Over(t)
            && (!Over(s) ==> passes <= Credit(s, ValidCount(s, arrivals)))
            && |out| <= passes * |s.win.states|
    decreases if Over(s) then 0 else 1, |arrivals|, TriesLeft(s), Rank(s.st)
  {
    hide Pass, Respond, Receive, FileTransfer, Hangs, Credit, ValidCount, OneWindow;
    if Over(s) {
      NoTurn(s, arrivals);
    } else {
      OneTurn(s, arrivals);
      if s.st == SWaitOnResponse {
        WaitIsBounded(s, arrivals);
        TransferIsBounded(Wait(s, First(arrivals)), Rest(arrivals));
        if Over(Wait(s, First(arrivals))) {
          NoTurn(Wait(s, First(arrivals)), Rest(arrivals));
        }
      } else {
        PassIsBounded(s, ValidCount(s, arrivals));
        PassKeepsParameters(s);
        ValidCountDependsOnHost(s, Pass(s).0, arrivals);
        TransferIsBounded(Pass(s).0, arrivals);
        if Over(Pass(s).0) {
          NoTurn(Pass(s).0, arrivals);
        }
        var (u, more, n) := FileTransfer(Pass(s).0, arrivals);
        assert (n + 1) * |s.win.states| == n * |s.win.states| + |s.win.states|;
      }
    }
  }

  lemma WaitIsBounded(s: Sender, arrivals: seq<Arrival>)
    requires WellFormed(s) && OneWindow(s) && Framed(arrivals) && s.st == SWaitOnResponse
    ensures var t := Wait(s, First(arrivals));
            && OneWindow(t) && |t.win.states| == |s.win.states|
            && (!Over(t) ==> Credit(t, ValidCount(t, Rest(arrivals))) <= Credit(s, ValidCount(s, arrivals)))
  {
    hide Receive;
    var t := Wait(s, First(arrivals));
    ValidCountDependsOnHost(s, t, Rest(arrivals));
  }

  /** The same, counted from the start of a transfer; and unless an acknowledgement numbered 2^32 - windowSize
      is heard, the transfer ends. */
  lemma WholeTransferIsBounded(windowSize: u32, buffsize: nat, content: seq<byte>, order: Order, arrivals: seq<Arrival>)
    requires windowSize > 0 && Framed(arrivals)
    ensures var s := Start(windowSize, buffsize, content, order);
            var (t, out, passes) := FileTransfer(s, arrivals);
            && Over(t)
            && (windowSize < U32_MAX && NoneSticks(arrivals, order, buffsize, windowSize) ==> Ended(t))
            && passes <= 11 * (ValidCount(s, arrivals) + 1)
            && |out| <= passes * windowSize
  {
    hide FileTransfer, NoneSticks;
    var s := Start(windowSize, buffsize, content, order);
    TransferIsBounded(s, arrivals);
    if windowSize < U32_MAX && NoneSticks(arrivals, order, buffsize, windowSize) {
      assert Unstuck(s);
      ReturnsUnlessStuck(s, arrivals);
    }
  }

  // ---------- patience ----------

  /** The top of the window that is sent next. */
  function TopAhead(s: Sender): nat
    requires WellFormed(s)
  {
    if s.st == SAdjustWindow then AdjustWindow(s).win.top else s.win.top
  }

  /** Met with nothing but silence, a sender that is not done makes every send it has credit for, and only
      then gives up, unless it hangs. */
  lemma {:induction false} SilenceUsesAllCredit(s: Sender)
    requires WellFormed(s) && !Over(s) && s.win.numWait <= MAX_TRIES
    requires s.st == SAdjustWindow ==> AdjustWindow(s).st != SDone
    ensures var (t, _, passes) := FileTransfer(s, []);
            && (TopAhead(s) < U32_MAX ==> t.st == SFinish && passes == Credit(s, 0))
            && (Hangs(s) ==> t.st == SStuck && passes == 0)
    decreases TriesLeft(s), Rank(s.st)
  {
    hide FillFrom, SendFrom, EmptyDown, RefillFrom;
    OneTurn(s, []);
    if Hangs(s) {
      HangsForGood(s, []);
    } else if s.st == SWaitOnResponse {
      SilenceUsesAllCredit(Wait(s, Silence));
    } else {
      FillFromKeepsParameters(s, s.win.bottom);
      SendFromKeepsParameters(s, s.win.bottom);
      var t := Pass(s).0;
      PassMakesProgress(s);
      if !Over(t) {
        SilenceUsesAllCredit(t);
      } else {
        NoTurn(t, []);
      }
    }
  }

  /** The bound is met: a client that never answers is sent the window eleven times.  With a window of 2^32 - 1
      frames the first loop over it never ends. */
  lemma SilentClientIsSentElevenWindows(windowSize: u32, buffsize: nat, content: seq<byte>, order: Order)
    requires windowSize > 0
    ensures var (t, _, passes) := FileTransfer(Start(windowSize, buffsize, content, order), []);
            if windowSize < U32_MAX then t.st == SFinish && passes == 11 else t.st == SStuck && passes == 0
  {
    hide FileTransfer;
    SilenceUsesAllCredit(Start(windowSize, buffsize, content, order));
  }

  /** And any valid answer that does not end the transfer buys another eleven, unless it makes the server hang. */
  lemma AnswerRestoresPatience(s: Sender, p: Packet)
    requires WellFormed(s) && s.st == SWaitOnResponse && (p.flag == RR || p.flag == SREJ)
    requires AdjustWindow(Respond(s, Some(p))).st != SDone
    ensures var (t, _, passes) := FileTransfer(Respond(s, Some(p)), []);
            if AdjustWindow(Respond(s, Some(p))).win.top < U32_MAX then t.st == SFinish && passes == 11
            else t.st == SStuck && passes == 0
  {
    hide FileTransfer, AdjustWindow;
    var r := Respond(s, Some(p));
    SilenceUsesAllCredit(r);
    OneTurn(r, []);
    AdjustedState(r);
    if AdjustWindow(r).win.top >= U32_MAX {
      HangsForGood(AdjustWindow(r), []);
    }
  }
}
