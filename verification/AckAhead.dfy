/** What goes wrong when an acknowledgement runs ahead of what has been sent.

The sender labels the chunks it reads by their place in the window and trusts that reading has kept up with
the window.  In a session that is so (see `Safety.WindowsOverlap`); here is exactly when it is not. */
module AckAhead {
  import opened Bytes
  import opened Codec
  import opened Chunks
  import opened Ring
  import opened Sender

  function Ack(q: u32): Packet {
    Packet(RR, q, [])
  }

  /** The window after `RR q` has been heard and acted on, before it is filled. */
  function SlidOn(s: Sender, q: u32): (t: Sender)
    requires WellFormed(s)
    ensures WellFormed(t)
  {
    AdjustWindow(Respond(s, Some(Ack(q))))
  }

  /** The number of the next frame that will be read from the file. */
  function NextToRead(s: Sender): nat {
    Max(s.win.bottom, s.win.topSent + 1)
  }

  /** The file is where the chunk of the next frame starts exactly when the acknowledgement asks for at most
      the number after the highest sent, or when there is nothing left to read. */
  lemma ReadsInPlaceIff(s: Sender, q: u32)
    requires Inv(s) && s.st == SWaitOnResponse && SlidOn(s, q).st == SFillWindow
    ensures var t := SlidOn(s, q);
            t.pos == Off(t.win.buffsize, |t.content|, NextToRead(t) - 1) <==>
            q <= s.win.topSent + 1 || s.win.topSent == Total(s)
  {
    hide ChunkCount, DataWire, StateOf, WireOf, EmptyDown;
    var size, len, n := s.win.buffsize, |s.content|, s.win.topSent;
    var t := SlidOn(s, q);
    OffAtCount(size, len, n);
    OffStep(size, len, n);
    var e := NextToRead(t);
    assert e >= n + 1;
    OffAtCount(size, len, e - 1);
    if e > n + 1 {
      OffMonotone(size, len, n + 1, e - 1);
    }
  }

  lemma {:induction false} FillFromKeepsUsed(s: Sender, q: nat, k: nat)
    requires WellFormed(s) && k < |s.win.states| && s.win.states[k] != Empty
    ensures |FillFrom(s, q).win.states| == |s.win.states|
    ensures FillFrom(s, q).win.states[k] == s.win.states[k] && FillFrom(s, q).wires[k] == s.wires[k]
    decreases s.win.top + 1 - q
  {
    hide DataWire, Fread;
    if q <= s.win.top {
      FillFromKeepsUsed(FillFrame(s, q), q + 1, k);
    }
  }

  /** The window has gone past every number in it, so every slot is empty. */
  lemma FrameIsEmptied(s: Sender, q: u32)
    requires Inv(s) && s.st == SWaitOnResponse
    requires s.win.topSent + 1 < q && s.win.topSent < Total(s)
    ensures var t := SlidOn(s, q);
            && t.st == SFillWindow && t.win.bottom == q && |t.win.states| == |s.win.states|
            && t.win.top == (q + |s.win.states| - 1) % U32_LIMIT
            && t.win.topSent == s.win.topSent && t.win.numWait == 0
            && StateOf(t, q) == Empty
            && t.content == s.content && t.order == s.order && t.win.buffsize == s.win.buffsize && t.pos == s.pos
  {
    hide ChunkCount, Off, Chunk, DataWire, Slot, StateOf, WireOf;
    var size := |s.win.states|;
    assert !s.win.eof && s.win.topSent == s.win.top;
    var k := Slot(size, q);
    EmptyDownEffect(s.win.states, q, s.win.bottom, k);
    SlotWraps(size, q - size);
    assert s.win.bottom <= q - size < q && Slot(size, q - size) == k;
    SlotIsState(SlidOn(s, q), q);
  }

  lemma SlotIsState(s: Sender, q: nat)
    requires WellFormed(s)
    ensures StateOf(s, q) == s.win.states[Slot(|s.win.states|, q)] && WireOf(s, q) == s.wires[Slot(|s.win.states|, q)]
  {
  }

  /** If it asks for more while there is more to read, the chunk after the highest sent goes out under the
      number asked for, as long as the window that starts there fits below 2^32 - 1. */
  lemma AckAheadMislabels(s: Sender, q: u32)
    requires Inv(s) && s.st == SWaitOnResponse
    requires s.win.topSent + 1 < q && s.win.topSent < Total(s)
    requires q + |s.win.states| < U32_LIMIT
    ensures SlidOn(s, q).st == SFillWindow && !Hangs(SlidOn(s, q))
    ensures var t := FillWindow(SlidOn(s, q));
            && t.win.bottom == q
            && StateOf(t, q) == Full
            && WireOf(t, q) == DataWire(s.order, q, Chunk(s.content, s.win.buffsize, s.win.topSent + 1))
  {
    hide Chunk, Fread, DataWire, Slot, SlidOn;
    FrameIsEmptied(s, q);
    ReadIsChunk(s.content, s.win.buffsize, s.win.topSent);
    assert s.pos == Off(s.win.buffsize, |s.content|, s.win.topSent);
    hide Inv, ChunkCount, Off;
    var t := SlidOn(s, q);
    var u := FillFrame(t, q);
    assert StateOf(u, q) == Full;
    FillFromKeepsUsed(u, q + 1, Slot(|s.win.states|, q));
    FillFromKeepsParameters(t, q);
  }

  /** If it does not fit, the top is 2^32 - 1 and the server never gets out of filling it, or it wraps around
      to below the bottom and the server fills and sends nothing and waits. */
  lemma AckAheadWraps(s: Sender, q: u32)
    requires Inv(s) && s.st == SWaitOnResponse
    requires s.win.topSent + 1 < q && s.win.topSent < Total(s)
    requires q + |s.win.states| >= U32_LIMIT
    ensures if q + |s.win.states| == U32_LIMIT then Pass(SlidOn(s, q)).0.st == SStuck
            else
              var t := SlidOn(s, q);
              && Pass(t) == (t.(st := SSendWindow), [])
              && Pass(t.(st := SSendWindow)) == (t.(st := SWaitOnResponse), [])
  {
    hide Chunk, Fread, DataWire, Slot, SlidOn;
    FrameIsEmptied(s, q);
    SmallWindow(s);
    hide Inv;
    SlidTopIff(q, |s.win.states|);
    var t := SlidOn(s, q);
    assert t.win.top < q ==> FillFrom(t, q) == t && SendFrom(t.(st := SSendWindow), q) == (t.(st := SSendWindow), []);
  }

  lemma SmallWindow(s: Sender)
    requires Inv(s)
    ensures 1 <= |s.win.states| < U32_LIMIT
  {
    hide DataWire, StateOf, WireOf, Chunk, Off, ChunkCount;
  }
}
