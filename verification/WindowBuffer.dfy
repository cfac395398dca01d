/** The window of frames as both programs keep it in memory. */
module WindowBuffer {
  import opened Bytes
  import opened Codec
  import opened Chunks
  import opened Ring
  import opened PacketBuffer

  /** `window` */
  class Window {
    const frames: seq<Frame>
    const size: u32
    const buffsize: u32
    var top: u32
    var bottom: u32
    var rr: u32
    var srej: u32
    var topSent: u32
    var numWait: u32
    var eof: bool

    /** `window_alloc`.  `num_wait` and `top_sent`, which the source leaves unset, start at zero. */
    constructor (conn: Sock)
      requires conn.windowSize > 0 && HDR_LEN + conn.buffsize < U32_LIMIT
      ensures Valid() && OwnBuffers()
      ensures buffsize == conn.buffsize && size == conn.windowSize
      ensures View() == WindowAlloc(conn.seq_, conn.windowSize, conn.buffsize)
      ensures forall f :: f in frames ==> fresh(f) && fresh(f.pkt) && fresh(f.pkt.datagram)
      ensures forall f :: f in frames ==> f.pkt.dataLen == 0 && f.state == Empty
      ensures Wires() == seq(conn.windowSize as int, _ => [])
    {
      var fs: seq<Frame> := [];
      var i: u32 := 0;
      while i < conn.windowSize
        invariant i == |fs| <= conn.windowSize
        invariant Distinct(fs) && Owning(fs, conn.buffsize)
        invariant forall f :: f in fs ==> fresh(f) && fresh(f.pkt) && fresh(f.pkt.datagram) && f.state == Empty
        invariant forall f :: f in fs ==> f.pkt.datagramLen == f.pkt.dataLen == 0
      {
        var f := new Frame(conn.buffsize);
        fs := fs + [f];
        i := i + 1;
      }
      frames, size, buffsize := fs, conn.windowSize, conn.buffsize;
      var first := (conn.seq_ + 1) % U32_LIMIT;
      top, bottom := (conn.seq_ + conn.windowSize) % U32_LIMIT, first;
      rr, srej := first, first;
      topSent, numWait, eof := 0, 0, false;
    }

    static ghost predicate Distinct(frames: seq<Frame>) {
      forall i, j :: 0 <= i < j < |frames| ==> frames[i] != frames[j] && frames[i].pkt != frames[j].pkt
    }

    /** Every frame's packet structure points at a buffer of its own. */
    static ghost predicate Owning(frames: seq<Frame>, buffsize: u32)
      reads set f | f in frames :: f.pkt
    {
      && (forall i, j :: 0 <= i < j < |frames| ==> frames[i].pkt.datagram != frames[j].pkt.datagram)
      && (forall f :: f in frames ==>
            f.pkt.datagram.Length == HDR_LEN + buffsize && f.pkt.datagramLen <= f.pkt.datagram.Length)
    }

    ghost predicate Valid()
    {
      && |frames| == size > 0
      && HDR_LEN + buffsize < U32_LIMIT
      && Distinct(frames)
    }

    ghost predicate OwnBuffers()
      reads this, set f | f in frames :: f.pkt
    {
      Owning(frames, buffsize)
    }

    ghost function Packets(): set<Pkt> {
      set f | f in frames :: f.pkt
    }

    ghost function States(): seq<FrameState>
      reads frames
    {
      seq(|frames|, i requires 0 <= i < |frames| reads frames => frames[i].state)
    }

    ghost function View(): Win
      reads this, frames
    {
      Win(States(), buffsize, top, bottom, rr, srej, topSent, numWait, eof)
    }

    /** The datagrams in the frames' buffers. */
    ghost function Wires(): seq<Wire>
      reads this, set f | f in frames :: f.pkt, set f | f in frames :: f.pkt.datagram
      requires OwnBuffers()
    {
      seq(|frames|, i requires 0 <= i < |frames| && OwnBuffers()
                      reads this, set f | f in frames :: f.pkt, set f | f in frames :: f.pkt.datagram
                    => frames[i].pkt.Contents())
    }

    /** `get_frame_num` */
    function GetFrameNum(seq_: u32): (k: u32)
      requires size > 0
      ensures k == Slot(size, seq_)
    {
      seq_ % size
    }

    /** `empty_frame` */
    predicate EmptyFrame(frameNum: u32)
      requires |frames| == size
      reads frames
    {
      frameNum < size && frames[frameNum].state == Empty
    }

    /** `full_frame` */
    predicate FullFrame(frameNum: u32)
      requires |frames| == size
      reads frames
    {
      frameNum < size && frames[frameNum].state == Full
    }

    /** `sent_frame` */
    predicate SentFrame(frameNum: u32)
      requires |frames| == size
      reads frames
    {
      frameNum < size && frames[frameNum].state == Sent
    }

    /** `set_frame_empty`, `set_frame_full` and the assignments the source makes directly. */
    method SetFrame(frameNum: u32, state: FrameState)
      requires Valid() && frameNum < size
      modifies frames[frameNum]
      ensures States() == old(States())[frameNum as int := state]
    {
      frames[frameNum].state := state;
    }

    method SetRR(v: u32)
      requires Valid() && OwnBuffers()
      modifies `rr
      ensures View() == old(View()).(rr := v)
      ensures OwnBuffers() && Wires() == old(Wires())
    {
      rr := v;
    }

    /** A packet is made in the buffer of a frame, which is full after. */
    method PutPacket(frameNum: u32, o: Order, flag: byte, seq_: u32, data: seq<byte>)
      requires Valid() && OwnBuffers() && frameNum < size && |data| <= buffsize
      modifies frames[frameNum], frames[frameNum].pkt, frames[frameNum].pkt.datagram
      ensures OwnBuffers() && frames[frameNum].pkt.datagram == old(frames[frameNum].pkt.datagram)
      ensures States() == old(States())[frameNum as int := Full]
      ensures Wires() == old(Wires())[frameNum as int := Encode(o, Packet(flag, seq_, data))]
    {
      hide Encode;
      var frame := frames[frameNum];
      frame.pkt.CreatePkt(o, flag, seq_, data);
      frame.state := Full;
      assert forall i :: 0 <= i < |frames| && i != frameNum as int ==>
               frames[i].pkt.Contents() == old(frames[i].pkt.Contents());
    }

    /** `file_fill_frame`, for a frame that is empty: the next bytes of the file become a packet in it. */
    method FileFillFrame(o: Order, file: InFile, seq_: u32)
      requires Valid() && OwnBuffers() && EmptyFrame(GetFrameNum(seq_))
      requires file.pos <= |file.content| && (file.feof ==> eof)
      modifies file, `eof
      modifies frames[GetFrameNum(seq_)], frames[GetFrameNum(seq_)].pkt, frames[GetFrameNum(seq_)].pkt.datagram
      ensures OwnBuffers() && frames[GetFrameNum(seq_)].pkt.datagram == old(frames[GetFrameNum(seq_)].pkt.datagram)
      ensures var k := GetFrameNum(seq_) as int;
              var data := Fread(file.content, buffsize, old(file.pos));
              && file.pos == old(file.pos) + |data| <= |file.content|
              && (file.feof ==> eof)
              && eof == (old(eof) || |data| < buffsize)
              && States() == (if data == [] then old(States()) else old(States())[k := Full])
              && Wires() == if data == [] then old(Wires()) else old(Wires())[k := Encode(o, Packet(DATA, seq_, data))]
    {
      hide Encode, Fread;
      var k := GetFrameNum(seq_);
      var data := file.Read(buffsize);
      if |data| == 0 {
        SetFrame(k, Empty);
        assert States() == old(States());
        assert Wires() == old(Wires());
      } else {
        PutPacket(k, o, DATA, seq_, data);
      }
      if file.feof {
        eof := true;
      }
    }

    /** `send_frame` */
    method SendFrame(conn: Sock, frameNum: u32)
      requires Valid() && OwnBuffers() && frameNum < size
      modifies conn`sent, frames[frameNum]
      ensures conn.sent == old(conn.sent) + [Wires()[frameNum]]
      ensures States() == old(States())[frameNum as int := Sent] && Wires() == old(Wires())
    {
      conn.SendPkt(frames[frameNum].pkt);
      frames[frameNum].state := Sent;
    }

    /** The data lengths recorded in the frames' packets. */
    ghost function Lens(): seq<nat>
      reads Packets()
    {
      seq(|frames|, i requires 0 <= i < |frames| reads Packets() => frames[i].pkt.dataLen)
    }

    /** `pkt_fill_frame`: the packet structure is copied, so the frame's packet now points at the buffer of
        `pkt`; its bytes are not copied. */
    method PktFillFrame(pkt: Pkt)
      requires Valid() && pkt !in Packets()
      modifies frames[GetFrameNum(pkt.seq_)], frames[GetFrameNum(pkt.seq_)].pkt
      ensures var k := GetFrameNum(pkt.seq_) as int;
              && States() == old(States())[k := Full]
              && Lens() == (if old(States())[k] == Empty then old(Lens())[k := pkt.dataLen] else old(Lens()))
              && (old(States())[k] == Empty ==> frames[k].pkt.datagram == pkt.datagram)
              && (old(States())[k] != Empty ==> frames[k].pkt.datagram == old(frames[k].pkt.datagram))
    {
      var frameNum := GetFrameNum(pkt.seq_);
      var frame := frames[frameNum];
      if EmptyFrame(frameNum) && EmptyFrame(frameNum) {
        frame.pkt.datagram, frame.pkt.datagramLen, frame.pkt.dataLen := pkt.datagram, pkt.datagramLen, pkt.dataLen;
        frame.pkt.seq_, frame.pkt.checksum, frame.pkt.flag := pkt.seq_, pkt.checksum, pkt.flag;
      }
      frame.state := Full;
    }

    /** The loop of `timeout_on_response`. */
    method RefillSent()
      requires Valid() && OwnBuffers() && top < U32_MAX
      modifies frames
      ensures States() == RefillFrom(old(States()), bottom, top) && Wires() == old(Wires())
    {
      hide Slot;
      var seq_ := bottom;
      while seq_ <= top
        invariant seq_ <= top + 1 || seq_ == bottom
        invariant Wires() == old(Wires())
        invariant RefillFrom(States(), seq_, top) == RefillFrom(old(States()), bottom, top)
        decreases top + 1 - seq_
      {
        if SentFrame(GetFrameNum(seq_)) {
          SetFrame(GetFrameNum(seq_), Full);
        }
        seq_ := seq_ + 1;
      }
    }

    /** The part the two `adjust_window` functions share: frames leave the window from the top down. */
    method Slide() returns (moved: bool)
      requires Valid() && bottom >= 1
      modifies this`bottom, this`top, frames
      ensures View() == Ring.Slide(old(View()))
      ensures moved == Moves(old(View())) && bottom >= 1
    {
      moved := rr > bottom || srej > bottom;
      if moved {
        var seq_: u32 := if rr > srej then rr - 1 else srej - 1;
        ghost var hi := seq_ + 1;
        while seq_ >= bottom
          invariant bottom - 1 <= seq_ < hi
          invariant EmptyDown(States(), seq_ + 1, bottom) == EmptyDown(old(States()), hi, bottom)
          decreases seq_
          modifies frames
        {
          SetFrame(GetFrameNum(seq_), Empty);
          seq_ := seq_ - 1;
        }
        bottom := if rr > srej then rr else srej;
        top := (bottom + size - 1) % U32_LIMIT;
      }
    }
  }
}
