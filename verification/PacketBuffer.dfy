/** The mutable structures of libsrj.c: packets in their buffers, frames, sockets and files. */
module PacketBuffer {
  import opened Bytes
  import opened Checksum
  import opened Codec
  import opened Chunks
  import opened Ring

  /** `pkt`: a packet buffer, the lengths of what is in it, and the header fields last taken out of it.
      The data are the bytes from `HDR_LEN` on. */
  class Pkt {
    var datagram: array<byte>
    var datagramLen: u32
    var dataLen: u32
    var seq_: u32
    var checksum: nat
    var flag: byte

    /** `pkt_alloc` */
    constructor (buffsize: u32)
      ensures fresh(datagram) && datagram.Length == HDR_LEN + buffsize
      ensures datagramLen == dataLen == 0
    {
      datagram := new byte[HDR_LEN + buffsize](_ => 0);
      datagramLen, dataLen, seq_, checksum, flag := 0, 0, 0, 0, 0;
    }

    ghost function Contents(): Wire
      reads this, datagram
      requires datagramLen <= datagram.Length
    {
      datagram[..datagramLen]
    }

    /** `get_hdr` */
    method GetHdr(o: Order)
      requires datagram.Length >= HDR_LEN
      modifies `seq_, `checksum, `flag
      ensures Packet(flag, seq_, datagram[HDR_LEN..]) == Parse(datagram[..])
      ensures checksum < WORDS && Store16(o, checksum) == datagram[HDR_CHECKSUM_OFFSET..HDR_FLAG_OFFSET]
    {
      checksum := Word(o, datagram[HDR_CHECKSUM_OFFSET], datagram[HDR_CHECKSUM_OFFSET + 1]);
      flag := datagram[HDR_FLAG_OFFSET];
      seq_ := FromNetwork(datagram[..4]);
      assert datagram[..4] == datagram[..][..4];
    }

    /** `create_hdr`: the header is cleared, its number and flag are put in, and the checksum of the whole
        datagram after them. */
    method CreateHdr(o: Order, seq_: u32, flag: byte)
      requires HDR_LEN <= datagramLen <= datagram.Length
      modifies datagram
      ensures datagram[..datagramLen] == Encode(o, Packet(flag, seq_, old(datagram[HDR_LEN..datagramLen])))
    {
      ghost var data := datagram[HDR_LEN..datagramLen];
      forall i | 0 <= i < HDR_LEN {
        datagram[i] := 0;
      }
      var nSeq := NetworkBytes(seq_);
      forall i | 0 <= i < 4 {
        datagram[i] := nSeq[i];
      }
      datagram[HDR_FLAG_OFFSET] := flag;
      ghost var p := Packet(flag, seq_, data);
      assert datagram[..datagramLen] == Datagram(p, [0, 0]);
      var nChecksum := Store16(o, InCksum(o, datagram[..datagramLen]));
      datagram[HDR_CHECKSUM_OFFSET] := nChecksum[0];
      datagram[HDR_CHECKSUM_OFFSET + 1] := nChecksum[1];
      assert datagram[..datagramLen] == Datagram(p, nChecksum);
    }

    /** `create_pkt`, for data that fit the buffer */
    method CreatePkt(o: Order, flag: byte, seq_: u32, data: seq<byte>)
      requires HDR_LEN + |data| <= datagram.Length < U32_LIMIT
      modifies this, datagram
      ensures datagram == old(datagram)
      ensures datagramLen == HDR_LEN + |data| && dataLen == |data|
      ensures Contents() == Encode(o, Packet(flag, seq_, data))
      ensures this.seq_ == seq_ && this.flag == flag
    {
      dataLen := |data|;
      datagramLen := HDR_LEN + |data|;
      forall i | 0 <= i < datagramLen {
        datagram[i] := 0;
      }
      forall i | 0 <= i < |data| {
        datagram[HDR_LEN + i] := data[i];
      }
      assert datagram[HDR_LEN..datagramLen] == data;
      CreateHdr(o, seq_, flag);
      GetHdr(o);
      ParseDatagram(Packet(flag, seq_, data), Store16(o, InCksum(o, Datagram(Packet(flag, seq_, data), [0, 0]))));
      assert datagram[..4] == Contents()[..4];
      assert datagram[HDR_FLAG_OFFSET] == Contents()[HDR_FLAG_OFFSET];
    }

    /** `recv_pkt`: `w` is what the socket had; the header is taken out only when the checksum is good.  Of a
        datagram shorter than a header the length of the data wraps around, and the rest of the header is what
        the buffer held before. */
    method RecvPkt(o: Order, w: Wire) returns (good: bool)
      requires HDR_LEN <= datagram.Length < U32_LIMIT
      modifies this, datagram
      ensures datagram == old(datagram)
      ensures var v := Truncate(w, datagram.Length - HDR_LEN);
              && datagramLen == |v| <= datagram.Length
              && dataLen == (|v| - HDR_LEN) % U32_LIMIT
              && Contents() == v
              && datagram[..] == v + old(datagram[..])[|v|..]
              && good == (InCksum(o, v) == 0)
              && (good ==> Packet(flag, seq_, datagram[HDR_LEN..]) == Parse(datagram[..]))
              && (|v| >= HDR_LEN ==> good == Receive(o, v).Some?)
              && (good && |v| >= HDR_LEN ==> Packet(flag, seq_, v[HDR_LEN..]) == Receive(o, v).value)
    {
      var v := Truncate(w, datagram.Length - HDR_LEN);
      forall i | 0 <= i < |v| {
        datagram[i] := v[i];
      }
      datagramLen := |v|;
      dataLen := (datagramLen - HDR_LEN) % U32_LIMIT;
      assert datagram[..datagramLen] == v;
      assert datagram[..] == v + old(datagram[..])[|v|..];
      good := InCksum(o, datagram[..datagramLen]) == 0;
      if good {
        GetHdr(o);
        if |v| >= HDR_LEN {
          assert datagram[..][..4] == v[..4];
        }
      }
    }
  }

  /** `frame`: its packet structure is allocated once and never exchanged. */
  class Frame {
    const pkt: Pkt
    var state: FrameState

    /** `frame_alloc` */
    constructor (buffsize: u32)
      ensures state == Empty
      ensures fresh(pkt) && fresh(pkt.datagram) && pkt.datagram.Length == HDR_LEN + buffsize
      ensures pkt.datagramLen == pkt.dataLen == 0
    {
      pkt := new Pkt(buffsize);
      state := Empty;
    }
  }

  /** `sock`, reduced to what an end of a session can see of it: what will arrive, and what it has sent. */
  class Sock {
    var arrivals: seq<Arrival>
    var sent: seq<Wire>
    var seq_: u32
    const buffsize: u32
    const windowSize: u32
    const order: Order

    constructor (arrivals: seq<Arrival>, buffsize: u32, windowSize: u32, order: Order)
      ensures this.arrivals == arrivals && sent == [] && seq_ == 0
      ensures this.buffsize == buffsize && this.windowSize == windowSize && this.order == order
    {
      this.arrivals, this.sent, this.seq_ := arrivals, [], 0;
      this.buffsize, this.windowSize, this.order := buffsize, windowSize, order;
    }

    /** `select_call`: does a datagram come before the time is over? */
    method SelectCall() returns (ready: bool)
      modifies `arrivals
      ensures ready ==> arrivals == old(arrivals) && arrivals != [] && arrivals[0].Came?
      ensures !ready ==> old(arrivals) == [] || old(arrivals)[0] == Silence
      ensures !ready ==> arrivals == if old(arrivals) == [] then [] else old(arrivals)[1..]
    {
      ready := arrivals != [] && arrivals[0].Came?;
      if arrivals != [] && !ready {
        arrivals := arrivals[1..];
      }
    }

    method Take() returns (w: Wire)
      requires arrivals != [] && arrivals[0].Came?
      modifies `arrivals
      ensures w == old(arrivals)[0].w && arrivals == old(arrivals)[1..]
    {
      w := arrivals[0].w;
      arrivals := arrivals[1..];
    }

    /** `send_pkt` */
    method SendPkt(pkt: Pkt)
      requires pkt.datagramLen <= pkt.datagram.Length
      modifies `sent
      ensures sent == old(sent) + [pkt.Contents()]
    {
      sent := sent + [pkt.datagram[..pkt.datagramLen]];
    }
  }

  /** The server's open file. */
  class InFile {
    const content: seq<byte>
    var pos: nat
    var feof: bool

    constructor (content: seq<byte>)
      ensures this.content == content && pos == 0 && !feof
    {
      this.content, this.pos, this.feof := content, 0, false;
    }

    /** `s_fread` */
    method Read(size: u32) returns (data: seq<byte>)
      requires pos <= |content|
      modifies this
      ensures data == Fread(content, size, old(pos))
      ensures pos == old(pos) + |data| <= |content|
      ensures feof == (old(feof) || |data| < size)
    {
      data := content[pos..if pos + size <= |content| then pos + size else |content|];
      pos := pos + |data|;
      feof := feof || |data| < size;
    }
  }

  /** rcopy's output file. */
  class OutFile {
    var content: seq<byte>

    constructor ()
      ensures content == []
    {
      content := [];
    }

    /** `s_fwrite` */
    method Write(data: seq<byte>)
      modifies this
      ensures content == old(content) + data
    {
      content := content + data;
    }
  }
}
