/** Packets and the datagrams that carry them (`create_pkt`, `get_hdr`, `recv_pkt` of libsrj.c). */
module Codec {
  import opened Bytes
  import opened Checksum

  datatype Option<+T> = None | Some(value: T)

  const HDR_LEN: nat := 8
  const HDR_CHECKSUM_OFFSET: nat := 4
  const HDR_FLAG_OFFSET: nat := 6

  const DATA: byte := 1
  const SREJ: byte := 4
  const RR: byte := 5
  const FILE_NAME: byte := 6
  const FILE_NAME_ACK: byte := 7
  const FILE_EOF: byte := 8
  const FILE_EOF_ACK: byte := 9
  const FILE_NAME_ERR_ACK: byte := 10
  const FILE_BEGIN: byte := 11
  const FILE_BEGIN_ACK: byte := 12

  /** How many silences are put up with: `MAX_TRIES` of server.h and rcopy.h, and the ten written out in
      `timeout_on_ack` of both programs. */
  const MAX_TRIES: nat := 10

  datatype Packet = Packet(flag: byte, seq_: u32, data: seq<byte>)

  /** What a wait for a datagram ends with: nothing came in time, or something did. */
  datatype Arrival = Silence | Came(w: Wire)

  /** Both programs send nothing shorter than a header, and the network does not shorten datagrams. */
  predicate Framed(arrivals: seq<Arrival>) {
    forall a :: a in arrivals && a.Came? ==> |a.w| >= HDR_LEN
  }

  /** The next arrival, and those after it; when they run out nothing ever arrives again. */
  function First(arrivals: seq<Arrival>): Arrival {
    if arrivals == [] then Silence else arrivals[0]
  }

  function Rest(arrivals: seq<Arrival>): seq<Arrival> {
    if arrivals == [] then [] else arrivals[1..]
  }

  /** The datagram of `p` with the given two bytes in its checksum field. */
  function Datagram(p: Packet, checksum: seq<byte>): (w: Wire)
    requires |checksum| == 2
    ensures |w| == HDR_LEN + |p.data|
  {
    NetworkBytes(p.seq_) + checksum + [p.flag, 0] + p.data
  }

  /** The datagram that a host of byte order `o` builds for `p`: the checksum is taken over the datagram
      with a zero checksum field and stored the way that host stores a 16-bit number. */
  function Encode(o: Order, p: Packet): (w: Wire)
    ensures |w| == HDR_LEN + |p.data|
  {
    Datagram(p, Store16(o, InCksum(o, Datagram(p, [0, 0]))))
  }

  /** The header fields and the data found in a datagram, checked or not. */
  function Parse(w: Wire): (p: Packet)
    requires |w| >= HDR_LEN
  {
    Packet(w[HDR_FLAG_OFFSET], FromNetwork(w[..4]), w[HDR_LEN..])
  }

  /** What `recv_pkt` makes of a datagram: nothing at all when the checksum is not good. */
  function Receive(o: Order, w: Wire): (r: Option<Packet>)
    requires |w| >= HDR_LEN
  {
    if InCksum(o, w) == 0 then Some(Parse(w)) else None
  }

  /** What `recvfrom` keeps of a datagram: as much as the packet buffer holds. */
  function Truncate(w: Wire, buffsize: nat): (v: Wire)
    ensures |v| <= HDR_LEN + buffsize
    ensures |w| >= HDR_LEN ==> |v| >= HDR_LEN
  {
    w[..if |w| <= HDR_LEN + buffsize then |w| else HDR_LEN + buffsize]
  }

  /** The bytes on the wire: four of the number, most significant first, two of the checksum, one of the flag, a
      zero, and the data. */
  lemma WireLayout(o: Order, p: Packet)
    ensures var w := Encode(o, p);
            && |w| == 8 + |p.data|
            && 0x100_0000 * w[0] as int + 0x1_0000 * w[1] as int + 0x100 * w[2] as int + w[3] as int == p.seq_
            && w[6] == p.flag && w[7] == 0
            && w[8..] == p.data
  {
    NetworkBytesRoundTrip(p.seq_);
  }

  lemma SumOfFour(d: seq<byte>)
    requires |d| >= 8
    ensures WordSum(Big, d) ==
            Word(Big, d[0], d[1]) + Word(Big, d[2], d[3]) + Word(Big, d[4], d[5]) + Word(Big, d[6], d[7])
            + WordSum(Big, d[8..])
  {
    assert d[2..][2..] == d[4..] && d[4..][2..] == d[6..] && d[6..][2..] == d[8..];
  }

  /** The datagram of a small number on any host, from the sum `s` of its data. */
  lemma SmallWire(o: Order, flag: byte, q: byte, data: seq<byte>, s: nat)
    requires s == WordSum(Big, data) && q + 256 * flag as int + s < WORDS
    ensures var sum := 0xFFFF - (q + 256 * flag as int + s);
            Encode(o, Packet(flag, q, data)) == [0, 0, 0, q, sum / 256, sum % 256, flag, 0] + data
  {
    hide WordSum;
    var p := Packet(flag, q, data);
    EncodingIsOrderFree(o, Big, p);
    var d := Datagram(p, [0, 0]);
    assert d[..8] == [0, 0, 0, q, 0, 0, flag, 0] && d[8..] == data;
    SumOfFour(d);
    assert WordSum(Big, d) == q + 256 * flag as int + s;
  }

  /** The control packets of a transfer as they are on the wire. */
  lemma ControlPackets(o: Order)
    ensures Encode(o, Packet(RR, 1, [])) == [0, 0, 0, 1, 0xFA, 0xFE, 5, 0]
    ensures Encode(o, Packet(SREJ, 1, [])) == [0, 0, 0, 1, 0xFB, 0xFE, 4, 0]
    ensures Encode(o, Packet(FILE_NAME_ACK, 0, [])) == [0, 0, 0, 0, 0xF8, 0xFF, 7, 0]
    ensures Encode(o, Packet(FILE_EOF, 1, [])) == [0, 0, 0, 1, 0xF7, 0xFE, 8, 0]
    ensures Encode(o, Packet(FILE_EOF_ACK, 1, [])) == [0, 0, 0, 1, 0xF6, 0xFE, 9, 0]
    ensures Encode(o, Packet(FILE_BEGIN, 0, [])) == [0, 0, 0, 0, 0xF4, 0xFF, 11, 0]
    ensures Encode(o, Packet(FILE_BEGIN_ACK, 0, [])) == [0, 0, 0, 0, 0xF3, 0xFF, 12, 0]
  {
    hide Encode;
    SmallWire(o, RR, 1, [], 0);
    SmallWire(o, SREJ, 1, [], 0);
    SmallWire(o, FILE_NAME_ACK, 0, [], 0);
    SmallWire(o, FILE_EOF, 1, [], 0);
    SmallWire(o, FILE_EOF_ACK, 1, [], 0);
    SmallWire(o, FILE_BEGIN, 0, [], 0);
    SmallWire(o, FILE_BEGIN_ACK, 0, [], 0);
  }

  /** The packets that carry data, on payloads of the smallest size they have. */
  lemma DataPackets(o: Order)
    ensures Encode(o, Packet(DATA, 1, [7])) == [0, 0, 0, 1, 0xF7, 0xFE, 1, 0, 7]
    ensures Encode(o, Packet(FILE_NAME_ERR_ACK, 0, [0, 0, 0, 2])) == [0, 0, 0, 0, 0xF5, 0xFD, 10, 0, 0, 0, 0, 2]
    ensures Encode(o, Packet(FILE_NAME, 0, [0, 0, 0, 9, 0, 0, 0, 1, 0])) ==
            [0, 0, 0, 0, 0xF9, 0xF5, 6, 0, 0, 0, 0, 9, 0, 0, 0, 1, 0]
  {
    hide Encode;
    SmallWire(o, DATA, 1, [7], 0x700);
    assert [0, 0, 0, 2][2..] == [0, 2] && [0, 0, 0, 2][2..][2..] == [];
    SmallWire(o, FILE_NAME_ERR_ACK, 0, [0, 0, 0, 2], 2);
    SumOfFour([0, 0, 0, 9, 0, 0, 0, 1, 0]);
    SmallWire(o, FILE_NAME, 0, [0, 0, 0, 9, 0, 0, 0, 1, 0], 10);
  }

  lemma ParseDatagram(p: Packet, checksum: seq<byte>)
    requires |checksum| == 2
    ensures Parse(Datagram(p, checksum)) == p
  {
    var w := Datagram(p, checksum);
    NetworkBytesRoundTrip(p.seq_);
    assert w[..4] == NetworkBytes(p.seq_);
    assert w[HDR_LEN..] == p.data;
  }

  lemma EncodedPasses(o: Order, p: Packet)
    ensures InCksum(o, Encode(o, p)) == 0
  {
    var zeroed := Datagram(p, [0, 0]);
    var c := InCksum(o, zeroed);
    var w := Encode(o, p);
    assert DifferWithinWord(zeroed, w, 4);
    ChangeOfOneWord(o, zeroed, w, 4);
    assert w[4..6] == Store16(o, c);
    assert WordAt(o, w, 4) == c by {
      assert w[4] == Store16(o, c)[0] && w[5] == Store16(o, c)[1];
    }
    var s := WordSum(o, zeroed);
    assert WordSum(o, w) == s + c;
    hide WordSum, WordAt, DifferWithinWord, Fold, Encode, Datagram, Store16;
    PassesIff(o, w);
    SumCompletes(s);
  }

  /** A sum and what the checksum adds to it. */
  lemma SumCompletes(s: nat)
    ensures s + (65535 - Fold(s)) > 0 && (s + (65535 - Fold(s))) % 65535 == 0
  {
    AddCongruent(s, Fold(s), 65535 - Fold(s), 65535 - Fold(s));
  }

  /** Whatever the byte orders of the two hosts, what one packs the other unpacks. */
  lemma RoundTrip(sender: Order, receiver: Order, p: Packet)
    ensures Receive(receiver, Encode(sender, p)) == Some(p)
  {
    EncodedPasses(sender, p);
    PassingIsOrderFree(sender, receiver, Encode(sender, p));
    ParseDatagram(p, Store16(sender, InCksum(sender, Datagram(p, [0, 0]))));
  }

  /** Hosts of either byte order send the same bytes. */
  lemma EncodingIsOrderFree(o: Order, o': Order, p: Packet)
    ensures Encode(o, p) == Encode(o', p)
  {
    StoredChecksumIsOrderFree(o, o', Datagram(p, [0, 0]));
  }

  /** One flipped bit, wherever it falls, makes the receiver reject the datagram. */
  lemma FlippedBitIsRejected(sender: Order, receiver: Order, p: Packet, i: nat)
    requires i < 8 * (HDR_LEN + |p.data|)
    ensures Receive(receiver, FlipBit(Encode(sender, p), i)) == None
  {
    EncodedPasses(sender, p);
    PassingIsOrderFree(sender, receiver, Encode(sender, p));
    FlippedBitIsDetected(receiver, Encode(sender, p), i);
  }

  /** Damage `e` confined to one 16-bit word of the datagram of `p` is accepted exactly when it swaps
      0x0000 and 0xFFFF there without clearing the whole datagram. */
  lemma DamagedWordIsAcceptedIff(sender: Order, receiver: Order, p: Packet, e: Wire, k: nat)
    requires DifferWithinWord(Encode(sender, p), e, k)
    requires e != Encode(sender, p)
    ensures Receive(receiver, e) != None <==>
            var before := WordAt(receiver, Encode(sender, p), k);
            var after := WordAt(receiver, e, k);
            || (before == 0 && after == 0xFFFF)
            || (before == 0xFFFF && after == 0 && exists i :: 0 <= i < |e| && e[i] != 0)
  {
    EncodedPasses(sender, p);
    PassingIsOrderFree(sender, receiver, Encode(sender, p));
    WordChangePassesIff(receiver, Encode(sender, p), e, k);
  }
}
