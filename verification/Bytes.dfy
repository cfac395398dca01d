/** Bytes, 32-bit unsigned integers, and how hosts of either byte order keep numbers in memory. */
module Bytes {
  type byte = x: int | 0 <= x < 256

  const U32_LIMIT := 0x1_0000_0000

  const U32_MAX := U32_LIMIT - 1

  /** The source's `uint32_t`.  Assigning to a variable of this type obliges the verifier to show that
      the value fits, so a computation that could wrap around does not verify. */
  type u32 = x: int | 0 <= x < U32_LIMIT

  /** A `uint32_t` that is not zero. */
  type positive = x: int | 0 < x < U32_LIMIT witness 1

  type Wire = seq<byte>

  datatype Order = Little | Big

  const WORDS := 0x1_0000

  /** The number a host of order `o` loads from two consecutive bytes of memory. */
  function Word(o: Order, first: byte, second: byte): (r: nat)
    ensures r < WORDS
  {
    match o
    case Little => second * 256 + first
    case Big => first * 256 + second
  }

  /** The two bytes a host of order `o` leaves in memory when it stores `v`. */
  function Store16(o: Order, v: nat): (r: seq<byte>)
    requires v < WORDS
    ensures |r| == 2 && Word(o, r[0], r[1]) == v
  {
    match o
    case Little => [v % 256, v / 256]
    case Big => [v / 256, v % 256]
  }

  /** What `htonl` followed by a copy into a packet leaves there: most significant byte first. */
  function NetworkBytes(v: u32): (r: seq<byte>)
    ensures |r| == 4
  {
    [v / 0x100_0000, v / 0x1_0000 % 256, v / 0x100 % 256, v % 256]
  }

  /** What a copy out of a packet followed by `ntohl` yields. */
  function FromNetwork(b: seq<byte>): (v: u32)
    requires |b| == 4
  {
    0x100_0000 * b[0] as int + 0x1_0000 * b[1] as int + 0x100 * b[2] as int + b[3] as int
  }

  lemma NetworkBytesRoundTrip(v: u32)
    ensures FromNetwork(NetworkBytes(v)) == v
  {
    assert v / 0x100_0000 == v / 0x1_0000 / 256;
    assert v / 0x1_0000 == v / 0x100 / 256;
  }
}
