/** The payload of the FILE_NAME packet: written by rcopy, read by the server. */
module InitPayload {
  import opened Bytes

  const DATA_WINDOW_SIZE_OFF: nat := 4
  const DATA_FILENAME_OFF: nat := 8

  /** No byte of a C string is zero. */
  predicate NulFree(name: seq<byte>) {
    forall i :: 0 <= i < |name| ==> name[i] != 0
  }

  /** `create_init_pkt`: buffer size, window size and the file name with its closing NUL. */
  function InitData(buffsize: u32, windowSize: u32, name: seq<byte>): (d: seq<byte>)
    ensures |d| == DATA_FILENAME_OFF + |name| + 1
  {
    NetworkBytes(buffsize) + NetworkBytes(windowSize) + name + [0]
  }

  function GetBuffsize(d: seq<byte>): u32
    requires |d| >= DATA_WINDOW_SIZE_OFF
  {
    FromNetwork(d[..4])
  }

  function GetWindowSize(d: seq<byte>): u32
    requires |d| >= DATA_FILENAME_OFF
  {
    FromNetwork(d[4..8])
  }

  /** `strlen` followed by a copy: the bytes up to the first NUL. */
  function CString(d: seq<byte>): seq<byte> {
    if d == [] || d[0] == 0 then [] else [d[0]] + CString(d[1..])
  }

  function GetFilename(d: seq<byte>): seq<byte>
    requires |d| >= DATA_FILENAME_OFF
  {
    CString(d[DATA_FILENAME_OFF..])
  }

  lemma {:induction false} CStringStopsAtNul(name: seq<byte>, rest: seq<byte>)
    requires NulFree(name)
    ensures CString(name + [0] + rest) == name
  {
    var d := name + [0] + rest;
    if name != [] {
      assert d[1..] == name[1..] + [0] + rest;
      CStringStopsAtNul(name[1..], rest);
    }
  }

  lemma {:induction false} CStringIsPrefix(d: seq<byte>)
    ensures var n := |CString(d)|;
            n <= |d| && CString(d) == d[..n] && NulFree(CString(d)) && (n < |d| ==> d[n] == 0)
  {
    if d != [] && d[0] != 0 {
      CStringIsPrefix(d[1..]);
    }
  }

  /** The length `strlen` counts, and the copy `get_filename` makes. */
  method ReadFilename(d: seq<byte>) returns (name: seq<byte>)
    requires |d| >= DATA_FILENAME_OFF && exists i :: DATA_FILENAME_OFF <= i < |d| && d[i] == 0
    ensures name == GetFilename(d)
    ensures NulFree(name) && DATA_FILENAME_OFF + |name| < |d| && d[DATA_FILENAME_OFF + |name|] == 0
  {
    var len := 0;
    ghost var nul :| DATA_FILENAME_OFF <= nul < |d| && d[nul] == 0;
    while d[DATA_FILENAME_OFF + len] != 0
      invariant 0 <= len <= nul - DATA_FILENAME_OFF
      invariant forall i :: DATA_FILENAME_OFF <= i < DATA_FILENAME_OFF + len ==> d[i] != 0
      decreases nul - len
    {
      len := len + 1;
    }
    name := d[DATA_FILENAME_OFF..DATA_FILENAME_OFF + len];
    var tail := d[DATA_FILENAME_OFF..];
    CStringStopsAtNul(name, tail[len + 1..]);
    assert tail == name + [0] + tail[len + 1..];
  }

  /** The bytes of the payload: both sizes most significant byte first, the name and a zero. */
  lemma PayloadLayout(buffsize: u32, windowSize: u32, name: seq<byte>)
    ensures var d := InitData(buffsize, windowSize, name);
            && |d| == 8 + |name| + 1
            && 0x100_0000 * d[0] as int + 0x1_0000 * d[1] as int + 0x100 * d[2] as int + d[3] as int == buffsize
            && 0x100_0000 * d[4] as int + 0x1_0000 * d[5] as int + 0x100 * d[6] as int + d[7] as int == windowSize
            && d[8..8 + |name|] == name && d[8 + |name|] == 0
  {
    NetworkBytesRoundTrip(buffsize);
    NetworkBytesRoundTrip(windowSize);
  }

  /** The server recovers exactly the parameters the client wrote, whatever follows them in its buffer. */
  lemma ParametersRoundTrip(buffsize: u32, windowSize: u32, name: seq<byte>, rest: seq<byte>)
    requires NulFree(name)
    ensures var d := InitData(buffsize, windowSize, name) + rest;
            && GetBuffsize(d) == buffsize
            && GetWindowSize(d) == windowSize
            && GetFilename(d) == name
  {
    var d := InitData(buffsize, windowSize, name) + rest;
    assert d[..4] == NetworkBytes(buffsize);
    assert d[4..8] == NetworkBytes(windowSize);
    NetworkBytesRoundTrip(buffsize);
    NetworkBytesRoundTrip(windowSize);
    assert d[DATA_FILENAME_OFF..] == name + [0] + rest;
    CStringStopsAtNul(name, rest);
  }
}
