/** The handshake and the close of both programs run to their ends, against anything at all. */
module HandshakeLoop {
  import opened Bytes
  import opened Codec
  import opened Chunks
  import opened InitPayload
  import opened Session
  import S = Sender
  import R = Receiver

  // ---------- the server ----------

  /** The phases in which neither `file_name` nor `file_eof` runs. */
  predicate ServerStopped(s: Server) {
    s.ph in {Listening, Transferring, ServerFinished, Restarted, Crashed}
  }

  predicate ServerWaits(s: Server) {
    s.ph == AwaitBegin || s.ph == EofAwaitAck
  }

  function ServerTurn(c: Config, s: Server, arrivals: seq<Arrival>): (r: (Server, seq<Wire>, seq<Arrival>))
    requires ServerOk(s) && Framed(arrivals) && !ServerStopped(s)
    ensures ServerOk(r.0) && Framed(r.2)
  {
    if ServerWaits(s) then
      (match First(arrivals)
       case Silence => (ServerTimeout(s), [], Rest(arrivals))
       case Came(w) => var (t, out) := ServerHear(c, s, w); (t, out, Rest(arrivals)))
    else
      var (t, out) := ServerPass(c, s);
      (t, out, arrivals)
  }

  function ServerRank(s: Server): nat {
    match s.ph
    case OpenFile => 5
    case GoodFile => 4
    case BadFile => 4
    case SendNameAck => 3
    case AwaitBegin => 2
    case EofCreate => 4
    case EofSend => 3
    case EofAwaitAck => 2
    case EofTimeout => 1
    case _ => 0
  }

  function EofTriesLeft(s: Server): nat {
    if s.eofWaits < MAX_TRIES then MAX_TRIES - s.eofWaits else 0
  }

  lemma ServerTurnProgresses(c: Config, s: Server, arrivals: seq<Arrival>)
    requires ServerOk(s) && Framed(arrivals) && !ServerStopped(s)
    ensures var (t, _, rest) := ServerTurn(c, s, arrivals);
            || |rest| < |arrivals|
            || (rest == arrivals && EofTriesLeft(t) < EofTriesLeft(s))
            || (rest == arrivals && EofTriesLeft(t) == EofTriesLeft(s) && ServerRank(t) < ServerRank(s))
  {
    hide Receive, Encode;
  }

  /** `file_name` or `file_eof` from phase to phase: the final state, what is sent, and what is left unheard. */
  function ServerRun(c: Config, s: Server, arrivals: seq<Arrival>): (r: (Server, seq<Wire>, seq<Arrival>))
    requires ServerOk(s) && Framed(arrivals)
    ensures ServerOk(r.0) && ServerStopped(r.0) && Framed(r.2)
    decreases |arrivals|, EofTriesLeft(s), ServerRank(s)
  {
    if ServerStopped(s) then (s, [], arrivals)
    else
      ServerTurnProgresses(c, s, arrivals);
      var (t, out, rest) := ServerTurn(c, s, arrivals);
      var (u, more, left) := ServerRun(c, t, rest);
      (u, out + more, left)
  }

  /** The loops that wait, of `file_begin` and `wait_on_ack`: they listen until the phase changes. */
  function ServerAwait(c: Config, s: Server, arrivals: seq<Arrival>): (r: (Server, seq<Wire>, seq<Arrival>))
    requires ServerOk(s) && Framed(arrivals) && ServerWaits(s)
    ensures ServerOk(r.0) && Framed(r.2)
    decreases arrivals
  {
    var (t, out, rest) := ServerTurn(c, s, arrivals);
    if t.ph == s.ph && arrivals != [] then ServerAwait(c, t, rest) else (t, out, rest)
  }

  lemma {:induction false} AwaitIsRun(c: Config, s: Server, arrivals: seq<Arrival>)
    requires ServerOk(s) && Framed(arrivals) && ServerWaits(s)
    ensures var (t, out, rest) := ServerAwait(c, s, arrivals);
            var (u, more, left) := ServerRun(c, t, rest);
            && t.ph != s.ph
            && (NamePhases(s.ph) ==> NamePhases(t.ph)) && (EofPhases(s.ph) ==> EofPhases(t.ph) && t.ph != EofCreate)
            && (s.sender.None? && t.ph != Transferring ==> t.sender.None?)
            && ServerRun(c, s, arrivals) == (u, out + more, left)
    ensures var (t, _, rest) := ServerAwait(c, s, arrivals);
            || |rest| < |arrivals|
            || (rest == arrivals && EofTriesLeft(t) == EofTriesLeft(s) && ServerRank(t) < ServerRank(s))
    decreases arrivals
  {
    hide ServerTurn;
    WaitingTurn(c, s, arrivals);
    var (t, out, rest) := ServerTurn(c, s, arrivals);
    if t.ph == s.ph && arrivals != [] {
      AwaitIsRun(c, t, rest);
      assert out + ServerRun(c, t, rest).1 == ServerRun(c, t, rest).1;
    }
  }

  /** One turn of a wait: an arrival that ends nothing changes nothing. */
  lemma WaitingTurn(c: Config, s: Server, arrivals: seq<Arrival>)
    requires ServerOk(s) && Framed(arrivals) && ServerWaits(s)
    ensures var (t, out, rest) := ServerTurn(c, s, arrivals);
            && (t.ph == s.ph ==> t == s && out == [] && arrivals != [])
            && rest == Rest(arrivals) && t.eofWaits == s.eofWaits
            && (NamePhases(s.ph) ==> NamePhases(t.ph)) && (EofPhases(s.ph) ==> EofPhases(t.ph) && t.ph != EofCreate)
            && (s.sender.None? && t.ph != Transferring ==> t.sender.None?)
            && (arrivals == [] ==> ServerRank(t) < ServerRank(s))
  {
    hide Encode, Receive, BeginTransfer;
  }

  predicate NamePhases(ph: ServerPhase) {
    ph in {OpenFile, GoodFile, BadFile, SendNameAck, AwaitBegin, Transferring, Crashed, ServerFinished}
  }

  predicate EofPhases(ph: ServerPhase) {
    ph in {EofCreate, EofSend, EofAwaitAck, EofTimeout, ServerFinished}
  }

  /** From one phase to the next: a whole wait, or one pass. */
  function NextOf(c: Config, s: Server, arrivals: seq<Arrival>): (r: (Server, seq<Wire>, seq<Arrival>))
    requires ServerOk(s) && Framed(arrivals) && !ServerStopped(s)
    ensures ServerOk(r.0) && Framed(r.2)
  {
    if ServerWaits(s) then ServerAwait(c, s, arrivals) else ServerTurn(c, s, arrivals)
  }

  lemma RunUnfolds(c: Config, s: Server, arrivals: seq<Arrival>)
    requires ServerOk(s) && Framed(arrivals) && !ServerStopped(s)
    ensures var (t, out, rest) := NextOf(c, s, arrivals);
            var (u, more, left) := ServerRun(c, t, rest);
            && ServerRun(c, s, arrivals) == (u, out + more, left)
            && (NamePhases(s.ph) ==> NamePhases(t.ph)) && (EofPhases(s.ph) ==> EofPhases(t.ph) && t.ph != EofCreate)
            && (s.sender.None? && t.ph != Transferring ==> t.sender.None?)
            && (|rest| < |arrivals|
                || (rest == arrivals && EofTriesLeft(t) < EofTriesLeft(s))
                || (rest == arrivals && EofTriesLeft(t) == EofTriesLeft(s) && ServerRank(t) < ServerRank(s)))
  {
    hide ServerAwait, Encode, Receive;
    if ServerWaits(s) {
      AwaitIsRun(c, s, arrivals);
    } else {
      ServerTurnProgresses(c, s, arrivals);
    }
  }

  lemma RunStops(c: Config, s: Server, arrivals: seq<Arrival>)
    requires ServerOk(s) && Framed(arrivals) && ServerStopped(s)
    ensures ServerRun(c, s, arrivals) == (s, [], arrivals)
  {
  }

  /** After `out` has been sent, the run goes on from `s` to end in `end`. */
  ghost predicate Leaves(c: Config, end: (Server, seq<Wire>, seq<Arrival>), out: seq<Wire>,
                         s: Server, arrivals: seq<Arrival>)
    requires ServerOk(s) && Framed(arrivals)
  {
    var (u, more, left) := ServerRun(c, s, arrivals);
    end == (u, out + more, left)
  }

  lemma NothingSentYet(c: Config, s: Server, arrivals: seq<Arrival>)
    requires ServerOk(s) && Framed(arrivals)
    ensures Leaves(c, ServerRun(c, s, arrivals), [], s, arrivals)
  {
    hide ServerRun;
    assert [] + ServerRun(c, s, arrivals).1 == ServerRun(c, s, arrivals).1;
  }

  lemma StoppedLeaves(c: Config, end: (Server, seq<Wire>, seq<Arrival>), out: seq<Wire>,
                      s: Server, arrivals: seq<Arrival>)
    requires ServerOk(s) && Framed(arrivals) && ServerStopped(s) && Leaves(c, end, out, s, arrivals)
    ensures end == (s, out, arrivals)
  {
    hide ServerRun;
    RunStops(c, s, arrivals);
    assert out + ServerRun(c, s, arrivals).1 == out;
  }

  lemma NextLeaves(c: Config, end: (Server, seq<Wire>, seq<Arrival>), out: seq<Wire>,
                   s: Server, arrivals: seq<Arrival>)
    requires ServerOk(s) && Framed(arrivals) && !ServerStopped(s) && Leaves(c, end, out, s, arrivals)
    ensures var (t, now, rest) := NextOf(c, s, arrivals); Leaves(c, end, out + now, t, rest)
  {
    hide ServerRun, NextOf;
    RunUnfolds(c, s, arrivals);
    var (t, now, rest) := NextOf(c, s, arrivals);
    assert out + (now + ServerRun(c, t, rest).1) == out + now + ServerRun(c, t, rest).1;
  }

  /** The packet an arrival carries to the server, if it carries a good one. */
  function Carried(c: Config, s: Server, a: Arrival): Option<Packet>
    requires a.Came? ==> |a.w| >= HDR_LEN
  {
    if a.Came? then Receive(c.serverOrder, Truncate(a.w, s.buffsize)) else None
  }

  /** A good packet numbered `q`, whatever its kind. */
  predicate HasNumber(c: Config, s: Server, a: Arrival, q: u32)
    requires a.Came? ==> |a.w| >= HDR_LEN
  {
    var p := Carried(c, s, a); p.Some? && p.value.seq_ == q
  }

  /** Some arrival is a good packet numbered `q`. */
  predicate NumberComes(c: Config, s: Server, q: u32, arrivals: seq<Arrival>)
    requires Framed(arrivals)
    decreases arrivals
  {
    arrivals != [] && (HasNumber(c, s, arrivals[0], q) || NumberComes(c, s, q, arrivals[1..]))
  }

  /** The silences before it. */
  function SilencesBefore(c: Config, s: Server, q: u32, arrivals: seq<Arrival>): nat
    requires Framed(arrivals)
    decreases arrivals
  {
    if arrivals == [] || HasNumber(c, s, arrivals[0], q) then 0
    else (if arrivals[0] == Silence then 1 else 0) + SilencesBefore(c, s, q, arrivals[1..])
  }

  /** How often a server with `left` tries left is met with silence before it hears number `q`; once the arrivals
      run out there is nothing but silence. */
  function SilencesMet(c: Config, s: Server, q: u32, arrivals: seq<Arrival>, left: nat): nat
    requires Framed(arrivals)
  {
    if NumberComes(c, s, q, arrivals) then Min(left, SilencesBefore(c, s, q, arrivals)) else left
  }

  lemma SilencesOfTheSame(c: Config, s: Server, t: Server, q: u32, arrivals: seq<Arrival>, left: nat)
    requires Framed(arrivals) && t.buffsize == s.buffsize
    ensures SilencesMet(c, t, q, arrivals, left) == SilencesMet(c, s, q, arrivals, left)
  {
    SameNumbers(c, s, t, q, arrivals);
  }

  lemma {:induction false} SameNumbers(c: Config, s: Server, t: Server, q: u32, arrivals: seq<Arrival>)
    requires Framed(arrivals) && t.buffsize == s.buffsize
    ensures NumberComes(c, t, q, arrivals) == NumberComes(c, s, q, arrivals)
    ensures SilencesBefore(c, t, q, arrivals) == SilencesBefore(c, s, q, arrivals)
    decreases arrivals
  {
    if arrivals != [] {
      SameNumbers(c, s, t, q, arrivals[1..]);
    }
  }

  /** The close: whatever arrives, FILE_EOF is sent once, and again for every silence before the first good packet
      that carries its number, but no more than ten times again; nothing else is sent, and the server finishes. */
  lemma CloseIsBounded(c: Config, s: Server, arrivals: seq<Arrival>)
    requires ServerOk(s) && Framed(arrivals) && s.ph == EofCreate && s.eofWaits == 0
    ensures var (t, out, _) := ServerRun(c, s, arrivals);
            var q := (s.seq_ + 1) % U32_LIMIT;
            && t.ph == ServerFinished
            && out == Copies(Encode(c.serverOrder, Packet(FILE_EOF, q, [])), 1 + SilencesMet(c, s, q, arrivals, 10))
            && 1 <= 1 + SilencesMet(c, s, q, arrivals, 10) <= 11
  {
    hide ServerTurn, ServerRun, Copies;
    CloseStarts(c, s, arrivals);
    var t := ServerTurn(c, s, arrivals).0;
    EofIsRepeated(c, t, arrivals);
    SilencesOfTheSame(c, s, t, t.seq_, arrivals, 10);
  }

  lemma CloseStarts(c: Config, s: Server, arrivals: seq<Arrival>)
    requires ServerOk(s) && Framed(arrivals) && s.ph == EofCreate
    ensures var (t, out, rest) := ServerTurn(c, s, arrivals);
            && t.ph == EofSend && t.eofWaits == s.eofWaits && out == [] && rest == arrivals
            && t.seq_ == (s.seq_ + 1) % U32_LIMIT && t.buffsize == s.buffsize
            && t.sendPkt == Encode(c.serverOrder, Packet(FILE_EOF, (s.seq_ + 1) % U32_LIMIT, []))
            && ServerRun(c, s, arrivals) == ServerRun(c, t, arrivals)
  {
    hide Encode;
    var t := ServerTurn(c, s, arrivals).0;
    assert [] + ServerRun(c, t, arrivals).1 == ServerRun(c, t, arrivals).1;
  }

  /** The FILE_EOFs still to be sent: one now if it is about to be sent, and one for every silence to come. */
  function EofsToCome(c: Config, s: Server, arrivals: seq<Arrival>): nat
    requires Framed(arrivals)
  {
    match s.ph
    case EofSend => 1 + SilencesMet(c, s, s.seq_, arrivals, EofTriesLeft(s))
    case EofAwaitAck => SilencesMet(c, s, s.seq_, arrivals, EofTriesLeft(s))
    case EofTimeout => if EofTriesLeft(s) == 0 then 0 else 1 + SilencesMet(c, s, s.seq_, arrivals, EofTriesLeft(s) - 1)
    case _ => 0
  }

  lemma {:induction false} EofIsRepeated(c: Config, s: Server, arrivals: seq<Arrival>)
    requires ServerOk(s) && Framed(arrivals) && s.ph in {EofSend, EofAwaitAck, EofTimeout, ServerFinished}
    ensures var (t, out, _) := ServerRun(c, s, arrivals);
            t.ph == ServerFinished && out == Copies(s.sendPkt, EofsToCome(c, s, arrivals))
    decreases |arrivals|, EofTriesLeft(s), ServerRank(s)
  {
    hide ServerTurn, EofTriesLeft, ServerRank, EofsToCome;
    if s.ph == ServerFinished {
      RunStops(c, s, arrivals);
      NoEofsToCome(c, s, arrivals);
    } else {
      ServerTurnProgresses(c, s, arrivals);
      EofTurn(c, s, arrivals);
      var (t, out, rest) := ServerTurn(c, s, arrivals);
      EofIsRepeated(c, t, rest);
      var more := ServerRun(c, t, rest).1;
      assert out == [] ==> out + more == more;
    }
  }

  lemma NoEofsToCome(c: Config, s: Server, arrivals: seq<Arrival>)
    requires Framed(arrivals) && s.ph == ServerFinished
    ensures EofsToCome(c, s, arrivals) == 0
  {
  }

  /** One turn of the close, and what it takes off. */
  lemma EofTurn(c: Config, s: Server, arrivals: seq<Arrival>)
    requires ServerOk(s) && Framed(arrivals) && s.ph in {EofSend, EofAwaitAck, EofTimeout}
    ensures var (t, out, rest) := ServerTurn(c, s, arrivals);
            && t.ph in {EofSend, EofAwaitAck, EofTimeout, ServerFinished} && t.sendPkt == s.sendPkt
            && out == (if s.ph == EofSend then [s.sendPkt] else [])
            && EofsToCome(c, s, arrivals) == |out| + EofsToCome(c, t, rest)
  {
    hide Receive, Encode;
    var (t, out, rest) := ServerTurn(c, s, arrivals);
    SilencesOfTheSame(c, s, t, s.seq_, rest, EofTriesLeft(s));
    if s.ph == EofTimeout && EofTriesLeft(s) > 0 {
      SilencesOfTheSame(c, s, t, s.seq_, rest, EofTriesLeft(s) - 1);
    }
  }

  /** The reply to the name: FILE_NAME_ACK exactly when the file can be opened. */
  function NameReply(c: Config, s: Server): Wire {
    if s.name in c.files then Encode(c.serverOrder, Packet(FILE_NAME_ACK, s.seq_, []))
    else Encode(c.serverOrder, Packet(FILE_NAME_ERR_ACK, s.seq_, NetworkBytes(c.errno)))
  }

  function BeginReply(c: Config, s: Server): Wire {
    Encode(c.serverOrder, Packet(FILE_BEGIN_ACK, s.seq_, []))
  }

  function Copies(w: Wire, k: nat): seq<Wire> {
    if k == 0 then [] else [w] + Copies(w, k - 1)
  }

  lemma CopiesGrow(w: Wire, k: nat, tail: seq<Wire>)
    ensures Copies(w, 0) + tail == tail
    ensures [w] + (Copies(w, k) + tail) == Copies(w, k + 1) + tail
  {
  }

  /** What holds inside `file_name`. */
  predicate NamePhase(c: Config, s: Server) {
    && s.sender.None? && s.windowSize > 0
    && var file := if s.name in c.files then Some(c.files[s.name]) else None;
       match s.ph
       case OpenFile => true
       case GoodFile => s.name in c.files && s.file == file
       case BadFile => s.name !in c.files && s.file == file
       case SendNameAck => s.file == file && s.sendPkt == NameReply(c, s)
       case AwaitBegin => s.file == file
       case _ => false
  }

  predicate IsBegin(c: Config, s: Server, a: Arrival)
    requires a.Came? ==> |a.w| >= HDR_LEN
  {
    var p := Carried(c, s, a); p.Some? && p.value.seq_ == s.seq_ && p.value.flag == FILE_BEGIN
  }

  predicate AsksForName(c: Config, s: Server, a: Arrival)
    requires a.Came? ==> |a.w| >= HDR_LEN
  {
    var p := Carried(c, s, a); p.Some? && p.value.flag == FILE_NAME
  }

  /** A FILE_BEGIN comes before the first silence. */
  predicate BeginComes(c: Config, s: Server, arrivals: seq<Arrival>)
    requires Framed(arrivals)
    decreases arrivals
  {
    arrivals != [] && arrivals[0].Came? && (IsBegin(c, s, arrivals[0]) || BeginComes(c, s, arrivals[1..]))
  }

  /** How often FILE_NAME comes before that FILE_BEGIN, or before the first silence. */
  function NamesAsked(c: Config, s: Server, arrivals: seq<Arrival>): nat
    requires Framed(arrivals)
    decreases arrivals
  {
    if arrivals == [] || arrivals[0] == Silence || IsBegin(c, s, arrivals[0]) then 0
    else (if AsksForName(c, s, arrivals[0]) then 1 else 0) + NamesAsked(c, s, arrivals[1..])
  }

  lemma {:induction false} AskedOfTheSame(c: Config, s: Server, t: Server, arrivals: seq<Arrival>)
    requires Framed(arrivals) && t.buffsize == s.buffsize && t.seq_ == s.seq_
    ensures BeginComes(c, t, arrivals) == BeginComes(c, s, arrivals)
    ensures NamesAsked(c, t, arrivals) == NamesAsked(c, s, arrivals)
    decreases arrivals
  {
    if arrivals != [] {
      AskedOfTheSame(c, s, t, arrivals[1..]);
    }
  }

  /** `file_name`, whatever arrives: the name is answered the same way every time it is asked; the first
      FILE_BEGIN that comes before a silence is answered last, and then the whole file is transferred under the
      negotiated sizes if it was opened, and if it was not the server crashes. */
  lemma {:induction false} NameIsAnswered(c: Config, s: Server, arrivals: seq<Arrival>)
    requires ServerOk(s) && Framed(arrivals) && NamePhase(c, s)
    ensures var (t, out, _) := ServerRun(c, s, arrivals);
            var replies := NamesAsked(c, s, arrivals) + if s.ph == AwaitBegin then 0 else 1;
            && t.ph == (if !BeginComes(c, s, arrivals) then ServerFinished
                        else if s.name in c.files then Transferring else Crashed)
            && out == Copies(NameReply(c, s), replies)
                      + (if t.ph == ServerFinished then [] else [BeginReply(c, s)])
            && (t.ph == Transferring ==>
                  t.sender == Some(S.Start(s.windowSize, s.buffsize, c.files[s.name], c.serverOrder)))
    decreases |arrivals|, EofTriesLeft(s), ServerRank(s)
  {
    hide Encode, Receive, S.Start, NetworkBytes, ServerTurn, NameReply, BeginReply, IsBegin, AsksForName;
    hide EofTriesLeft, ServerRank, Copies;
    ServerTurnProgresses(c, s, arrivals);
    NamePhaseTurn(c, s, arrivals);
    var (t, out, rest) := ServerTurn(c, s, arrivals);
    if ServerStopped(t) {
      CopiesGrow(NameReply(c, s), 0, out);
      assert out == out + [];
    } else {
      NameIsAnswered(c, t, rest);
      AskedOfTheSame(c, s, t, rest);
      var more := ServerRun(c, t, rest).1;
      if out == [] {
        assert out + more == more;
      } else {
        CopiesGrow(NameReply(c, s), NamesAsked(c, s, rest),
                   if ServerRun(c, t, rest).0.ph == ServerFinished then [] else [BeginReply(c, s)]);
      }
    }
  }

  /** One turn inside `file_name`. */
  lemma NamePhaseTurn(c: Config, s: Server, arrivals: seq<Arrival>)
    requires ServerOk(s) && Framed(arrivals) && NamePhase(c, s)
    ensures var (t, out, rest) := ServerTurn(c, s, arrivals);
            && NameReply(c, t) == NameReply(c, s) && BeginReply(c, t) == BeginReply(c, s)
            && t.name == s.name && t.windowSize == s.windowSize && t.buffsize == s.buffsize && t.seq_ == s.seq_
            && rest == (if s.ph == AwaitBegin then Rest(arrivals) else arrivals)
            && if s.ph == AwaitBegin && (arrivals == [] || arrivals[0] == Silence) then
                 t.ph == ServerFinished && out == []
               else if s.ph == AwaitBegin && IsBegin(c, s, arrivals[0]) then
                 && t.ph == (if s.name in c.files then Transferring else Crashed)
                 && out == [BeginReply(c, s)]
                 && (t.ph == Transferring ==>
                       t.sender == Some(S.Start(s.windowSize, s.buffsize, c.files[s.name], c.serverOrder)))
               else
                 && NamePhase(c, t)
                 && out == (if s.ph == SendNameAck then [NameReply(c, s)] else [])
                 && (t.ph == AwaitBegin <==>
                       s.ph == SendNameAck || (s.ph == AwaitBegin && !AsksForName(c, s, arrivals[0])))
  {
    hide Encode, Receive, S.Start, NetworkBytes;
  }

  /** A request to begin, heard after the server has answered that there is no such file, crashes it. */
  lemma BeginWithoutFileCrashes(c: Config, s: Server)
    requires ServerOk(s) && NamePhase(c, s) && s.ph == OpenFile && s.name !in c.files && s.seq_ == CLIENT_SEQ
    ensures ServerRun(c, s, [Came(BeginRequest(c))]).0.ph == Crashed
    ensures ServerRun(c, s, [Came(BeginRequest(c))]).1 == [NameReply(c, s), BeginReply(c, s)]
  {
    hide Encode, ServerRun, NameReply, BeginReply;
    var arrivals := [Came(BeginRequest(c))];
    RoundTrip(c.clientOrder, c.serverOrder, Packet(FILE_BEGIN, CLIENT_SEQ, []));
    assert Truncate(arrivals[0].w, s.buffsize) == arrivals[0].w;
    assert IsBegin(c, s, arrivals[0]);
    NameIsAnswered(c, s, arrivals);
    CopiesGrow(NameReply(c, s), 0, [BeginReply(c, s)]);
    assert Copies(NameReply(c, s), 1) + [BeginReply(c, s)] == [NameReply(c, s), BeginReply(c, s)];
  }

  /** The request to begin, as rcopy sends it. */
  function BeginRequest(c: Config): Wire {
    Encode(c.clientOrder, Packet(FILE_BEGIN, CLIENT_SEQ, []))
  }

  /** A listening server goes on to serve a client exactly if it hears a FILE_NAME with room for both sizes, and
      takes the sizes from its first eight bytes, most significant first, and the name from those after. */
  lemma ServesIff(c: Config, s: Server, w: Wire)
    requires ServerOk(s) && s.ph == Listening && |w| >= HDR_LEN
    ensures var (t, out) := ServerHear(c, s, w);
            var p := Receive(c.serverOrder, Truncate(w, 1400));
            && out == []
            && (t.ph == OpenFile <==> p.Some? && p.value.flag == 6 && |p.value.data| >= 8)
            && (t.ph != OpenFile ==> t == s)
            && (t.ph == OpenFile ==>
                  var d := p.value.data;
                  && t.buffsize == 0x100_0000 * d[0] as int + 0x1_0000 * d[1] as int + 0x100 * d[2] as int + d[3] as int
                  && t.windowSize == 0x100_0000 * d[4] as int + 0x1_0000 * d[5] as int + 0x100 * d[6] as int + d[7] as int
                  && |t.name| <= |d[8..]| && t.name == d[8..8 + |t.name|] && NulFree(t.name)
                  && (8 + |t.name| < |d| ==> d[8 + |t.name|] == 0))
  {
    hide Receive, Truncate;
    var p := Receive(c.serverOrder, Truncate(w, MAX_BUFF_SIZE));
    if p.Some? && |p.value.data| >= 8 {
      CStringIsPrefix(p.value.data[8..]);
    }
  }

  // ---------- rcopy ----------

  predicate ClientStopped(k: Client) {
    k.ph in {Receiving, SendEofAck, ClientFinished}
  }

  predicate ClientWaits(k: Client) {
    k.ph == AwaitNameAck || k.ph == AwaitBeginAck
  }

  function ClientTurn(c: Config, k: Client, arrivals: seq<Arrival>): (r: (Client, seq<Wire>, seq<Arrival>))
    requires ClientOk(k) && Framed(arrivals) && !ClientStopped(k)
    ensures ClientOk(r.0) && Framed(r.2)
  {
    if ClientWaits(k) then
      (match First(arrivals)
       case Silence => (ClientTimeout(k), [], Rest(arrivals))
       case Came(w) => (ClientHear(c, k, w), [], Rest(arrivals)))
    else
      var (t, out) := ClientPass(c, k);
      (t, out, arrivals)
  }

  /** The loop of `wait_on_ack`. */
  function ClientAwait(c: Config, k: Client, arrivals: seq<Arrival>): (r: (Client, seq<Arrival>))
    requires ClientOk(k) && Framed(arrivals) && k.ph == AwaitNameAck
    ensures ClientOk(r.0) && Framed(r.1)
    decreases arrivals
  {
    var (t, _, rest) := ClientTurn(c, k, arrivals);
    if t.ph == k.ph && arrivals != [] then ClientAwait(c, t, rest) else (t, rest)
  }

  function ClientStage(k: Client): nat {
    match k.ph
    case SendBegin => 1
    case AwaitBeginAck => 1
    case Receiving => 0
    case SendEofAck => 0
    case ClientFinished => 0
    case _ => 2
  }

  function ClientTriesLeft(k: Client): nat {
    if ClientStage(k) == 2 then Max(MAX_TRIES - k.numWait, 0) else Max(MAX_TRIES - k.beginWaits, 0)
  }

  function ClientRank(k: Client): nat {
    match k.ph
    case OpenRemote => 4
    case OpenLocal => 3
    case SendInit => 2
    case AwaitNameAck => 1
    case SendBegin => if k.beginWaits >= MAX_TRIES then 1 else 3
    case AwaitBeginAck => 2
    case _ => 0
  }

  lemma ClientTurnProgresses(c: Config, k: Client, arrivals: seq<Arrival>)
    requires ClientOk(k) && Framed(arrivals) && !ClientStopped(k)
    ensures var (t, _, rest) := ClientTurn(c, k, arrivals);
            || |rest| < |arrivals|
            || (rest == arrivals && ClientStage(t) < ClientStage(k))
            || (rest == arrivals && ClientStage(t) == ClientStage(k) && ClientTriesLeft(t) < ClientTriesLeft(k))
            || (rest == arrivals && ClientStage(t) == ClientStage(k) && ClientTriesLeft(t) == ClientTriesLeft(k)
                && ClientRank(t) < ClientRank(k))
  {
    hide Receive, Encode;
  }

  /** From the first packet until rcopy receives or gives up. */
  function ClientRun(c: Config, k: Client, arrivals: seq<Arrival>): (r: (Client, seq<Wire>, seq<Arrival>))
    requires ClientOk(k) && Framed(arrivals)
    ensures ClientOk(r.0) && ClientStopped(r.0) && Framed(r.2)
    decreases |arrivals|, ClientStage(k), ClientTriesLeft(k), ClientRank(k)
  {
    if ClientStopped(k) then (k, [], arrivals)
    else
      ClientTurnProgresses(c, k, arrivals);
      var (t, out, rest) := ClientTurn(c, k, arrivals);
      var (u, more, left) := ClientRun(c, t, rest);
      (u, out + more, left)
  }

  lemma {:induction false} ClientAwaitIsRun(c: Config, k: Client, arrivals: seq<Arrival>)
    requires ClientOk(k) && Framed(arrivals) && k.ph == AwaitNameAck
    ensures var (t, rest) := ClientAwait(c, k, arrivals);
            && ClientRun(c, k, arrivals) == ClientRun(c, t, rest)
            && t.ph in {OpenRemote, NameAckTimeout} && t == k.(ph := t.ph)
            && (|rest| < |arrivals| || (rest == arrivals && t.ph == NameAckTimeout))
    decreases arrivals
  {
    hide Encode, Receive;
    var (t, out, rest) := ClientTurn(c, k, arrivals);
    assert out + ClientRun(c, t, rest).1 == ClientRun(c, t, rest).1;
    if t.ph == k.ph && arrivals != [] {
      ClientAwaitIsRun(c, t, rest);
    }
  }

  /** From one phase of `file_name` to the next: a whole wait, or one pass. */
  function ClientNext(c: Config, k: Client, arrivals: seq<Arrival>): (r: (Client, seq<Wire>, seq<Arrival>))
    requires ClientOk(k) && Framed(arrivals) && k.ph in {SendInit, AwaitNameAck, NameAckTimeout, OpenRemote, OpenLocal}
    ensures ClientOk(r.0) && Framed(r.2)
  {
    if k.ph == AwaitNameAck then var (t, rest) := ClientAwait(c, k, arrivals); (t, [], rest)
    else ClientTurn(c, k, arrivals)
  }

  lemma ClientRunUnfolds(c: Config, k: Client, arrivals: seq<Arrival>)
    requires ClientOk(k) && Framed(arrivals) && k.ph in {SendInit, AwaitNameAck, NameAckTimeout, OpenRemote, OpenLocal}
    ensures var (t, out, rest) := ClientNext(c, k, arrivals);
            var (u, more, left) := ClientRun(c, t, rest);
            && ClientRun(c, k, arrivals) == (u, out + more, left)
            && t.ph in {SendInit, AwaitNameAck, NameAckTimeout, OpenRemote, OpenLocal, SendBegin, ClientFinished}
            && (t.ph == SendBegin ==> t.beginWaits == 0)
            && t.receiver == k.receiver
            && (|rest| < |arrivals|
                || (rest == arrivals && ClientStage(t) < ClientStage(k))
                || (rest == arrivals && ClientStage(t) == ClientStage(k) && ClientTriesLeft(t) < ClientTriesLeft(k))
                || (rest == arrivals && ClientStage(t) == ClientStage(k) && ClientTriesLeft(t) == ClientTriesLeft(k)
                    && ClientRank(t) < ClientRank(k)))
  {
    hide Encode, Receive, ClientAwait;
    if k.ph == AwaitNameAck {
      ClientAwaitIsRun(c, k, arrivals);
      var (t, rest) := ClientAwait(c, k, arrivals);
      assert [] + ClientRun(c, t, rest).1 == ClientRun(c, t, rest).1;
    } else {
      ClientTurnProgresses(c, k, arrivals);
    }
  }

  /** What one request to begin leads to. */
  function BeginTurn(c: Config, k: Client, arrivals: seq<Arrival>): (t: Client)
    requires ClientOk(k) && Framed(arrivals) && k.ph == SendBegin
    ensures ClientOk(t)
  {
    ClientTurn(c, k.(ph := AwaitBeginAck), arrivals).0
  }

  lemma BeginUnfolds(c: Config, k: Client, arrivals: seq<Arrival>)
    requires ClientOk(k) && Framed(arrivals) && k.ph == SendBegin && k.beginWaits < MAX_TRIES
    ensures var t := BeginTurn(c, k, arrivals);
            var (u, more, left) := ClientRun(c, t, Rest(arrivals));
            ClientRun(c, k, arrivals) == (u, [BeginRequest(c)] + more, left)
  {
    hide Encode, Receive;
    var w := k.(ph := AwaitBeginAck);
    assert ClientTurn(c, k, arrivals) == (w, [BeginRequest(c)], arrivals);
    var (t, out, rest) := ClientTurn(c, w, arrivals);
    assert out + ClientRun(c, t, rest).1 == ClientRun(c, t, rest).1;
  }

  lemma BeginGivesUp(c: Config, k: Client, arrivals: seq<Arrival>)
    requires ClientOk(k) && Framed(arrivals) && k.ph == SendBegin && k.beginWaits >= MAX_TRIES
    ensures ClientRun(c, k, arrivals) == (k.(ph := ClientFinished), [], arrivals)
  {
    hide Encode, Receive;
    var t := k.(ph := ClientFinished);
    assert ClientTurn(c, k, arrivals) == (t, [], arrivals);
    ClientRunStops(c, t, arrivals);
    var none: seq<Wire> := [];
    assert none + none == none;
  }

  lemma ClientRunStops(c: Config, k: Client, arrivals: seq<Arrival>)
    requires ClientOk(k) && Framed(arrivals) && ClientStopped(k)
    ensures ClientRun(c, k, arrivals) == (k, [], arrivals)
  {
  }

  /** The datagrams among the arrivals. */
  function CameCount(arrivals: seq<Arrival>): nat {
    if arrivals == [] then 0 else (if arrivals[0].Came? then 1 else 0) + CameCount(arrivals[1..])
  }

  // ---------- what rcopy asks, and how often ----------

  /** The packet an arrival carries to rcopy, if it carries a good one. */
  function CarriedBack(c: Config, a: Arrival): Option<Packet>
    requires a.Came? ==> |a.w| >= HDR_LEN
  {
    if a.Came? then Receive(c.clientOrder, Truncate(a.w, c.buffsize)) else None
  }

  /** A good packet of one kind under rcopy's number. */
  predicate IsAck(c: Config, a: Arrival, flag: byte)
    requires a.Came? ==> |a.w| >= HDR_LEN
  {
    var p := CarriedBack(c, a); p.Some? && p.value.seq_ == 0 && p.value.flag == flag
  }

  predicate NameAckComes(c: Config, arrivals: seq<Arrival>)
    requires Framed(arrivals)
    decreases arrivals
  {
    arrivals != [] && (IsAck(c, arrivals[0], FILE_NAME_ACK) || NameAckComes(c, arrivals[1..]))
  }

  /** The silences before the first FILE_NAME_ACK. */
  function NameSilences(c: Config, arrivals: seq<Arrival>): nat
    requires Framed(arrivals)
    decreases arrivals
  {
    if arrivals == [] || IsAck(c, arrivals[0], FILE_NAME_ACK) then 0
    else (if arrivals[0] == Silence then 1 else 0) + NameSilences(c, arrivals[1..])
  }

  /** What comes after it. */
  function AfterNameAck(c: Config, arrivals: seq<Arrival>): (rest: seq<Arrival>)
    requires Framed(arrivals)
    ensures Framed(rest)
    decreases arrivals
  {
    if arrivals == [] then []
    else if IsAck(c, arrivals[0], FILE_NAME_ACK) then arrivals[1..] else AfterNameAck(c, arrivals[1..])
  }

  /** A FILE_NAME_ACK comes before more than `left` silences. */
  predicate NameInTime(c: Config, arrivals: seq<Arrival>, left: nat)
    requires Framed(arrivals)
  {
    NameAckComes(c, arrivals) && NameSilences(c, arrivals) <= left
  }

  /** How often FILE_NAME is sent again with `left` tries left. */
  function NamesAgain(c: Config, arrivals: seq<Arrival>, left: nat): nat
    requires Framed(arrivals)
  {
    if NameAckComes(c, arrivals) then Min(left, NameSilences(c, arrivals)) else left
  }

  /** How often FILE_BEGIN is sent when `left` silences are put up with: once at first and once more after every
      silence and every datagram that is not FILE_BEGIN_ACK. */
  function BeginsAsked(c: Config, arrivals: seq<Arrival>, left: nat): nat
    requires Framed(arrivals)
    decreases |arrivals|, left
  {
    if left == 0 then 0
    else if First(arrivals) == Silence then 1 + BeginsAsked(c, Rest(arrivals), left - 1)
    else if IsAck(c, arrivals[0], FILE_BEGIN_ACK) then 1 else 1 + BeginsAsked(c, arrivals[1..], left)
  }

  /** A FILE_BEGIN_ACK comes before `left` silences have. */
  predicate BeginInTime(c: Config, arrivals: seq<Arrival>, left: nat)
    requires Framed(arrivals)
    decreases arrivals
  {
    left > 0 && arrivals != []
    && if arrivals[0] == Silence then BeginInTime(c, arrivals[1..], left - 1)
       else IsAck(c, arrivals[0], FILE_BEGIN_ACK) || BeginInTime(c, arrivals[1..], left)
  }

  lemma {:induction false} BeginsAskedIsBounded(c: Config, arrivals: seq<Arrival>, left: nat)
    requires Framed(arrivals)
    ensures BeginsAsked(c, arrivals, left) <= left + CameCount(arrivals)
    decreases |arrivals|, left
  {
    hide IsAck;
    if left > 0 {
      if First(arrivals) == Silence {
        BeginsAskedIsBounded(c, Rest(arrivals), left - 1);
      } else {
        BeginsAskedIsBounded(c, arrivals[1..], left);
      }
    }
  }

  /** The tries a phase of the handshake has left. */
  function NameTries(k: Client): nat {
    Max(MAX_TRIES - k.numWait, 0)
  }

  function BeginTries(k: Client): nat {
    Max(MAX_TRIES - k.beginWaits, 0)
  }

  /** The requests to begin that a phase after the name was acknowledged still makes. */
  function BeginsToCome(c: Config, k: Client, arrivals: seq<Arrival>): nat
    requires Framed(arrivals)
  {
    match k.ph
    case SendBegin => BeginsAsked(c, arrivals, BeginTries(k))
    case AwaitBeginAck => if BeginTries(k) == 0 then 0 else BeginsAsked(c, arrivals, BeginTries(k)) - 1
    case OpenRemote => if c.localOpens then BeginsAsked(c, arrivals, MAX_TRIES) else 0
    case OpenLocal => if c.localOpens then BeginsAsked(c, arrivals, MAX_TRIES) else 0
    case _ => 0
  }

  predicate WillReceive(c: Config, k: Client, arrivals: seq<Arrival>)
    requires Framed(arrivals)
  {
    match k.ph
    case SendBegin => BeginInTime(c, arrivals, BeginTries(k))
    case AwaitBeginAck => BeginInTime(c, arrivals, BeginTries(k))
    case OpenRemote => c.localOpens && BeginInTime(c, arrivals, MAX_TRIES)
    case OpenLocal => c.localOpens && BeginInTime(c, arrivals, MAX_TRIES)
    case Receiving => true
    case _ => false
  }

  predicate BeginPhase(k: Client) {
    || k.ph in {OpenRemote, OpenLocal, SendBegin, Receiving, ClientFinished}
    || (k.ph == AwaitBeginAck && k.beginWaits < MAX_TRIES)
  }

  lemma BeginPhaseTurn(c: Config, k: Client, arrivals: seq<Arrival>)
    requires ClientOk(k) && Framed(arrivals) && BeginPhase(k) && !ClientStopped(k)
    ensures var (t, out, rest) := ClientTurn(c, k, arrivals);
            && BeginPhase(t)
            && (out == [] || out == [BeginRequest(c)])
            && BeginsToCome(c, k, arrivals) == |out| + BeginsToCome(c, t, rest)
            && WillReceive(c, k, arrivals) == WillReceive(c, t, rest)
  {
    hide Encode, Receive, R.Start, Truncate;
  }

  /** From the acknowledged name on. */
  lemma {:induction false} BeginsAreAsked(c: Config, k: Client, arrivals: seq<Arrival>)
    requires ClientOk(k) && Framed(arrivals) && BeginPhase(k)
    ensures var (t, out, _) := ClientRun(c, k, arrivals);
            && t.ph == (if WillReceive(c, k, arrivals) then Receiving else ClientFinished)
            && out == Copies(BeginRequest(c), BeginsToCome(c, k, arrivals))
    decreases |arrivals|, ClientStage(k), ClientTriesLeft(k), ClientRank(k)
  {
    hide ClientTurn, BeginRequest, ClientStage, ClientTriesLeft, ClientRank, BeginsAsked, BeginInTime;
    if ClientStopped(k) {
      ClientRunStops(c, k, arrivals);
    } else {
      ClientTurnProgresses(c, k, arrivals);
      BeginPhaseTurn(c, k, arrivals);
      var (t, out, rest) := ClientTurn(c, k, arrivals);
      BeginsAreAsked(c, t, rest);
      var more := ClientRun(c, t, rest).1;
      assert out == [] ==> out + more == more;
    }
  }

  /** The requests for the file that a phase before the name is acknowledged still makes. */
  function InitsToCome(c: Config, k: Client, arrivals: seq<Arrival>): nat
    requires Framed(arrivals)
  {
    match k.ph
    case SendInit => 1 + NamesAgain(c, arrivals, NameTries(k))
    case AwaitNameAck => NamesAgain(c, arrivals, NameTries(k))
    case NameAckTimeout => if NameTries(k) == 0 then 0 else 1 + NamesAgain(c, arrivals, NameTries(k) - 1)
    case _ => 0
  }

  predicate WillBeNamed(c: Config, k: Client, arrivals: seq<Arrival>)
    requires Framed(arrivals)
  {
    match k.ph
    case SendInit => NameInTime(c, arrivals, NameTries(k))
    case AwaitNameAck => NameInTime(c, arrivals, NameTries(k))
    case NameAckTimeout => NameTries(k) > 0 && NameInTime(c, arrivals, NameTries(k) - 1)
    case _ => false
  }

  predicate NamePhaseOfRcopy(k: Client) {
    k.ph in {SendInit, AwaitNameAck, NameAckTimeout}
  }

  /** One turn before the name is acknowledged. */
  lemma AskingTurn(c: Config, k: Client, arrivals: seq<Arrival>)
    requires ClientOk(k) && Framed(arrivals) && NamePhaseOfRcopy(k)
    ensures var (t, out, rest) := ClientTurn(c, k, arrivals);
            && (out == [] || out == [InitWire(c)])
            && InitsToCome(c, k, arrivals) == |out| + InitsToCome(c, t, rest)
            && if t.ph == OpenRemote then
                 out == [] && WillBeNamed(c, k, arrivals) && AfterNameAck(c, arrivals) == rest
               else if t.ph == ClientFinished then out == [] && !WillBeNamed(c, k, arrivals)
               else
                 && NamePhaseOfRcopy(t)
                 && WillBeNamed(c, k, arrivals) == WillBeNamed(c, t, rest)
                 && (WillBeNamed(c, k, arrivals) ==> AfterNameAck(c, arrivals) == AfterNameAck(c, rest))
  {
    hide Encode, Receive, Truncate, InitWire;
  }

  /** rcopy's handshake, whatever arrives: it asks for the file once and again for every silence before the first
      FILE_NAME_ACK, at most ten times again; and if that comes and the local file opens, it asks to begin until
      it is told to or has met with ten silences. */
  lemma {:induction false} HandshakeAsks(c: Config, k: Client, arrivals: seq<Arrival>)
    requires ClientOk(k) && Framed(arrivals) && NamePhaseOfRcopy(k)
    ensures var (t, out, _) := ClientRun(c, k, arrivals);
            var rest := AfterNameAck(c, arrivals);
            var goesOn := WillBeNamed(c, k, arrivals) && c.localOpens;
            && t.ph == (if goesOn && BeginInTime(c, rest, MAX_TRIES) then Receiving else ClientFinished)
            && out == Copies(InitWire(c), InitsToCome(c, k, arrivals))
                      + Copies(BeginRequest(c), if goesOn then BeginsAsked(c, rest, MAX_TRIES) else 0)
    decreases |arrivals|, ClientStage(k), ClientTriesLeft(k), ClientRank(k)
  {
    hide ClientTurn, InitWire, BeginRequest, ClientStage, ClientTriesLeft, ClientRank, BeginsAsked, BeginInTime;
    hide InitsToCome, WillBeNamed, AfterNameAck;
    ClientTurnProgresses(c, k, arrivals);
    AskingTurn(c, k, arrivals);
    var (t, out, rest) := ClientTurn(c, k, arrivals);
    var more := ClientRun(c, t, rest).1;
    if NamePhaseOfRcopy(t) {
      HandshakeAsks(c, t, rest);
      assert out == [] ==> out + more == more;
      var begins := Copies(BeginRequest(c), if WillBeNamed(c, k, arrivals) && c.localOpens
                                            then BeginsAsked(c, AfterNameAck(c, arrivals), MAX_TRIES) else 0);
      CopiesGrow(InitWire(c), InitsToCome(c, t, rest), begins);
    } else {
      NoInitsToCome(c, t, rest);
      BeginsAreAsked(c, t, rest);
      assert out + more == more;
      CopiesGrow(InitWire(c), 0, more);
    }
  }

  lemma NoInitsToCome(c: Config, k: Client, arrivals: seq<Arrival>)
    requires Framed(arrivals) && !NamePhaseOfRcopy(k)
    ensures InitsToCome(c, k, arrivals) == 0
  {
  }

  /** From the start of a session. */
  lemma WholeHandshakeIsBounded(c: Config, arrivals: seq<Arrival>) returns (inits: nat, begins: nat)
    requires Framed(arrivals)
    ensures var (t, out, _) := ClientRun(c, ClientStart(), arrivals);
            var rest := AfterNameAck(c, arrivals);
            var goesOn := NameInTime(c, arrivals, 10) && c.localOpens;
            && t.ph == (if goesOn && BeginInTime(c, rest, 10) then Receiving else ClientFinished)
            && out == Copies(InitWire(c), inits) + Copies(BeginRequest(c), begins)
            && inits == 1 + NamesAgain(c, arrivals, 10) <= 11
            && begins == (if goesOn then BeginsAsked(c, rest, 10) else 0) <= 10 + CameCount(rest)
  {
    hide ClientRun, InitWire, BeginRequest, Copies;
    HandshakeAsks(c, ClientStart(), arrivals);
    var rest := AfterNameAck(c, arrivals);
    BeginsAskedIsBounded(c, rest, 10);
    inits := 1 + NamesAgain(c, arrivals, 10);
    begins := if NameInTime(c, arrivals, 10) && c.localOpens then BeginsAsked(c, rest, 10) else 0;
  }
}
