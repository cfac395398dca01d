/** One whole session: rcopy, one server child, and a network that may lose, repeat, delay, reorder and
    damage datagrams. */
module Session {
  import opened Bytes
  import opened Checksum
  import opened Codec
  import opened InitPayload
  import S = Sender
  import R = Receiver

  const MAX_BUFF_SIZE: nat := 1400

  /** What is fixed for a session: rcopy's arguments, the server's files, whether the local file can be
      opened, the byte orders, the errno of a failed `fopen`, and the first contents of rcopy's receive
      buffer. */
  datatype Config = Config(
    buffsize: u32,
    windowSize: positive,
    name: seq<byte>,
    files: map<seq<byte>, seq<byte>>,
    localOpens: bool,
    serverOrder: Order,
    clientOrder: Order,
    errno: u32,
    scratch: seq<byte>)

  // ---------- the server ----------

  datatype ServerPhase =
    | Listening
    | OpenFile
    | GoodFile
    | BadFile
    | SendNameAck
    | AwaitBegin
    | Transferring
    | EofCreate
    | EofSend
    | EofAwaitAck
    | EofTimeout
    | ServerFinished
    | Restarted
    | Crashed

  /** `file` is the file behind `fp`, if any; `sendPkt` the datagram in the send buffer. */
  datatype Server = Server(
    ph: ServerPhase,
    buffsize: u32,
    windowSize: u32,
    name: seq<byte>,
    file: Option<seq<byte>>,
    sendPkt: Wire,
    seq_: u32,
    sender: Option<S.Sender>,
    eofWaits: nat)

  function ServerStart(): Server {
    Server(Listening, 0, 0, [], None, [], 0, None, 0)
  }

  ghost predicate ServerOk(s: Server) {
    s.sender.Some? ==> S.WellFormed(s.sender.value)
  }

  /** One pass of the server in a state that does not wait. */
  function ServerPass(c: Config, s: Server): (r: (Server, seq<Wire>))
    requires ServerOk(s)
    ensures ServerOk(r.0)
  {
    match s.ph
    case OpenFile =>
      if s.name in c.files then (s.(file := Some(c.files[s.name]), ph := GoodFile), [])
      else (s.(file := None, ph := BadFile), [])
    case GoodFile =>
      (s.(sendPkt := Encode(c.serverOrder, Packet(FILE_NAME_ACK, s.seq_, [])), ph := SendNameAck), [])
    case BadFile =>
      (s.(sendPkt := Encode(c.serverOrder, Packet(FILE_NAME_ERR_ACK, s.seq_, NetworkBytes(c.errno))),
          ph := SendNameAck), [])
    case SendNameAck => (s.(ph := AwaitBegin), [s.sendPkt])
    case Transferring =>
      if s.sender.None? then (s, [])
      else
        (match s.sender.value.st
         case SDone => (s.(ph := EofCreate), [])
         case SFileName => (s.(ph := Restarted), [])
         case SFinish => (s.(ph := ServerFinished), [])
         case _ => var (t, out) := S.Pass(s.sender.value); (s.(sender := Some(t)), out))
    case EofCreate =>
      var q := (s.seq_ + 1) % U32_LIMIT;
      (s.(seq_ := q, sendPkt := Encode(c.serverOrder, Packet(FILE_EOF, q, [])), ph := EofSend), [])
    case EofSend => (s.(ph := EofAwaitAck), [s.sendPkt])
    case EofTimeout =>
      if s.eofWaits >= MAX_TRIES then (s.(ph := ServerFinished), [])
      else (s.(eofWaits := s.eofWaits + 1, ph := EofSend), [])
    case _ => (s, [])
  }

  /** The server hears the datagram `w`, if it is waiting for one. */
  function ServerHear(c: Config, s: Server, w: Wire): (r: (Server, seq<Wire>))
    requires ServerOk(s) && |w| >= HDR_LEN
    ensures ServerOk(r.0)
  {
    match s.ph
    case Listening =>
      (match Receive(c.serverOrder, Truncate(w, MAX_BUFF_SIZE))
       case Some(p) =>
         if p.flag == FILE_NAME && |p.data| >= DATA_FILENAME_OFF then
           (s.(buffsize := GetBuffsize(p.data), windowSize := GetWindowSize(p.data), name := GetFilename(p.data),
               ph := OpenFile), [])
         else (s, [])
       case None => (s, []))
    case AwaitBegin =>
      (match Receive(c.serverOrder, Truncate(w, s.buffsize))
       case Some(p) =>
         if p.seq_ == s.seq_ && p.flag == FILE_BEGIN then
           var ack := Encode(c.serverOrder, Packet(FILE_BEGIN_ACK, s.seq_, []));
           (BeginTransfer(c, s.(sendPkt := ack)), [ack])
         else if p.flag == FILE_NAME then (s.(ph := OpenFile), [])
         else (s, [])
       case None => (s, []))
    case Transferring =>
      if s.sender.None? || s.sender.value.st != S.SWaitOnResponse then (s, [])
      else (s.(sender := Some(S.Respond(s.sender.value, Receive(c.serverOrder, Truncate(w, s.buffsize))))), [])
    case EofAwaitAck =>
      (match Receive(c.serverOrder, Truncate(w, s.buffsize))
       case Some(p) => if p.seq_ == s.seq_ then (s.(ph := ServerFinished), []) else (s, [])
       case None => (s, []))
    case _ => (s, [])
  }

  /** `file_transfer` is entered.  Without an open file its first read would go through a null pointer. */
  function BeginTransfer(c: Config, s: Server): (r: Server)
    requires ServerOk(s)
    ensures ServerOk(r) && r.eofWaits == s.eofWaits
    ensures r.ph == Transferring || (r.ph == Crashed && r.sender == s.sender)
  {
    if s.file.None? || s.windowSize == 0 then s.(ph := Crashed)
    else s.(sender := Some(S.Start(s.windowSize, s.buffsize, s.file.value, c.serverOrder)), ph := Transferring)
  }

  function ServerTimeout(s: Server): (r: Server)
    requires ServerOk(s)
    ensures ServerOk(r)
  {
    match s.ph
    case AwaitBegin => s.(ph := ServerFinished)
    case Transferring =>
      if s.sender.None? || s.sender.value.st != S.SWaitOnResponse then s
      else s.(sender := Some(s.sender.value.(st := S.STimeoutOnResponse)))
    case EofAwaitAck => s.(ph := EofTimeout)
    case _ => s
  }

  // ---------- rcopy ----------

  datatype ClientPhase =
    | SendInit
    | AwaitNameAck
    | NameAckTimeout
    | OpenRemote
    | OpenLocal
    | SendBegin
    | AwaitBeginAck
    | Receiving
    | SendEofAck
    | ClientFinished

  datatype Client = Client(
    ph: ClientPhase,
    numWait: nat,
    beginWaits: nat,
    receiver: Option<R.Receiver>)

  const CLIENT_SEQ: u32 := 0

  function ClientStart(): Client {
    Client(SendInit, 0, 0, None)
  }

  ghost predicate ClientOk(k: Client) {
    k.receiver.Some? ==> R.WellFormed(k.receiver.value)
  }

  function InitWire(c: Config): Wire {
    Encode(c.clientOrder, Packet(FILE_NAME, CLIENT_SEQ, InitData(c.buffsize, c.windowSize, c.name)))
  }

  /** One pass of rcopy in a state that does not wait. */
  function ClientPass(c: Config, k: Client): (r: (Client, seq<Wire>))
    requires ClientOk(k)
    ensures ClientOk(r.0)
  {
    match k.ph
    case SendInit => (k.(ph := AwaitNameAck), [InitWire(c)])
    case NameAckTimeout =>
      if k.numWait >= MAX_TRIES then (k.(ph := ClientFinished), [])
      else (k.(numWait := k.numWait + 1, ph := SendInit), [])
    case OpenRemote => (k.(ph := OpenLocal), [])
    case OpenLocal => (k.(beginWaits := 0, ph := if c.localOpens then SendBegin else ClientFinished), [])
    case SendBegin =>
      if k.beginWaits >= MAX_TRIES then (k.(ph := ClientFinished), [])
      else (k.(ph := AwaitBeginAck), [Encode(c.clientOrder, Packet(FILE_BEGIN, CLIENT_SEQ, []))])
    case Receiving =>
      if k.receiver.None? then (k, [])
      else
        (match k.receiver.value.st
         case CDone => (k.(ph := SendEofAck), [])
         case CFinish => (k.(ph := ClientFinished), [])
         case _ => var (t, out) := R.Pass(k.receiver.value); (k.(receiver := Some(t)), out))
    case SendEofAck =>
      if k.receiver.None? then (k, [])
      else (k.(ph := ClientFinished), [R.ControlWire(c.clientOrder, FILE_EOF_ACK, k.receiver.value.seq_)])
    case _ => (k, [])
  }

  /** rcopy hears the datagram `w`, if it is waiting for one. */
  function ClientHear(c: Config, k: Client, w: Wire): (r: Client)
    requires ClientOk(k) && |w| >= HDR_LEN
    ensures ClientOk(r)
  {
    match k.ph
    case AwaitNameAck =>
      (match Receive(c.clientOrder, Truncate(w, c.buffsize))
       case Some(p) => if p.seq_ == CLIENT_SEQ && p.flag == FILE_NAME_ACK then k.(ph := OpenRemote) else k
       case None => k)
    case AwaitBeginAck =>
      (match Receive(c.clientOrder, Truncate(w, c.buffsize))
       case Some(p) =>
         if p.seq_ == CLIENT_SEQ && p.flag == FILE_BEGIN_ACK then
           k.(receiver := Some(R.Start(c.windowSize, c.scratch, c.clientOrder)), ph := Receiving)
         else k.(ph := SendBegin)
       case None => k.(ph := SendBegin))
    case Receiving =>
      if k.receiver.None? || k.receiver.value.st != R.CWaitOnData then k
      else k.(receiver := Some(R.Hear(k.receiver.value, w)))
    case _ => k
  }

  function ClientTimeout(k: Client): (r: Client)
    requires ClientOk(k)
    ensures ClientOk(r)
  {
    match k.ph
    case AwaitNameAck => k.(ph := NameAckTimeout)
    case AwaitBeginAck => k.(beginWaits := k.beginWaits + 1, ph := SendBegin)
    case Receiving =>
      if k.receiver.None? || k.receiver.value.st != R.CWaitOnData then k
      else k.(receiver := Some(k.receiver.value.(st := R.CTimeoutOnData)))
    case _ => k
  }

  // ---------- the two together ----------

  /** `toClient` and `toServer` are all the datagrams the server and rcopy have sent so far. */
  datatype State = State(server: Server, client: Client, toClient: seq<Wire>, toServer: seq<Wire>)

  datatype Event =
    | ServerPasses
    | ServerHears(w: Wire)
    | ServerTimesOut
    | ClientPasses
    | ClientHears(w: Wire)
    | ClientTimesOut

  function Initial(): State {
    State(ServerStart(), ClientStart(), [], [])
  }

  ghost predicate StateOk(s: State) {
    ServerOk(s.server) && ClientOk(s.client)
  }

  /** What damage may leave of a datagram that was sent: anything that does not check out, no longer than it
      was.  Which host looks does not matter, by `Checksum.PassingIsOrderFree`. */
  ghost predicate Damaged(w: Wire, sent: seq<Wire>) {
    InCksum(Big, w) != 0 && exists v :: v in sent && |w| <= |v|
  }

  /** The network delivers any datagram sent so far, as it was or damaged. */
  ghost predicate Arrives(w: Wire, sent: seq<Wire>) {
    |w| >= HDR_LEN && (w in sent || Damaged(w, sent))
  }

  ghost predicate Enabled(s: State, e: Event) {
    match e
    case ServerHears(w) => Arrives(w, s.toServer)
    case ClientHears(w) => Arrives(w, s.toClient)
    case _ => true
  }

  ghost function Next(c: Config, s: State, e: Event): (t: State)
    requires StateOk(s) && Enabled(s, e)
    ensures StateOk(t)
  {
    match e
    case ServerPasses =>
      var (v, out) := ServerPass(c, s.server);
      s.(server := v, toClient := s.toClient + out)
    case ServerHears(w) =>
      var (v, out) := ServerHear(c, s.server, w);
      s.(server := v, toClient := s.toClient + out)
    case ServerTimesOut => s.(server := ServerTimeout(s.server))
    case ClientPasses =>
      var (k, out) := ClientPass(c, s.client);
      s.(client := k, toServer := s.toServer + out)
    case ClientHears(w) => s.(client := ClientHear(c, s.client, w))
    case ClientTimesOut => s.(client := ClientTimeout(s.client))
  }

  /** A run is a sequence of events each of which is possible when it happens. */
  ghost predicate Legal(c: Config, s: State, es: seq<Event>)
    requires StateOk(s)
    decreases es
  {
    es == [] || (Enabled(s, es[0]) && Legal(c, Next(c, s, es[0]), es[1..]))
  }

  ghost function Exec(c: Config, s: State, es: seq<Event>): (t: State)
    requires StateOk(s) && Legal(c, s, es)
    ensures StateOk(t)
    decreases es
  {
    if es == [] then s else Exec(c, Next(c, s, es[0]), es[1..])
  }
}
