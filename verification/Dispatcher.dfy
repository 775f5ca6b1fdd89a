// The dispatcher as a state machine on values: what processMsg and the CONNECT and exit
// handlers do to the sessions, to the connections and to the cluster channel.
module Dispatcher {
  import opened MqttTypes

  // Values of PubStatus: the acknowledgement a packet identifier is waiting for.
  datatype Status = WaitPuback | WaitPubrec | WaitPubrel | WaitPubcomp

  // What the dispatcher and the login handler write to a connection.
  datatype Packet =
    | ConnackPkt
    | PublishPkt(m: Publish)
    | PubrelPkt(id: uint16)
    | PubcompPkt(id: uint16)

  // One call of conn.Write: all packets that are in the buffer at that moment.
  type Write = seq<Packet>

  // Two readings of a write: all its packets, as the program sends them; or the last one, which is the
  // client's own, as the program means them (only the PUBLISH loop puts others before it).
  datatype Reading = AsWritten | AsIntended

  function PacketsOf(view: Reading, w: Write): seq<Packet> {
    if view == AsWritten || w == [] then w else [w[|w| - 1]]
  }

  /** MqttClientInfo. `out` logs what the dispatcher and the login handler write to the client's connections;
      a write to a connection that is closed is logged too, and reaches nobody. */
  datatype Session = Session(
    clientId: ClientId,
    clear: bool,
    online: bool,
    subs: map<GoString, byte>,
    status: map<uint16, Status>,
    offline: seq<Publish>,
    cache: map<uint16, Publish>,
    out: seq<Write>)

  // What is sent on Cluster_Ch.
  datatype ClusterMsg =
    | LoginMsg(c: ClientId)
    | PublicMsg(m: Publish)
    | ClientInfoMsg(info: ClientInfo, to: GoString)

  /** The clients map, and the log of what was sent on the cluster channel. */
  datatype Broker = Broker(sessions: map<ClientId, Session>, clusterOut: seq<ClusterMsg>)

  datatype Event =
    | Add(c: ClientId, clear: bool)
    | GoOffline(c: ClientId)
    | Del(c: ClientId)
    | Sub(c: ClientId, filters: seq<Filter>)
    | Unsub(c: ClientId, topics: seq<GoString>)
    | Pub(c: ClientId, m: Publish)
    | Forward(c: ClientId, m: Publish)
    | Puback(c: ClientId, id: uint16)
    | Pubrec(c: ClientId, id: uint16)
    | Pubrel(c: ClientId, id: uint16)
    | Pubcomp(c: ClientId, id: uint16)
    | ClusterPub(m: Publish)
    | ClusterLogin(c: ClientId, from: GoString)
    | ClusterLoginInfo(info: ClientInfo)

  /** What the run time decides: the identifier each session draws, and the map iteration order. */
  datatype Oracle = Oracle(pick: map<ClientId, uint16>, order: seq<ClientId>)

  datatype Choice = Choice(e: Event, o: Oracle)

  // Crashed is a nil dereference: the Go program ends.
  datatype Outcome = Running(b: Broker) | Crashed

  const ID_RANGE := 62  // len(asciiCode)

  const INIT := Broker(map[], [])

  function FreshSession(c: ClientId): Session {
    Session(c, false, false, map[], map[], [], map[], [])
  }

  // ---- subscriptions ----

  function LastWins(subs: map<GoString, byte>, filters: seq<Filter>): map<GoString, byte> {
    if filters == [] then subs
    else
      var n := |filters| - 1;
      LastWins(subs, filters[..n])[filters[n].topic := filters[n].qos]
  }

  function Without(subs: map<GoString, byte>, topics: seq<GoString>): map<GoString, byte> {
    map t | t in subs && t !in topics :: subs[t]
  }

  // ---- replay of queued messages ----

  function ReplayStatus(status: map<uint16, Status>, msgs: seq<Publish>): map<uint16, Status> {
    if msgs == [] then status
    else
      var n := |msgs| - 1;
      var before := ReplayStatus(status, msgs[..n]);
      if msgs[n].qos == 2 then before[msgs[n].packetId := WaitPubrec] else before
  }

  function Singles(msgs: seq<Publish>): seq<Write> {
    if msgs == [] then []
    else
      var n := |msgs| - 1;
      Singles(msgs[..n]) + [[PublishPkt(msgs[n])]]
  }

  function Replay(s: Session, msgs: seq<Publish>): Session {
    s.(status := ReplayStatus(s.status, msgs), out := s.out + Singles(msgs))
  }

  function Login(s: Session, c: ClientId, clear: bool): Session {
    Replay(s.(clientId := c, clear := clear, online := true, out := s.out + [[ConnackPkt]]), s.offline)
      .(offline := [])
  }

  // ---- one session receives one message ----

  function Enqueue(s: Session, m: Publish): Session {
    s.(offline := s.offline + [m])
  }

  function SendQos0(s: Session, m: Publish, lead: Write): Session {
    s.(out := s.out + [lead + [PublishPkt(m)]])
  }

  function SendQos1(s: Session, m: Publish, lead: Write): Session {
    SendQos0(s, m, lead).(status := s.status[m.packetId := WaitPuback])
  }

  function SendQos2(s: Session, m: Publish): Session {
    SendQos0(s, m, []).(status := s.status[m.packetId := WaitPubrec], cache := s.cache[m.packetId := m])
  }

  // The three loops over the clients map: on PUBLISH, on PUBREL, on a publish of another node.
  datatype Path = FromPublish | FromPubrel | FromCluster

  // `lead` is what the write buffer already holds.
  function Receive(path: Path, s: Session, m: Publish, lead: Write): Session {
    if m.topic !in s.subs then s
    else match path
      case FromPublish =>
        if s.online then
          if m.qos == 1 then SendQos1(s, m, lead)
          else if m.qos == 0 then SendQos0(s, m, lead)
          else s
        else if m.qos == 1 then Enqueue(s, m) else s
      case FromPubrel =>
        if s.online then SendQos2(s, m) else Enqueue(s, m)
      case FromCluster =>
        if s.online then
          if m.qos == 0 then SendQos0(s, m, [])
          else if m.qos == 1 then SendQos1(s, m, [])
          else if m.qos == 2 then SendQos2(s, m)
          else s
        else if m.qos >= 1 then Enqueue(s, m) else s
  }

  // ---- fan-out ----

  /** A fan-out about to start: the sessions it runs over, the message, and the loop it is in. */
  datatype FanOut = FanOut(sessions: map<ClientId, Session>, m: Publish, path: Path)
  {
    predicate Matches(c: ClientId) {
      c in sessions && m.topic in sessions[c].subs
    }

    // The clients the PUBLISH loop writes to.
    predicate Written(c: ClientId) {
      Matches(c) && sessions[c].online && (m.qos == 0 || m.qos == 1)
    }

    // The copy of the message addressed to client c.
    function Copy(pick: map<ClientId, uint16>, c: ClientId): Publish {
      if c in pick then m.WithId(pick[c]) else m
    }

    // The PUBLISH loop's one write buffer after visiting `order`: it is never emptied.
    function Buffer(pick: map<ClientId, uint16>, order: seq<ClientId>): Write {
      if order == [] then []
      else
        var n := |order| - 1;
        Buffer(pick, order[..n]) + (if Written(order[n]) then [PublishPkt(Copy(pick, order[n]))] else [])
    }

    function Lead(o: Oracle, c: ClientId): Write {
      if path == FromPublish then Buffer(o.pick, Before(o.order, c)) else []
    }

    function Spread(o: Oracle): map<ClientId, Session> {
      map c | c in sessions :: Receive(path, sessions[c], Copy(o.pick, c), Lead(o, c))
    }

    // The loop variable after the loop: it keeps the identifier drawn for the last match.
    function LastCopy(pick: map<ClientId, uint16>, order: seq<ClientId>): Publish {
      if order == [] then m
      else
        var n := |order| - 1;
        if Matches(order[n]) then Copy(pick, order[n]) else LastCopy(pick, order[..n])
    }

    ghost predicate ValidOracle(o: Oracle) {
      && Permutes(o.order, sessions.Keys)
      && forall c | Matches(c) :: c in o.pick && CanDraw(sessions[c], o.pick[c])
    }
  }

  // Identifiers the allocator can return for s.
  predicate CanDraw(s: Session, id: uint16) {
    id < ID_RANGE && id !in s.status
  }

  ghost predicate Permutes(order: seq<ClientId>, keys: set<ClientId>) {
    && (forall c :: c in order <==> c in keys)
    && (forall i, j :: 0 <= i < j < |order| ==> order[i] != order[j])
  }

  function Before(order: seq<ClientId>, c: ClientId): seq<ClientId> {
    if order == [] || order[0] == c then [] else [order[0]] + Before(order[1..], c)
  }

  function WithSession(b: Broker, c: ClientId, s: Session): Broker {
    b.(sessions := b.sessions[c := s])
  }

  function Waits(b: Broker, c: ClientId, id: uint16, st: Status): (r: bool) {
    c in b.sessions && id in b.sessions[c].status && b.sessions[c].status[id] == st
  }

  function Store(s: Session, m: Publish): Session {
    s.(status := s.status[m.packetId := WaitPubrel], cache := s.cache[m.packetId := m])
  }

  function Release(s: Session, id: uint16): Session {
    s.(status := s.status - {id}, out := s.out + [[PubcompPkt(id)]])
  }

  function FanOutOf(b: Broker, e: Event): Option<FanOut> {
    match e
    case Pub(c, m) =>
      if c !in b.sessions then None
      else if m.qos == 2 then Some(FanOut(b.sessions[c := Store(b.sessions[c], m)], m, FromPublish))
      else Some(FanOut(b.sessions, m, FromPublish))
    case Pubrel(c, id) =>
      if Waits(b, c, id, WaitPubrel) && id in b.sessions[c].cache then
        Some(FanOut(b.sessions[c := Release(b.sessions[c], id)], b.sessions[c].cache[id], FromPubrel))
      else None
    case ClusterPub(m) => Some(FanOut(b.sessions, m, FromCluster))
    case _ => None
  }

  // The run time's choices fit the event: an order of the clients map, and free identifiers.
  ghost predicate Valid(b: Broker, ch: Choice) {
    match FanOutOf(b, ch.e)
    case None => true
    case Some(f) => f.ValidOracle(ch.o)
  }

  function Step(b: Broker, ch: Choice): Outcome {
    match FanOutOf(b, ch.e)
    case Some(f) =>
      Running(Broker(f.Spread(ch.o),
                     if ch.e.Pubrel? then b.clusterOut + [PublicMsg(f.LastCopy(ch.o.pick, ch.o.order))]
                     else b.clusterOut))
    case None =>
      match ch.e
      case Add(c, clear) =>
        var s := if c in b.sessions then b.sessions[c] else FreshSession(c);
        Running(Broker(b.sessions[c := Login(s, c, clear)], b.clusterOut + [LoginMsg(c)]))
      case GoOffline(c) =>
        if c in b.sessions then Running(WithSession(b, c, b.sessions[c].(online := false))) else Running(b)
      case Del(c) =>
        Running(b.(sessions := b.sessions - {c}))
      case Sub(c, filters) =>
        if c in b.sessions then
          Running(WithSession(b, c, b.sessions[c].(subs := LastWins(b.sessions[c].subs, filters))))
        else Running(b)
      case Unsub(c, topics) =>
        if c in b.sessions then
          Running(WithSession(b, c, b.sessions[c].(subs := Without(b.sessions[c].subs, topics))))
        else Running(b)
      case Forward(c, m) =>
        Running(b.(clusterOut := b.clusterOut + [PublicMsg(m)]))
      case Puback(c, id) =>
        if Waits(b, c, id, WaitPuback) then
          Running(WithSession(b, c, b.sessions[c].(status := b.sessions[c].status - {id})))
        else Running(b)
      case Pubrec(c, id) =>
        if Waits(b, c, id, WaitPubrec) then
          var s := b.sessions[c];
          Running(WithSession(b, c, s.(status := s.status[id := WaitPubcomp], out := s.out + [[PubrelPkt(id)]])))
        else Running(b)
      case Pubrel(c, id) =>
        if Waits(b, c, id, WaitPubrel) then Running(WithSession(b, c, Release(b.sessions[c], id)))
        else Running(b)
      case Pubcomp(c, id) =>
        if c !in b.sessions then Crashed
        else if Waits(b, c, id, WaitPubcomp) then
          var s := b.sessions[c];
          Running(WithSession(b, c, s.(status := s.status - {id}, cache := s.cache - {id})))
        else Running(b)
      case ClusterLogin(c, from) =>
        if c in b.sessions then
          var s := b.sessions[c];
          Running(Broker(b.sessions - {c},
                         b.clusterOut + [ClientInfoMsg(ClientInfo(c, s.subs, s.offline), from)]))
        else Running(b)
      case ClusterLoginInfo(info) =>
        if info.clientId in b.sessions then
          var s := Replay(b.sessions[info.clientId], info.offline);
          Running(WithSession(b, info.clientId, s.(subs := s.subs + info.subs)))
        else Running(b)
      case _ => Running(b)
  }

  /** A run: the choices made and the states passed through. */
  datatype Run = Run(states: seq<Broker>, steps: seq<Choice>)
  {
    ghost predicate IsRun() {
      && |states| == |steps| + 1
      && states[0] == INIT
      && forall k :: 0 <= k < |steps| ==> Valid(states[k], steps[k]) && Step(states[k], steps[k]) == Running(states[k + 1])
    }
  }
}
