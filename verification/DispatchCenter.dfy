// The dispatcher as the program has it: objects whose maps and queues are updated in place by loops
// over the clients map. Every method is proved against the step function of module Dispatcher.
module DispatchCenter {
  import opened MqttTypes
  import opened Dispatcher

  // For steps without a fan-out the run time decides nothing.
  const IDLE := Oracle(map[], [])

  // GeneralPacketID draws from 0..61; `draws` is the stream of its results.
  predicate Draws(draws: seq<uint16>) {
    forall i :: 0 <= i < |draws| ==> draws[i] < ID_RANGE
  }

  // Drawing from the stream ends: some identifier in it is free.
  ghost predicate SomeFree(draws: seq<uint16>, status: map<uint16, Status>) {
    exists i :: 0 <= i < |draws| && draws[i] !in status
  }

  // The identifiers of the allocator's range that are taken.
  function Taken(status: map<uint16, Status>): set<uint16> {
    set id | id in status && id < ID_RANGE
  }

  function FirstIds(n: uint16): (ids: set<uint16>)
    ensures |ids| == n && forall id: uint16 :: id in ids <==> id < n
  {
    if n == 0 then {} else FirstIds(n - 1) + {n - 1}
  }

  lemma SubsetIsSmaller(a: set<uint16>, b: set<uint16>)
    requires a <= b
    ensures |a| <= |b| && (|a| == |b| ==> a == b)
  {
    assert b == a + (b - a) && |b| == |a| + |b - a|;
    if |a| == |b| {
      assert b - a == {};
    }
  }

  lemma SomeDrawIff(status: map<uint16, Status>)
    ensures (exists draws :: Draws(draws) && SomeFree(draws, status)) <==> Taken(status) != FirstIds(ID_RANGE)
  {
    if Taken(status) != FirstIds(ID_RANGE) {
      var id :| id in FirstIds(ID_RANGE) && id !in Taken(status);
      var draws := [id];
      assert draws[0] !in status;
      assert Draws(draws) && SomeFree(draws, status);
    } else {
      forall draws | Draws(draws) ensures !SomeFree(draws, status) {
        forall i | 0 <= i < |draws| ensures draws[i] in status {
          assert draws[i] in FirstIds(ID_RANGE);
        }
      }
    }
  }

  /** The allocator can return if and only if fewer than 62 identifiers of its range are taken; with all
      62 taken it draws for ever. */
  lemma AllocatorReturnsIff(status: map<uint16, Status>)
    ensures (exists draws :: Draws(draws) && SomeFree(draws, status)) <==> |set id | id in status && id < 62| < 62
  {
    assert Taken(status) == set id | id in status && id < 62;
    hide Draws, SomeFree;
    SomeDrawIff(status);
    SubsetIsSmaller(Taken(status), FirstIds(ID_RANGE));
  }

  // Every allocation of the fan-out ends. (If all 62 identifiers of a session are taken, the
  // program draws for ever.)
  ghost predicate FanOutDraws(f: FanOut, draws: map<ClientId, seq<uint16>>) {
    forall c :: f.Matches(c) ==> c in draws && Draws(draws[c]) && SomeFree(draws[c], f.sessions[c].status)
  }

  ghost predicate DrawsSuffice(b: Broker, e: Event, draws: map<ClientId, seq<uint16>>) {
    match FanOutOf(b, e)
    case None => true
    case Some(f) => FanOutDraws(f, draws)
  }

  // What a client's own goroutine answers to its PUBLISH.
  datatype PublishAck = SendPuback(id: uint16) | SendPubrec(id: uint16)

  class MqttClientInfo {
    var ClientId: ClientId
    var clearSession: bool
    var LoginSuccess: bool
    var SubInfo: map<GoString, byte>
    var PubStatus: map<uint16, Status>
    var OfflineMsg: seq<Publish>
    var CacheMsg: map<uint16, Publish>
    var conn: seq<Write>

    ghost function Value(): Session
      reads this
    {
      Session(ClientId, clearSession, LoginSuccess, SubInfo, PubStatus, OfflineMsg, CacheMsg, conn)
    }

    constructor (c: ClientId)
      ensures Value() == FreshSession(c)
    {
      ClientId, clearSession, LoginSuccess := c, false, false;
      SubInfo, PubStatus, OfflineMsg, CacheMsg := map[], map[], [], map[];
      conn := [];
    }

    /** Draws until an identifier is not in PubStatus: the first such one of the stream. */
    method GeneralUniquePacketId(draws: seq<uint16>) returns (packetId: uint16)
      requires SomeFree(draws, PubStatus)
      ensures exists i :: 0 <= i < |draws| && packetId == draws[i] && packetId !in PubStatus
                          && forall j :: 0 <= j < i ==> draws[j] in PubStatus
    {
      var i := 0;
      packetId := draws[0];
      while packetId in PubStatus
        invariant 0 <= i < |draws| && packetId == draws[i]
        invariant forall j :: 0 <= j < i ==> draws[j] in PubStatus
        decreases |draws| - i
      {
        assert exists k :: i < k < |draws| && draws[k] !in PubStatus;
        i := i + 1;
        packetId := draws[i];
      }
    }

    method MQTTGetSubInfo(filters: seq<Filter>)
      modifies this`SubInfo
      ensures SubInfo == LastWins(old(SubInfo), filters)
    {
      for i := 0 to |filters|
        invariant SubInfo == LastWins(old(SubInfo), filters[..i])
      {
        SubInfo := SubInfo[filters[i].topic := filters[i].qos];
        assert filters[..i + 1][..i] == filters[..i];
      }
      assert filters[..|filters|] == filters;
    }

    method MQTTRemoveUnSubTopic(topics: seq<GoString>)
      modifies this`SubInfo
      ensures forall t :: t in SubInfo <==> t in old(SubInfo) && t !in topics
      ensures forall t :: t in SubInfo ==> SubInfo[t] == old(SubInfo)[t]
      ensures SubInfo == Without(old(SubInfo), topics)
    {
      for i := 0 to |topics|
        invariant forall t :: t in SubInfo <==> t in old(SubInfo) && t !in topics[..i]
        invariant forall t :: t in SubInfo ==> SubInfo[t] == old(SubInfo)[t]
      {
        assert topics[..i + 1] == topics[..i] + [topics[i]];
        if topics[i] in SubInfo {
          SubInfo := SubInfo - {topics[i]};
        }
      }
      assert topics[..|topics|] == topics;
    }

    // The replay loop of CONNECT and of a session hand-off: each message in a buffer of its own.
    method ReplayAll(msgs: seq<Publish>)
      modifies this`PubStatus, this`conn
      ensures Value() == Replay(old(Value()), msgs)
    {
      assert conn + Singles(msgs[..0]) == conn;
      for i := 0 to |msgs|
        invariant PubStatus == ReplayStatus(old(PubStatus), msgs[..i])
        invariant conn == old(conn) + Singles(msgs[..i])
      {
        var offlineMsg := msgs[i];
        if offlineMsg.qos == 2 {
          PubStatus := PubStatus[offlineMsg.packetId := WaitPubrec];
        }
        conn := conn + [[PublishPkt(offlineMsg)]];
        assert msgs[..i + 1][..i] == msgs[..i];
      }
      assert msgs[..|msgs|] == msgs;
    }

    method LogIn(clear: bool)
      modifies this
      ensures Value() == Login(old(Value()), old(ClientId), clear)
    {
      LoginSuccess, clearSession := true, clear;
      conn := conn + [[ConnackPkt]];
      ReplayAll(OfflineMsg);
      OfflineMsg := [];
    }

    // One match of the loop over SubInfo: allocate an identifier, then write or queue a copy.
    method DeliverTo(path: Path, m: Publish, draws: seq<uint16>, buf: Write) returns (copy: Publish, buf': Write)
      requires m.topic in SubInfo && SomeFree(draws, PubStatus) && Draws(draws)
      requires path != FromPublish ==> buf == []
      modifies this`PubStatus, this`CacheMsg, this`OfflineMsg, this`conn
      ensures copy == m.WithId(copy.packetId) && CanDraw(old(Value()), copy.packetId)
      ensures Value() == Receive(path, old(Value()), copy, buf)
      ensures buf' == if path == FromPublish && LoginSuccess && (m.qos == 0 || m.qos == 1)
                      then buf + [PublishPkt(copy)] else buf
    {
      var packetId := GeneralUniquePacketId(draws);
      copy, buf' := m.WithId(packetId), buf;
      if LoginSuccess {
        if path == FromPubrel || (path == FromCluster && m.qos == 2) {
          CacheMsg := CacheMsg[packetId := copy];
          PubStatus := PubStatus[packetId := WaitPubrec];
          conn := conn + [[] + [PublishPkt(copy)]];
        } else if m.qos == 1 {
          buf' := buf + [PublishPkt(copy)];
          PubStatus := PubStatus[packetId := WaitPuback];
          conn := conn + [buf'];
        } else if m.qos == 0 {
          buf' := buf + [PublishPkt(copy)];
          conn := conn + [buf'];
        }
      } else {
        if path == FromPubrel || (path == FromCluster && m.qos >= 1) || (path == FromPublish && m.qos == 1) {
          OfflineMsg := OfflineMsg + [copy];
        }
      }
      if path != FromPublish {
        buf' := [];
      }
    }

    // The loop over SubInfo: it finds the topic at most once, so it is a membership test.
    method Visit(path: Path, m: Publish, draws: seq<uint16>, buf: Write) returns (found: bool, copy: Publish, buf': Write)
      requires m.topic in SubInfo ==> SomeFree(draws, PubStatus) && Draws(draws)
      requires path != FromPublish ==> buf == []
      modifies this`PubStatus, this`CacheMsg, this`OfflineMsg, this`conn
      ensures found == (m.topic in SubInfo)
      ensures found ==> copy == m.WithId(copy.packetId) && CanDraw(old(Value()), copy.packetId)
      ensures !found ==> copy == m
      ensures Value() == Receive(path, old(Value()), copy, buf)
      ensures buf' == if found && path == FromPublish && LoginSuccess && (m.qos == 0 || m.qos == 1)
                      then buf + [PublishPkt(copy)] else buf
    {
      found, copy, buf' := false, m, buf;
      var topics := SubInfo.Keys;
      while topics != {}
        invariant topics <= SubInfo.Keys
        invariant !found ==> copy == m && buf' == buf && Value() == old(Value())
        invariant !found && m.topic in SubInfo ==> m.topic in topics
        invariant found ==> m.topic in SubInfo && m.topic !in topics
        invariant found ==> copy == m.WithId(copy.packetId) && CanDraw(old(Value()), copy.packetId)
        invariant found ==> Value() == Receive(path, old(Value()), copy, buf)
        invariant found ==> buf' == if path == FromPublish && LoginSuccess && (m.qos == 0 || m.qos == 1)
                                    then buf + [PublishPkt(copy)] else buf
        decreases topics
      {
        var topic :| topic in topics;
        topics := topics - {topic};
        if topic == m.topic {
          copy, buf' := DeliverTo(path, m, draws, buf);
          found := true;
        }
      }
    }
  }

  // ---- the loop over the clients map, on values ----

  ghost predicate Visited(f: FanOut, order: seq<ClientId>) {
    && (forall c :: c in order ==> c in f.sessions)
    && (forall i, j :: 0 <= i < j < |order| ==> order[i] != order[j])
  }

  ghost predicate SessionsAt(f: FanOut, order: seq<ClientId>, pick: map<ClientId, uint16>, cur: map<ClientId, Session>) {
    && cur.Keys == f.sessions.Keys
    && forall c :: c in f.sessions ==>
         cur[c] == if c in order then Receive(f.path, f.sessions[c], f.Copy(pick, c), f.Lead(Oracle(pick, order), c))
                   else f.sessions[c]
  }

  ghost predicate PickedAt(f: FanOut, order: seq<ClientId>, pick: map<ClientId, uint16>) {
    && (forall c :: c in order && f.Matches(c) ==> c in pick && CanDraw(f.sessions[c], pick[c]))
    && (forall c :: c in pick ==> c in order)
  }

  function BufferAt(f: FanOut, order: seq<ClientId>, pick: map<ClientId, uint16>): Write {
    if f.path == FromPublish then f.Buffer(pick, order) else []
  }

  // Where the loop is after visiting `order`: `cur` are the sessions, `buf` the write buffer.
  ghost predicate Progress(f: FanOut, order: seq<ClientId>, pick: map<ClientId, uint16>,
                           cur: map<ClientId, Session>, buf: Write, last: Publish)
  {
    && Visited(f, order) && SessionsAt(f, order, pick, cur) && PickedAt(f, order, pick)
    && buf == BufferAt(f, order, pick) && last == f.LastCopy(pick, order)
  }

  lemma {:induction false} SamePicks(f: FanOut, p: map<ClientId, uint16>, q: map<ClientId, uint16>, order: seq<ClientId>)
    requires forall c :: c in order ==> f.Copy(p, c) == f.Copy(q, c)
    ensures f.Buffer(p, order) == f.Buffer(q, order) && f.LastCopy(p, order) == f.LastCopy(q, order)
  {
    if order != [] {
      SamePicks(f, p, q, order[..|order| - 1]);
    }
  }

  lemma {:induction false} BeforeSnoc(order: seq<ClientId>, x: ClientId, c: ClientId)
    ensures c in order ==> Before(order + [x], c) == Before(order, c)
    ensures c !in order ==> Before(order, c) == order
    ensures c !in order && c == x ==> Before(order + [x], c) == order
    ensures forall d :: d in Before(order, c) ==> d in order
  {
    if order != [] {
      assert (order + [x])[1..] == order[1..] + [x];
      BeforeSnoc(order[1..], x, c);
    } else {
      assert [x][1..] == [];
    }
  }

  lemma LeadStays(f: FanOut, order: seq<ClientId>, pick: map<ClientId, uint16>, x: ClientId,
                  q: map<ClientId, uint16>, c: ClientId)
    requires c in order && x !in order && forall d :: d in order ==> f.Copy(q, d) == f.Copy(pick, d)
    ensures f.Lead(Oracle(q, order + [x]), c) == f.Lead(Oracle(pick, order), c)
  {
    BeforeSnoc(order, x, c);
    SamePicks(f, q, pick, Before(order, c));
  }

  lemma LeadOfNew(f: FanOut, order: seq<ClientId>, pick: map<ClientId, uint16>, x: ClientId, q: map<ClientId, uint16>)
    requires x !in order && forall d :: d in order ==> f.Copy(q, d) == f.Copy(pick, d)
    ensures f.Lead(Oracle(q, order + [x]), x) == if f.path == FromPublish then f.Buffer(pick, order) else []
  {
    BeforeSnoc(order, x, x);
    SamePicks(f, q, pick, order);
  }

  lemma SessionsStep(f: FanOut, order: seq<ClientId>, pick: map<ClientId, uint16>, cur: map<ClientId, Session>,
                     x: ClientId, copy: Publish, q: map<ClientId, uint16>)
    requires Visited(f, order) && SessionsAt(f, order, pick, cur)
    requires x in f.sessions && x !in order && f.Copy(q, x) == copy
    requires forall d :: d in order ==> f.Copy(q, d) == f.Copy(pick, d)
    ensures SessionsAt(f, order + [x], q, cur[x := Receive(f.path, f.sessions[x], copy, BufferAt(f, order, pick))])
  {
    LeadOfNew(f, order, pick, x, q);
    forall c | c in f.sessions && c in order
      ensures cur[c] == Receive(f.path, f.sessions[c], f.Copy(q, c), f.Lead(Oracle(q, order + [x]), c))
    {
      LeadStays(f, order, pick, x, q, c);
    }
  }

  lemma BufferStep(f: FanOut, order: seq<ClientId>, pick: map<ClientId, uint16>, x: ClientId, q: map<ClientId, uint16>)
    requires forall d :: d in order ==> f.Copy(q, d) == f.Copy(pick, d)
    ensures BufferAt(f, order + [x], q)
            == BufferAt(f, order, pick) + if f.path == FromPublish && f.Written(x) then [PublishPkt(f.Copy(q, x))] else []
    ensures f.LastCopy(q, order + [x]) == if f.Matches(x) then f.Copy(q, x) else f.LastCopy(pick, order)
  {
    assert (order + [x])[..|order|] == order;
    SamePicks(f, q, pick, order);
  }

  lemma PickedStep(f: FanOut, order: seq<ClientId>, pick: map<ClientId, uint16>, x: ClientId, q: map<ClientId, uint16>)
    requires Visited(f, order) && PickedAt(f, order, pick) && x in f.sessions && x !in order
    requires if f.Matches(x) then x in q && CanDraw(f.sessions[x], q[x]) && q == pick[x := q[x]] else q == pick
    ensures Visited(f, order + [x]) && PickedAt(f, order + [x], q)
    ensures forall d :: d in order ==> f.Copy(q, d) == f.Copy(pick, d)
  {
  }

  lemma ProgressStep(f: FanOut, order: seq<ClientId>, pick: map<ClientId, uint16>, cur: map<ClientId, Session>,
                     buf: Write, last: Publish, x: ClientId, copy: Publish, q: map<ClientId, uint16>)
    requires Progress(f, order, pick, cur, buf, last)
    requires x in f.sessions && x !in order
    requires f.Matches(x) ==> copy == f.m.WithId(copy.packetId) && CanDraw(f.sessions[x], copy.packetId)
    requires !f.Matches(x) ==> copy == f.m
    requires q == if f.Matches(x) then pick[x := copy.packetId] else pick
    ensures Progress(f, order + [x], q,
                     cur[x := Receive(f.path, f.sessions[x], copy, buf)],
                     if f.path == FromPublish && f.Written(x) then buf + [PublishPkt(copy)] else buf,
                     if f.Matches(x) then copy else last)
  {
    PickedStep(f, order, pick, x, q);
    assert f.Copy(q, x) == copy by {
      if !f.Matches(x) {
        assert x !in pick;
      }
    }
    SessionsStep(f, order, pick, cur, x, copy, q);
    BufferStep(f, order, pick, x, q);
  }

  lemma ProgressStart(f: FanOut)
    ensures Progress(f, [], map[], f.sessions, [], f.m)
  {
  }

  lemma SessionsDone(f: FanOut, order: seq<ClientId>, pick: map<ClientId, uint16>, cur: map<ClientId, Session>)
    requires SessionsAt(f, order, pick, cur) && forall c :: c in f.sessions ==> c in order
    ensures cur == f.Spread(Oracle(pick, order))
  {
    hide Receive, FanOut.Lead, FanOut.Copy;
  }

  lemma ProgressDone(f: FanOut, order: seq<ClientId>, pick: map<ClientId, uint16>, cur: map<ClientId, Session>,
                     buf: Write, last: Publish)
    requires Progress(f, order, pick, cur, buf, last)
    requires forall c :: c in f.sessions ==> c in order
    ensures cur == f.Spread(Oracle(pick, order)) && f.ValidOracle(Oracle(pick, order))
    ensures last == f.LastCopy(pick, order)
  {
    SessionsDone(f, order, pick, cur);
    hide SessionsAt, FanOut.Spread, CanDraw, FanOut.LastCopy, BufferAt;
  }

  // ---- the dispatcher object ----

  class ClientsMsgDispatch {
    var GloablClientsMap: map<ClientId, MqttClientInfo>
    var Cluster_Ch: seq<ClusterMsg>

    // Every client object is filed under its own id, so different keys hold different objects.
    ghost predicate Valid()
      reads `GloablClientsMap, GloablClientsMap.Values
    {
      forall c :: c in GloablClientsMap ==> GloablClientsMap[c].ClientId == c
    }

    ghost function Sessions(): map<ClientId, Session>
      reads `GloablClientsMap, GloablClientsMap.Values
    {
      map c | c in GloablClientsMap :: GloablClientsMap[c].Value()
    }

    ghost function Value(): Broker
      reads this, GloablClientsMap.Values
    {
      Broker(Sessions(), Cluster_Ch)
    }

    constructor ()
      ensures Valid() && Value() == INIT
    {
      GloablClientsMap, Cluster_Ch := map[], [];
      new;
      assert Sessions() == map[];
    }

    // Updating one client object changes one entry of the abstract sessions.
    twostate lemma OneChanged(c: ClientId)
      requires old(Valid()) && unchanged(this) && c in GloablClientsMap
      requires GloablClientsMap[c].ClientId == c
      requires forall d :: d in GloablClientsMap && GloablClientsMap[d] != GloablClientsMap[c] ==>
                 unchanged(GloablClientsMap[d])
      ensures Valid()
      ensures Sessions() == old(Sessions())[c := GloablClientsMap[c].Value()]
    {
      assert forall d :: d in GloablClientsMap && d != c ==> old(GloablClientsMap[d].ClientId) == d;
    }

    // One round of the loop over the clients map.
    method VisitOne(ghost f: FanOut, ghost order: seq<ClientId>, ghost pick: map<ClientId, uint16>, c: ClientId,
                    draws: map<ClientId, seq<uint16>>, buf: Write, last: Publish, m: Publish, path: Path)
      returns (last': Publish, buf': Write, ghost pick': map<ClientId, uint16>)
      requires Valid() && m == f.m && path == f.path
      requires Progress(f, order, pick, Sessions(), buf, last)
      requires c in GloablClientsMap && c !in order
      requires f.Matches(c) ==> c in draws && Draws(draws[c]) && SomeFree(draws[c], f.sessions[c].status)
      modifies GloablClientsMap[c]
      ensures Valid()
      ensures Progress(f, order + [c], pick', Sessions(), buf', last')
    {
      ghost var before := Sessions();
      assert before[c] == f.sessions[c] && c in f.sessions;
      hide Progress, Receive;
      var client := GloablClientsMap[c];
      var found, copy: Publish;
      found, copy, buf' := client.Visit(path, m, if c in draws then draws[c] else [], buf);
      OneChanged(c);
      assert Sessions() == before[c := Receive(path, f.sessions[c], copy, buf)];
      last' := if found then copy else last;
      pick' := if found then pick[c := copy.packetId] else pick;
      ProgressStep(f, order, pick, before, buf, last, c, copy, pick');
    }

    // The loop over the clients map, in whatever order the map yields its keys.
    method Distribute(ghost f: FanOut, path: Path, m: Publish, draws: map<ClientId, seq<uint16>>)
      returns (last: Publish, ghost o: Oracle)
      requires Valid() && f == FanOut(Sessions(), m, path)
      requires FanOutDraws(f, draws)
      modifies GloablClientsMap.Values
      ensures Valid()
      ensures f.ValidOracle(o) && Sessions() == f.Spread(o) && last == f.LastCopy(o.pick, o.order)
    {
      ghost var order: seq<ClientId>, pick: map<ClientId, uint16> := [], map[];
      var buf: Write := [];
      last := m;
      ProgressStart(f);
      hide Progress, FanOut.Spread, FanOut.ValidOracle;
      var todo := GloablClientsMap.Keys;
      while todo != {}
        invariant todo <= GloablClientsMap.Keys
        invariant Valid()
        invariant forall c :: c in GloablClientsMap ==> (c in order <==> c !in todo)
        invariant Progress(f, order, pick, Sessions(), buf, last)
        decreases todo
      {
        var c :| c in todo;
        todo := todo - {c};
        last, buf, pick := VisitOne(f, order, pick, c, draws, buf, last, m, path);
        order := order + [c];
      }
      o := Oracle(pick, order);
      ProgressDone(f, order, pick, Sessions(), buf, last);
    }

    // ---- one method per message kind ----

    method Announce(msg: ClusterMsg)
      modifies this`Cluster_Ch
      ensures Cluster_Ch == old(Cluster_Ch) + [msg] && Sessions() == old(Sessions())
    {
      ghost var s := Sessions();
      Cluster_Ch := Cluster_Ch + [msg];
      assert forall c :: c in GloablClientsMap ==> GloablClientsMap[c].Value() == s[c];
    }

    // MSG_CLIENT_ADD: file the client under its id and announce the login.
    method Register(c: ClientId, mqttClient: MqttClientInfo)
      requires Valid() && mqttClient.ClientId == c
      modifies this
      ensures Valid()
      ensures GloablClientsMap == old(GloablClientsMap)[c := mqttClient]
      ensures Value() == Broker(old(Sessions())[c := mqttClient.Value()], old(Cluster_Ch) + [LoginMsg(c)])
    {
      GloablClientsMap := GloablClientsMap[c := mqttClient];
      Cluster_Ch := Cluster_Ch + [LoginMsg(c)];
      assert Sessions() == old(Sessions())[c := mqttClient.Value()];
    }

    // CONNECT of a client that has a session: the same object is used again.
    method ConnectAgain(c: ClientId, clear: bool)
      requires Valid() && c in GloablClientsMap
      modifies GloablClientsMap[c]
      ensures Valid()
      ensures Sessions() == old(Sessions())[c := Login(old(Sessions()[c]), c, clear)]
    {
      GloablClientsMap[c].LogIn(clear);
      OneChanged(c);
    }

    // CONNECT of a client without a session: the object is not in the map yet.
    method ConnectFirst(c: ClientId, clear: bool) returns (mqttClientData: MqttClientInfo)
      requires Valid()
      ensures fresh(mqttClientData) && mqttClientData.Value() == Login(FreshSession(c), c, clear)
    {
      mqttClientData := new MqttClientInfo(c);
      mqttClientData.LogIn(clear);
    }

    /** CONNECT with its replay, and the MSG_CLIENT_ADD that follows it. */
    method ClientAdd(c: ClientId, clear: bool)
      requires Valid()
      modifies this, GloablClientsMap.Values
      ensures Valid()
      ensures Step(old(Value()), Choice(Add(c, clear), IDLE)) == Running(Value())
    {
      ghost var b := Value();
      if c in GloablClientsMap {
        ConnectAgain(c, clear);
        var mqttClientData := GloablClientsMap[c];
        Register(c, mqttClientData);
      } else {
        var mqttClientData := ConnectFirst(c, clear);
        assert mqttClientData.Value().clientId == c;
        Register(c, mqttClientData);
      }
      ghost var s := if c in b.sessions then b.sessions[c] else FreshSession(c);
      assert Sessions() == b.sessions[c := Login(s, c, clear)];
    }

    method ClientDel(c: ClientId)
      requires Valid()
      modifies this
      ensures Valid()
      ensures Step(old(Value()), Choice(Del(c), IDLE)) == Running(Value())
    {
      GloablClientsMap := GloablClientsMap - {c};
      assert Sessions() == old(Sessions()) - {c};
    }

    /** The exit handler of a connection. Before any CONNECT there is no session object: nil is dereferenced.
        A clean session is removed by its client id; otherwise the object is marked offline, which the
        dispatcher sees if it is still the registered one. */
    method ClientExit(self: MqttClientInfo?) returns (crashed: bool)
      requires Valid()
      modifies this, GloablClientsMap.Values, self
      ensures crashed <==> self == null
      ensures Valid() && (crashed ==> Value() == old(Value()))
      ensures self != null ==>
                var c := old(self.ClientId);
                if old(self.clearSession) then Step(old(Value()), Choice(Del(c), IDLE)) == Running(Value())
                else if c in old(GloablClientsMap) && old(GloablClientsMap[c]) == self then
                  Step(old(Value()), Choice(GoOffline(c), IDLE)) == Running(Value())
                else Value() == old(Value()) && !self.LoginSuccess
    {
      crashed := self == null;
      if self != null {
        var c := self.ClientId;
        if self.clearSession {
          ClientDel(c);
        } else if c in GloablClientsMap && GloablClientsMap[c] == self {
          ClientOffline(c);
        } else {
          Unregistered(self);
          self.LoginSuccess := false;
          assert forall d :: d in GloablClientsMap ==> unchanged(GloablClientsMap[d]);
        }
      }
    }

    // An object filed nowhere under its own id is filed nowhere.
    lemma Unregistered(self: MqttClientInfo)
      requires Valid() && !(self.ClientId in GloablClientsMap && GloablClientsMap[self.ClientId] == self)
      ensures forall d :: d in GloablClientsMap ==> GloablClientsMap[d] != self
    {
    }

    method ClientSub(c: ClientId, filters: seq<Filter>)
      requires Valid()
      modifies GloablClientsMap.Values
      ensures Valid()
      ensures Step(old(Value()), Choice(Sub(c, filters), IDLE)) == Running(Value())
    {
      if c in GloablClientsMap {
        GloablClientsMap[c].MQTTGetSubInfo(filters);
        OneChanged(c);
      }
    }

    method ClientUnsub(c: ClientId, topics: seq<GoString>)
      requires Valid()
      modifies GloablClientsMap.Values
      ensures Valid()
      ensures Step(old(Value()), Choice(Unsub(c, topics), IDLE)) == Running(Value())
    {
      if c in GloablClientsMap {
        GloablClientsMap[c].MQTTRemoveUnSubTopic(topics);
        OneChanged(c);
      }
    }

    method ClientPublish(c: ClientId, m: Publish, draws: map<ClientId, seq<uint16>>) returns (ghost o: Oracle)
      requires Valid() && DrawsSuffice(Value(), Pub(c, m), draws)
      modifies GloablClientsMap.Values
      ensures Valid()
      ensures Dispatcher.Valid(old(Value()), Choice(Pub(c, m), o))
      ensures Step(old(Value()), Choice(Pub(c, m), o)) == Running(Value())
    {
      o := IDLE;
      if c in GloablClientsMap {
        var self := GloablClientsMap[c];
        if m.qos == 2 {
          self.PubStatus := self.PubStatus[m.packetId := WaitPubrel];
          self.CacheMsg := self.CacheMsg[m.packetId := m];
          OneChanged(c);
        }
        ghost var f := FanOutOf(old(Value()), Pub(c, m)).value;
        var last;
        last, o := Distribute(f, FromPublish, m, draws);
      }
    }

    /** The client's goroutine on a PUBLISH: nothing before login; otherwise the dispatcher's step, the
        acknowledgement its QoS asks for, and at QoS 0 and 1 exactly one copy for the other nodes. */
    method ProcessPublish(self: MqttClientInfo, m: Publish, draws: map<ClientId, seq<uint16>>)
      returns (ack: Option<PublishAck>, ghost o: Oracle)
      requires Valid() && DrawsSuffice(Value(), Pub(self.ClientId, m), draws)
      modifies this`Cluster_Ch, GloablClientsMap.Values
      ensures Valid()
      ensures ack == if !old(self.LoginSuccess) then None
                     else if m.qos == 1 then Some(SendPuback(m.packetId))
                     else if m.qos == 2 then Some(SendPubrec(m.packetId))
                     else None
      ensures !old(self.LoginSuccess) ==> Value() == old(Value())
      ensures old(self.LoginSuccess) ==>
                var pub := Choice(Pub(old(self.ClientId), m), o);
                && Dispatcher.Valid(old(Value()), pub)
                && Step(old(Value()), pub) == Running(Value().(clusterOut := old(Cluster_Ch)))
                && Cluster_Ch == old(Cluster_Ch) + if m.qos < 2 then [PublicMsg(m)] else []
    {
      ack, o := None, IDLE;
      if self.LoginSuccess {
        if m.qos == 1 {
          ack := Some(SendPuback(m.packetId));
        } else if m.qos == 2 {
          ack := Some(SendPubrec(m.packetId));
        }
        o := ClientPublish(self.ClientId, m, draws);
        if m.qos < 2 {
          Announce(PublicMsg(m));
        }
      }
    }

    method ClientPuback(c: ClientId, id: uint16)
      requires Valid()
      modifies GloablClientsMap.Values
      ensures Valid()
      ensures Step(old(Value()), Choice(Puback(c, id), IDLE)) == Running(Value())
    {
      if c in GloablClientsMap {
        var self := GloablClientsMap[c];
        if id in self.PubStatus && self.PubStatus[id] == WaitPuback {
          self.PubStatus := self.PubStatus - {id};
          OneChanged(c);
        }
      }
    }

    method ClientPubrec(c: ClientId, id: uint16)
      requires Valid()
      modifies GloablClientsMap.Values
      ensures Valid()
      ensures Step(old(Value()), Choice(Pubrec(c, id), IDLE)) == Running(Value())
    {
      if c in GloablClientsMap {
        var self := GloablClientsMap[c];
        if id in self.PubStatus && self.PubStatus[id] == WaitPubrec {
          self.PubStatus := self.PubStatus[id := WaitPubcomp];
          self.conn := self.conn + [[PubrelPkt(id)]];
          OneChanged(c);
        }
      }
    }

    // PUBREL for a stored message: forget the identifier and answer with PUBCOMP.
    method CompleteInbound(c: ClientId, id: uint16)
      requires Valid() && c in GloablClientsMap
      modifies GloablClientsMap[c]
      ensures Valid()
      ensures Sessions() == old(Sessions())[c := Release(old(Sessions()[c]), id)]
    {
      var self := GloablClientsMap[c];
      self.PubStatus := self.PubStatus - {id};
      self.conn := self.conn + [[PubcompPkt(id)]];
      OneChanged(c);
    }

    // The stored message, and the sessions its fan-out starts from.
    method TakeStored(ghost f: FanOut, c: ClientId, id: uint16) returns (pub_rel_msg: Publish)
      requires Valid() && FanOutOf(Value(), Pubrel(c, id)) == Some(f)
      modifies GloablClientsMap[c]
      ensures Valid()
      ensures f == FanOut(Sessions(), pub_rel_msg, FromPubrel)
    {
      assert Sessions()[c] == GloablClientsMap[c].Value();
      pub_rel_msg := GloablClientsMap[c].CacheMsg[id];
      CompleteInbound(c, id);
    }

    method SpreadAndForward(ghost f: FanOut, m: Publish, draws: map<ClientId, seq<uint16>>) returns (ghost o: Oracle)
      requires Valid() && FanOutDraws(f, draws) && f == FanOut(Sessions(), m, FromPubrel)
      modifies this`Cluster_Ch, GloablClientsMap.Values
      ensures Valid()
      ensures f.ValidOracle(o) && Sessions() == f.Spread(o)
      ensures Cluster_Ch == old(Cluster_Ch) + [PublicMsg(f.LastCopy(o.pick, o.order))]
    {
      var pub_rel_msg;
      pub_rel_msg, o := Distribute(f, FromPubrel, m, draws);
      Announce(PublicMsg(pub_rel_msg));
    }

    method ClientPubrel(c: ClientId, id: uint16, draws: map<ClientId, seq<uint16>>) returns (ghost o: Oracle)
      requires Valid() && DrawsSuffice(Value(), Pubrel(c, id), draws)
      modifies this`Cluster_Ch, GloablClientsMap.Values
      ensures Valid()
      ensures Dispatcher.Valid(old(Value()), Choice(Pubrel(c, id), o))
      ensures Step(old(Value()), Choice(Pubrel(c, id), o)) == Running(Value())
    {
      o := IDLE;
      if c in GloablClientsMap {
        var self := GloablClientsMap[c];
        if id in self.PubStatus && self.PubStatus[id] == WaitPubrel {
          if id in self.CacheMsg {
            ghost var f := FanOutOf(Value(), Pubrel(c, id)).value;
            var pub_rel_msg := TakeStored(f, c, id);
            o := SpreadAndForward(f, pub_rel_msg, draws);
          } else {
            CompleteInbound(c, id);
          }
        }
      }
    }

    /** Without a session the program dereferences nil. */
    method ClientPubcomp(c: ClientId, id: uint16) returns (crashed: bool)
      requires Valid()
      modifies GloablClientsMap.Values
      ensures Valid()
      ensures Step(old(Value()), Choice(Pubcomp(c, id), IDLE)) == if crashed then Crashed else Running(Value())
    {
      if c !in GloablClientsMap {
        return true;
      }
      crashed := false;
      var self := GloablClientsMap[c];
      if id in self.PubStatus && self.PubStatus[id] == WaitPubcomp {
        self.CacheMsg := self.CacheMsg - {id};
        self.PubStatus := self.PubStatus - {id};
        OneChanged(c);
      }
    }

    method ClusterPublish(m: Publish, draws: map<ClientId, seq<uint16>>) returns (ghost o: Oracle)
      requires Valid() && DrawsSuffice(Value(), ClusterPub(m), draws)
      modifies GloablClientsMap.Values
      ensures Valid()
      ensures Dispatcher.Valid(old(Value()), Choice(ClusterPub(m), o))
      ensures Step(old(Value()), Choice(ClusterPub(m), o)) == Running(Value())
    {
      var last;
      last, o := Distribute(FanOut(Sessions(), m, FromCluster), FromCluster, m, draws);
    }

    // The search compares the ids stored in the clients, not the keys.
    method FindClient(c: ClientId) returns (found: bool, client: MqttClientInfo?)
      requires Valid()
      ensures found == (c in GloablClientsMap)
      ensures found ==> client == GloablClientsMap[c]
    {
      found, client := false, null;
      var todo := GloablClientsMap.Keys;
      while todo != {} && !found
        invariant todo <= GloablClientsMap.Keys
        invariant found ==> c in GloablClientsMap && client == GloablClientsMap[c]
        invariant !found ==> c !in GloablClientsMap || c in todo
        decreases todo
      {
        var d :| d in todo;
        todo := todo - {d};
        if GloablClientsMap[d].ClientId == c {
          found, client := true, GloablClientsMap[d];
        }
      }
    }

    method ClusterLoginNotify(c: ClientId, node: GoString)
      requires Valid()
      modifies this
      ensures Valid()
      ensures Step(old(Value()), Choice(ClusterLogin(c, node), IDLE)) == Running(Value())
    {
      var found, client := FindClient(c);
      if found {
        var info := ClientInfo(c, client.SubInfo, client.OfflineMsg);
        GloablClientsMap := GloablClientsMap - {c};
        Cluster_Ch := Cluster_Ch + [ClientInfoMsg(info, node)];
        assert Sessions() == old(Sessions()) - {c};
      }
    }

    // Replay to the client's session, and merge the subscriptions.
    method TakeOver(info: ClientInfo)
      requires Valid() && info.clientId in GloablClientsMap
      modifies GloablClientsMap[info.clientId]
      ensures Valid()
      ensures var s := Replay(old(Sessions()[info.clientId]), info.offline);
              Sessions() == old(Sessions())[info.clientId := s.(subs := s.subs + info.subs)]
    {
      hide Replay;
      var client := GloablClientsMap[info.clientId];
      client.ReplayAll(info.offline);
      client.SubInfo := client.SubInfo + info.subs;
      OneChanged(info.clientId);
    }

    method ClusterLoginInfoNotify(info: ClientInfo)
      requires Valid()
      modifies GloablClientsMap.Values
      ensures Valid()
      ensures Step(old(Value()), Choice(ClusterLoginInfo(info), IDLE)) == Running(Value())
    {
      var found, client := FindClient(info.clientId);
      if found {
        ghost var b := Value();
        assert b.sessions[info.clientId] == client.Value();
        TakeOver(info);
        assert Value().clusterOut == b.clusterOut;
      }
    }

    // The messages of the other nodes.
    method ProcessClusterMsg(e: Event, draws: map<ClientId, seq<uint16>>) returns (ghost o: Oracle)
      requires e.ClusterPub? || e.ClusterLogin? || e.ClusterLoginInfo?
      requires Valid() && DrawsSuffice(Value(), e, draws)
      modifies this, GloablClientsMap.Values
      ensures Valid()
      ensures Dispatcher.Valid(old(Value()), Choice(e, o))
      ensures Step(old(Value()), Choice(e, o)) == Running(Value())
    {
      o := IDLE;
      match e {
        case ClusterPub(m) => o := ClusterPublish(m, draws);
        case ClusterLogin(c, node) => ClusterLoginNotify(c, node);
        case ClusterLoginInfo(info) => ClusterLoginInfoNotify(info);
      }
    }

    // The acknowledgements of a client.
    method ProcessAck(e: Event, draws: map<ClientId, seq<uint16>>) returns (crashed: bool, ghost o: Oracle)
      requires e.Puback? || e.Pubrec? || e.Pubrel? || e.Pubcomp?
      requires Valid() && DrawsSuffice(Value(), e, draws)
      modifies this, GloablClientsMap.Values
      ensures Valid()
      ensures Dispatcher.Valid(old(Value()), Choice(e, o))
      ensures Step(old(Value()), Choice(e, o)) == if crashed then Crashed else Running(Value())
    {
      crashed, o := false, IDLE;
      match e {
        case Puback(c, id) => ClientPuback(c, id);
        case Pubrec(c, id) => ClientPubrec(c, id);
        case Pubrel(c, id) => o := ClientPubrel(c, id, draws);
        case Pubcomp(c, id) => crashed := ClientPubcomp(c, id);
      }
    }

    method ClientOffline(c: ClientId)
      requires Valid()
      modifies GloablClientsMap.Values
      ensures Valid()
      ensures Step(old(Value()), Choice(GoOffline(c), IDLE)) == Running(Value())
    {
      if c in GloablClientsMap {
        GloablClientsMap[c].LoginSuccess := false;
        OneChanged(c);
      }
    }

    /** processMsg together with the login and exit handlers: one step of the state machine. */
    method ProcessMsg(e: Event, draws: map<ClientId, seq<uint16>>) returns (crashed: bool, ghost o: Oracle)
      requires Valid() && DrawsSuffice(Value(), e, draws)
      modifies this, GloablClientsMap.Values
      ensures Valid()
      ensures Dispatcher.Valid(old(Value()), Choice(e, o))
      ensures Step(old(Value()), Choice(e, o)) == if crashed then Crashed else Running(Value())
    {
      crashed, o := false, IDLE;
      match e {
        case Add(c, clear) => ClientAdd(c, clear);
        case GoOffline(c) => ClientOffline(c);
        case Del(c) => ClientDel(c);
        case Sub(c, filters) => ClientSub(c, filters);
        case Unsub(c, topics) => ClientUnsub(c, topics);
        case Pub(c, m) => o := ClientPublish(c, m, draws);
        case Forward(c, m) => Announce(PublicMsg(m));
        case Puback(_, _) => crashed, o := ProcessAck(e, draws);
        case Pubrec(_, _) => crashed, o := ProcessAck(e, draws);
        case Pubrel(_, _) => crashed, o := ProcessAck(e, draws);
        case Pubcomp(_, _) => crashed, o := ProcessAck(e, draws);
        case ClusterPub(_) => o := ProcessClusterMsg(e, draws);
        case ClusterLogin(_, _) => o := ProcessClusterMsg(e, draws);
        case ClusterLoginInfo(_) => o := ProcessClusterMsg(e, draws);
      }
    }
  }
}
