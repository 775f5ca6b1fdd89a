// Runs in which a client moves from one node to another and the cluster does not keep what it promises: the
// conditions of the theorems about the cluster are needed.
module MovingClient {
  import opened MqttTypes
  import opened Dispatcher
  import opened ClusterSystem
  import opened ClusterRuns
  import opened HandOff
  import opened OncePerSession
  import IdealBroker

  lemma ToOther(i: nat, body: Body)
    requires i < 2
    ensures Broadcast(i, 2, body) == [Envelope(i, 1 - i, body)]
  {
    assert Broadcast(i, 1, body) == Broadcast(i, 0, body) + if i == 0 then [] else [Envelope(i, 0, body)];
  }

  lemma ToOthers(body: Body)
    ensures Broadcast(0, 3, body) == [Envelope(0, 1, body), Envelope(0, 2, body)]
    ensures Broadcast(1, 3, body) == [Envelope(1, 0, body), Envelope(1, 2, body)]
    ensures Broadcast(2, 3, body) == [Envelope(2, 0, body), Envelope(2, 1, body)]
  {
    ToOther(0, body);
    ToOther(1, body);
    assert Broadcast(2, 2, body) == Broadcast(2, 1, body) + [Envelope(2, 1, body)];
    assert Broadcast(2, 1, body) == Broadcast(2, 0, body) + [Envelope(2, 0, body)];
  }

  // c, new to its node i, logs in.
  lemma LogIn(t: Trace, nodes: seq<Broker>, net: seq<Envelope>, i: nat, c: ClientId) returns (t': Trace)
    requires At(t, nodes, net) && i < |nodes| && nodes[i] == INIT
    ensures At(t', nodes[i := Alone(NewSession(c))], net + Broadcast(i, |nodes|, NetLogin(c)))
    ensures t'.actions == t.actions + [Local(i, Choice(Add(c, false), NO_CHOICE), Everyone(|nodes|))]
  {
    var b := Alone(NewSession(c));
    NewSessionIs(c);
    AloneSteps(NewSession(c), NO_CHOICE);
    assert b.clusterOut == INIT.clusterOut + [LoginMsg(c)];
    assert Valid(INIT, Choice(Add(c, false), NO_CHOICE));
    hide At, Step, Valid, NewSession, Everyone, SendsOf;
    SendsIs(i, |nodes|, INIT, b, i);
    t' := Handle(t, nodes, net, i, Choice(Add(c, false), NO_CHOICE), b);
  }

  // A login is delivered to a node that has no session of its client.
  lemma Ignored(t: Trace, nodes: seq<Broker>, net: seq<Envelope>, k: nat) returns (t': Trace)
    requires At(t, nodes, net) && k < |net| && net[k].dst < |nodes| && net[k].src < |nodes|
    requires net[k].body.NetLogin? && net[k].body.c !in nodes[net[k].dst].sessions
    ensures At(t', nodes, Without1(net, k))
  {
    var i, b := net[k].dst, nodes[net[k].dst];
    var ch := Choice(EventOf(net[k]), NO_CHOICE);
    assert Valid(b, ch) && Step(b, ch) == Running(b);
    hide At, Step, Valid, SendsOf, EventOf;
    SendsIs(i, |nodes|, b, b, net[k].src);
    assert nodes[i := b] == nodes && Without1(net, k) + [] == Without1(net, k);
    t' := Hand(t, nodes, net, k, NO_CHOICE, b);
  }

  // A login is delivered to the node that has the session of its client, and only that.
  lemma Evicting(t: Trace, nodes: seq<Broker>, net: seq<Envelope>, k: nat, x: Session) returns (t': Trace)
    requires At(t, nodes, net) && k < |net| && net[k].dst < |nodes| && net[k].src < |nodes|
    requires net[k].body == NetLogin(x.clientId) && nodes[net[k].dst] == Alone(x)
    ensures At(t', nodes[net[k].dst := Evicted(x)],
               Without1(net, k) + [Envelope(net[k].dst, net[k].src, NetInfo(InfoOf(x)))])
    ensures t'.actions == t.actions + [Deliver(k, NO_CHOICE, Everyone(|nodes|))]
  {
    AloneSteps(x, NO_CHOICE);
    var ch := Choice(ClusterLogin(x.clientId, []), NO_CHOICE);
    assert EventOf(net[k]) == ch.e && Valid(Alone(x), ch);
    assert Evicted(x).clusterOut == Alone(x).clusterOut + [ClientInfoMsg(InfoOf(x), [])];
    hide At, Step, Valid, SendsOf, EventOf;
    SendsIs(net[k].dst, |nodes|, Alone(x), Evicted(x), net[k].src);
    t' := Hand(t, nodes, net, k, NO_CHOICE, Evicted(x));
  }

  // ---- two nodes ----

  lemma BothLogIn(c: ClientId) returns (t: Trace)
    ensures var a := Alone(NewSession(c));
            At(t, [a, a], [Envelope(0, 1, NetLogin(c)), Envelope(1, 0, NetLogin(c))])
    ensures |t.actions| == 2
    ensures t.actions[0] == Local(0, Choice(Add(c, false), NO_CHOICE), Everyone(2))
    ensures t.actions[1] == Local(1, Choice(Add(c, false), NO_CHOICE), Everyone(2))
  {
    var l01, l10, a := Envelope(0, 1, NetLogin(c)), Envelope(1, 0, NetLogin(c)), Alone(NewSession(c));
    hide Broadcast, NewSession, Everyone, Alone, At;
    ToOther(0, NetLogin(c));
    ToOther(1, NetLogin(c));
    t := Begin(2);
    assert seq(2, _ => INIT) == [INIT, INIT];
    t := LogIn(t, [INIT, INIT], [], 0, c);
    assert [INIT, INIT][0 := a] == [a, INIT] && [] + [l01] == [l01];
    t := LogIn(t, [a, INIT], [l01], 1, c);
    assert [a, INIT][1 := a] == [a, a] && [l01] + [l10] == [l01, l10];
  }

  /** With two concurrent logins of the same client both notifications can be delivered, each evicts a session,
      and no node holds the client any more, though all nodes hold each other alive. */
  lemma ConcurrentLoginsLoseBoth(c: ClientId) returns (t: Trace)
    ensures t.IsTrace(2) && |t.actions| == 4 && Last(t).withheld == []
    ensures t.actions[0] == Local(0, Choice(Add(c, false), NO_CHOICE), Everyone(2))
    ensures t.actions[1] == Local(1, Choice(Add(c, false), NO_CHOICE), Everyone(2))
    ensures t.actions[2].Deliver? && t.actions[3].Deliver?
    ensures !Holds(Last(t), 0, c) && !Holds(Last(t), 1, c)
  {
    var x := NewSession(c);
    var a, e := Alone(x), Evicted(x);
    var l01, l10 := Envelope(0, 1, NetLogin(c)), Envelope(1, 0, NetLogin(c));
    var i10, i01 := Envelope(1, 0, NetInfo(InfoOf(x))), Envelope(0, 1, NetInfo(InfoOf(x)));
    NewSessionIs(c);
    assert Evicted(x).sessions == map[];
    hide NewSession, Everyone, Alone, Evicted, InfoOf, At;
    t := BothLogIn(c);
    t := Evicting(t, [a, a], [l01, l10], 0, x);
    assert [a, a][1 := e] == [a, e] && Without1([l01, l10], 0) + [i10] == [l10, i10];
    t := Evicting(t, [a, e], [l10, i10], 0, x);
    assert [a, e][0 := e] == [e, e] && Without1([l10, i10], 0) + [i01] == [i10, i01];
    Reached(t, [e, e], [i10, i01]);
  }

  lemma Reached(t: Trace, nodes: seq<Broker>, net: seq<Envelope>)
    requires At(t, nodes, net)
    ensures t.IsTrace(|nodes|) && SilentAtOne(t.actions)
    ensures |t.states| == |t.actions| + 1 && Last(t).nodes == nodes && Last(t).net == net && Last(t).withheld == []
  {
  }

  lemma {:induction false} NoneAllowed(envs: seq<Envelope>)
    ensures Allowed(envs, {}) == []
  {
    if envs != [] {
      NoneAllowed(envs[..|envs| - 1]);
    }
  }

  // c logs in at an empty node that holds no other alive.
  lemma LogInAlone(t: Trace, i: nat, c: ClientId) returns (t': Trace)
    requires t.IsTrace(2) && i < |Last(t).nodes| && Last(t).nodes[i] == INIT && Last(t).net == []
    ensures t'.IsTrace(2) && |t'.actions| == |t.actions| + 1 && Last(t').net == []
    ensures Last(t').nodes == Last(t).nodes[i := Alone(NewSession(c))]
  {
    var s, b, ch := Last(t), Alone(NewSession(c)), Choice(Add(c, false), NO_CHOICE);
    NewSessionIs(c);
    AloneSteps(NewSession(c), NO_CHOICE);
    assert Valid(INIT, ch);
    var out := SendsOf(i, |s.nodes|, INIT, b, i);
    NoneAllowed(out);
    hide Trace.IsTrace, NewSession, Step, Valid, SendsOf, Refused, Allowed;
    var s' := System(s.nodes[i := b], [], s.log, s.withheld + Refused(out, {}));
    assert [] + Allowed(out, {}) == [] && s.log + [] == s.log;
    assert Next(s, Local(i, ch, {}), s');
    hide Next;
    Extended(t, 2, Local(i, ch, {}), s');
    t' := Then(t, Local(i, ch, {}), s');
  }

  /** Two nodes that do not hold each other alive keep a session of the same client each, with nothing in
      flight. */
  lemma WithheldLoginsLeaveTwo(c: ClientId) returns (t: Trace)
    ensures t.IsTrace(2) && |t.actions| == 2
    ensures Holds(Last(t), 0, c) && Holds(Last(t), 1, c) && Last(t).net == []
  {
    NewSessionIs(c);
    hide NewSession;
    Start(2);
    t := Trace([InitSystem(2)], []);
    hide Trace.IsTrace;
    t := LogInAlone(t, 0, c);
    t := LogInAlone(t, 1, c);
  }

  // ---- three nodes: a message waits for a client that moves ----

  // c's session once it has subscribed to topic and gone away.
  function Away(c: ClientId, topic: GoString): Session {
    NewSession(c).(subs := map[topic := 1], online := false)
  }

  function Waiting(c: ClientId, m: Publish): Session {
    Away(c, m.topic).(offline := [m])
  }

  function Publisher(d: ClientId, m: Publish): Broker {
    Broker(map[d := NewSession(d)], [LoginMsg(d), PublicMsg(m)])
  }

  lemma TwoLogins(i: nat, c: ClientId)
    requires i < 3
    ensures var out := Broadcast(i, 3, NetLogin(c));
            && |out| == 2 && [] + out == out && Without1(out, 0) == [out[1]] && Without1([out[1]], 0) == []
            && forall j :: 0 <= j < 2 ==> out[j] == Envelope(i, out[j].dst, NetLogin(c)) && out[j].dst < 3 && out[j].dst != i
  {
    hide Broadcast;
    ToOthers(NetLogin(c));
  }

  // A client logs in at an empty node of three, and no other node knows it.
  lemma LogInUnknown(t: Trace, nodes: seq<Broker>, i: nat, c: ClientId) returns (t': Trace)
    requires At(t, nodes, []) && |nodes| == 3 && i < 3 && nodes[i] == INIT
    requires forall j :: 0 <= j < 3 ==> c !in nodes[j].sessions
    ensures At(t', nodes[i := Alone(NewSession(c))], [])
  {
    TwoLogins(i, c);
    var out, nodes' := Broadcast(i, 3, NetLogin(c)), nodes[i := Alone(NewSession(c))];
    hide At, Broadcast, NewSession, Alone, Without1;
    t' := LogIn(t, nodes, [], i, c);
    t' := Ignored(t', nodes', out, 0);
    t' := Ignored(t', nodes', [out[1]], 0);
  }

  // An event of a node's own of which the other nodes hear nothing.
  lemma Quietly(t: Trace, nodes: seq<Broker>, net: seq<Envelope>, i: nat, e: Event, o: Oracle, b': Broker)
    returns (t': Trace)
    requires At(t, nodes, net) && i < |nodes| && !IsClusterEvent(e) && (i == 1 ==> NoFanOut(e))
    requires Valid(nodes[i], Choice(e, o)) && Step(nodes[i], Choice(e, o)) == Running(b')
    requires b'.clusterOut == nodes[i].clusterOut
    ensures At(t', nodes[i := b'], net)
  {
    hide At, Step, Valid, SendsOf;
    SendsIs(i, |nodes|, nodes[i], b', i);
    assert net + [] == net;
    t' := Handle(t, nodes, net, i, Choice(e, o), b');
  }

  lemma SubscribesAndLeaves(c: ClientId, topic: GoString)
    ensures var x := NewSession(c);
            var y, e1, e2 := x.(subs := map[topic := 1]), Sub(c, [Filter(topic, 1)]), GoOffline(c);
            && Valid(Alone(x), Choice(e1, NO_CHOICE)) && Step(Alone(x), Choice(e1, NO_CHOICE)) == Running(Alone(y))
            && Valid(Alone(y), Choice(e2, NO_CHOICE))
            && Step(Alone(y), Choice(e2, NO_CHOICE)) == Running(Alone(Away(c, topic)))
            && Alone(x).clusterOut == Alone(y).clusterOut == Alone(Away(c, topic)).clusterOut
  {
    var x := NewSession(c);
    NewSessionIs(c);
    OneFilter(topic, 1);
    hide NewSession;
    AloneSteps(x, NO_CHOICE);
    AloneSteps(x.(subs := map[topic := 1]), NO_CHOICE);
  }

  lemma AwayAtZero(c: ClientId, topic: GoString) returns (t: Trace)
    ensures At(t, [Alone(Away(c, topic)), INIT, INIT], [])
  {
    var x := NewSession(c);
    var a, b, e := Alone(x), Alone(x.(subs := map[topic := 1])), Alone(Away(c, topic));
    SubscribesAndLeaves(c, topic);
    hide At, Step, Valid, NewSession, Alone, Away;
    t := Begin(3);
    assert seq(3, _ => INIT) == [INIT, INIT, INIT];
    t := LogInUnknown(t, [INIT, INIT, INIT], 0, c);
    assert [INIT, INIT, INIT][0 := a] == [a, INIT, INIT];
    t := Quietly(t, [a, INIT, INIT], [], 0, Sub(c, [Filter(topic, 1)]), NO_CHOICE, b);
    assert [a, INIT, INIT][0 := b] == [b, INIT, INIT];
    t := Quietly(t, [b, INIT, INIT], [], 0, GoOffline(c), NO_CHOICE, e);
    assert [b, INIT, INIT][0 := e] == [e, INIT, INIT];
  }

  // Nobody at d's node has subscribed to m's topic.
  lemma NobodySubscribed(d: ClientId, m: Publish)
    requires m.qos == 1
    ensures var b, ch := Alone(NewSession(d)), Choice(Pub(d, m), Oracle(map[], [d]));
            Valid(b, ch) && Step(b, ch) == Running(b)
  {
    NewSessionIs(d);
    var b := Alone(NewSession(d));
    var f, o := FanOut(b.sessions, m, FromPublish), Oracle(map[], [d]);
    hide NewSession, FanOut.Lead;
    assert FanOutOf(b, Pub(d, m)) == Some(f) && [d][0] == d;
    SpreadOne(f, o, d);
    hide FanOut.Spread;
  }

  lemma ForwardSends(d: ClientId, m: Publish)
    ensures var b, b', ch := Alone(NewSession(d)), Publisher(d, m), Choice(Forward(d, m), NO_CHOICE);
            && Valid(b, ch) && Step(b, ch) == Running(b')
            && SendsOf(2, 3, b, b', 2) == [Envelope(2, 0, NetPublish(m)), Envelope(2, 1, NetPublish(m))]
  {
    NewSessionIs(d);
    ToOthers(NetPublish(m));
    SendsIs(2, 3, Alone(NewSession(d)), Publisher(d, m), 2);
    hide NewSession, Broadcast, SendsOf;
    assert Publisher(d, m).clusterOut == Alone(NewSession(d)).clusterOut + [PublicMsg(m)];
  }

  // d logs in at node 2 and publishes, and the other nodes are sent the publish.
  lemma PublishedAtTwo(t: Trace, a: Broker, d: ClientId, m: Publish) returns (t': Trace)
    requires At(t, [a, INIT, INIT], []) && m.qos == 1 && d !in a.sessions
    ensures At(t', [a, INIT, Publisher(d, m)], [Envelope(2, 0, NetPublish(m)), Envelope(2, 1, NetPublish(m))])
  {
    var b, b', out := Alone(NewSession(d)), Publisher(d, m), [Envelope(2, 0, NetPublish(m)), Envelope(2, 1, NetPublish(m))];
    NobodySubscribed(d, m);
    ForwardSends(d, m);
    hide At, Step, Valid, NewSession, Alone, Broadcast, Publisher, SendsOf;
    t' := LogInUnknown(t, [a, INIT, INIT], 2, d);
    assert [a, INIT, INIT][2 := b] == [a, INIT, b] && [] + out == out;
    t' := Quietly(t', [a, INIT, b], [], 2, Pub(d, m), Oracle(map[], [d]), b);
    assert [a, INIT, b][2 := b] == [a, INIT, b] && [a, INIT, b][2 := b'] == [a, INIT, b'];
    t' := Handle(t', [a, INIT, b], [], 2, Choice(Forward(d, m), NO_CHOICE), b');
  }

  // A publish is delivered to a node with the one session x, which has subscribed.
  lemma ReachesOne(t: Trace, nodes: seq<Broker>, net: seq<Envelope>, k: nat, x: Session, m: Publish, id: uint16)
    returns (t': Trace)
    requires At(t, nodes, net) && k < |net| && net[k].dst < |nodes| && net[k].src < |nodes|
    requires net[k].body == NetPublish(m) && nodes[net[k].dst] == Alone(x) && m.topic in x.subs && CanDraw(x, id)
    ensures var y := Receive(FromCluster, x, m.WithId(id), []);
            y.clientId == x.clientId && At(t', nodes[net[k].dst := Alone(y)], Without1(net, k))
  {
    var c, b, y := x.clientId, Alone(x), Receive(FromCluster, x, m.WithId(id), []);
    var f, o := FanOut(b.sessions, m, FromCluster), Oracle(map[c := id], [c]);
    assert y.clientId == c;
    assert FanOutOf(b, ClusterPub(m)) == Some(f) && [c][0] == c && EventOf(net[k]) == ClusterPub(m);
    hide Receive, At, SendsOf;
    SpreadOne(f, o, c);
    assert Step(b, Choice(ClusterPub(m), o)) == Running(Alone(y)) && Valid(b, Choice(ClusterPub(m), o)) by {
      hide FanOut.Spread;
    }
    hide Step, Valid, EventOf;
    SendsIs(net[k].dst, |nodes|, b, Alone(y), net[k].src);
    assert Without1(net, k) + [] == Without1(net, k);
    t' := Hand(t, nodes, net, k, o, Alone(y));
  }

  lemma WaitingIs(c: ClientId, m: Publish)
    requires m.qos == 1
    ensures var x, y := Away(c, m.topic), Waiting(c, m.WithId(1));
            && Receive(FromCluster, x, m.WithId(1), []) == y && CanDraw(x, 1) && x.clientId == y.clientId == c
            && m.topic in x.subs && InfoOf(y) == ClientInfo(c, map[m.topic := 1], [m.WithId(1)])
  {
    NewSessionIs(c);
    hide NewSession;
    assert [] + [m.WithId(1)] == [m.WithId(1)];
  }

  // c subscribes at node 0 and goes away; d publishes m at node 2, and m waits for c. It is still on its way
  // to node 1.
  lemma MessageWaits(c: ClientId, d: ClientId, m: Publish) returns (t: Trace)
    requires c != d && m.qos == 1
    ensures At(t, [Alone(Waiting(c, m.WithId(1))), INIT, Publisher(d, m)], [Envelope(2, 1, NetPublish(m))])
  {
    var x, y, b := Away(c, m.topic), Waiting(c, m.WithId(1)), Publisher(d, m);
    var p20, p21 := Envelope(2, 0, NetPublish(m)), Envelope(2, 1, NetPublish(m));
    WaitingIs(c, m);
    assert Alone(x).sessions == map[c := x];
    hide At, NewSession, Alone, Away, Waiting, Publisher, Receive, CanDraw;
    t := AwayAtZero(c, m.topic);
    t := PublishedAtTwo(t, Alone(x), d, m);
    t := ReachesOne(t, [Alone(x), INIT, b], [p20, p21], 0, x, m, 1);
    assert [Alone(x), INIT, b][0 := Alone(y)] == [Alone(y), INIT, b] && Without1([p20, p21], 0) == [p21];
  }

  // c moves from node 0 to node 1, with its queue.
  lemma MovesToOne(t: Trace, x: Session, b: Broker, net: seq<Envelope>) returns (t': Trace)
    requires At(t, [Alone(x), INIT, b], net) && x.clientId !in b.sessions
    ensures At(t', [Evicted(x), Alone(NewSession(x.clientId)), b], net + [Envelope(0, 1, NetInfo(InfoOf(x)))])
  {
    var c, a, b1, n := x.clientId, Alone(x), Alone(NewSession(x.clientId)), |net|;
    var l10, l12, h := Envelope(1, 0, NetLogin(c)), Envelope(1, 2, NetLogin(c)), Envelope(0, 1, NetInfo(InfoOf(x)));
    ToOthers(NetLogin(c));
    assert Without1(net + [l10, l12], n + 1) == net + [l10] && Without1(net + [l10], n) + [h] == net + [h];
    hide At, Broadcast, Alone, Evicted, NewSession, InfoOf;
    t' := LogIn(t, [a, INIT, b], net, 1, c);
    assert [a, INIT, b][1 := b1] == [a, b1, b] && (net + [l10, l12])[n + 1] == l12 && (net + [l10])[n] == l10;
    t' := Ignored(t', [a, b1, b], net + [l10, l12], n + 1);
    t' := Evicting(t', [a, b1, b], net + [l10], n, x);
    assert [a, b1, b][0 := Evicted(x)] == [Evicted(x), b1, b];
  }

  // A publish reaches an empty node.
  lemma ReachesNobody(t: Trace, a: Broker, b: Broker, p: Envelope) returns (t': Trace)
    requires At(t, [a, INIT, b], [p]) && p.dst == 1 && p.src < 3 && p.body.NetPublish?
    ensures At(t', [a, INIT, b], [])
  {
    var ch := Choice(EventOf(p), NO_CHOICE);
    assert FanOut(INIT.sessions, p.body.m, FromCluster).Spread(NO_CHOICE) == map[];
    assert Valid(INIT, ch) && Step(INIT, ch) == Running(INIT);
    hide At, Step, Valid, EventOf, SendsOf;
    SendsIs(1, 3, INIT, INIT, p.src);
    assert [a, INIT, b][1 := INIT] == [a, INIT, b] && Without1([p], 0) + [] == [];
    t' := Hand(t, [a, INIT, b], [p], 0, NO_CHOICE, INIT);
  }

  // A hand-off reaches node 1, which has the session x of its client.
  lemma TakesInfo(t: Trace, a: Broker, x: Session, b: Broker, net: seq<Envelope>, k: nat, info: ClientInfo)
    returns (t': Trace)
    requires At(t, [a, Alone(x), b], net) && k < |net| && net[k] == Envelope(0, 1, NetInfo(info))
    requires info.clientId == x.clientId
    ensures var y := Replay(x, info.offline).(subs := x.subs + info.subs);
            At(t', [a, Alone(y), b], Without1(net, k))
    ensures t'.actions == t.actions + [Deliver(k, NO_CHOICE, Everyone(3))] && t'.states == t.states + [Last(t')]
  {
    var y := Replay(x, info.offline).(subs := x.subs + info.subs);
    HandedOver(x, info, NO_CHOICE);
    assert Alone(x).clusterOut == Alone(y).clusterOut;
    hide At, Step, Valid, Alone, SendsOf, Replay, Everyone;
    SendsIs(1, 3, Alone(x), Alone(y), 0);
    assert [a, Alone(x), b][1 := Alone(y)] == [a, Alone(y), b] && Without1(net, k) + [] == Without1(net, k);
    t' := Hand(t, [a, Alone(x), b], net, k, NO_CHOICE, Alone(y));
  }

  // ---- the message is lost ----

  // What the delivery of a hand-off to an absent client's session drops.
  lemma DropsAtAbsent(s: System, x: Session, info: ClientInfo, o: Oracle, up: set<nat>)
    requires |s.nodes| == 3 && s.nodes[1] == Alone(x) && !x.online && x.clientId == info.clientId
    requires s.net == [Envelope(0, 1, NetInfo(info))]
    ensures DroppedIn(s, Deliver(0, o, up), info.clientId) == multiset(info.offline)
    ensures FlushedIn(s, Deliver(0, o, up), info.clientId) == multiset{}
  {
    assert Leaving(s.nodes[1], ChoiceOf(s, Deliver(0, o, up)).e, info.clientId) == [];
  }

  // c logs in at node 1 and its connection there ends before the hand-off arrives.
  lemma GoneAgain(c: ClientId, d: ClientId, m: Publish) returns (t: Trace)
    requires c != d && m.qos == 1
    ensures At(t, [Evicted(Waiting(c, m.WithId(1))), Alone(NewSession(c).(online := false)), Publisher(d, m)],
               [Envelope(0, 1, NetInfo(ClientInfo(c, map[m.topic := 1], [m.WithId(1)])))])
  {
    var x, b, y := Waiting(c, m.WithId(1)), Publisher(d, m), NewSession(c);
    var h := Envelope(0, 1, NetInfo(InfoOf(x)));
    WaitingIs(c, m);
    NewSessionIs(c);
    AloneSteps(y, NO_CHOICE);
    assert c !in b.sessions && Valid(Alone(y), Choice(GoOffline(c), NO_CHOICE));
    assert Alone(y).clusterOut == Alone(y.(online := false)).clusterOut;
    hide At, Step, Valid, NewSession, Alone, Evicted, Waiting, Publisher, InfoOf;
    t := MessageWaits(c, d, m);
    t := ReachesNobody(t, Alone(x), b, Envelope(2, 1, NetPublish(m)));
    t := MovesToOne(t, x, b, []);
    assert [] + [h] == [h];
    t := Quietly(t, [Evicted(x), Alone(y), b], [h], 1, GoOffline(c), NO_CHOICE, Alone(y.(online := false)));
    assert [Evicted(x), Alone(y), b][1 := Alone(y.(online := false))] == [Evicted(x), Alone(y.(online := false)), b];
  }

  /** d publishes while c is away from node 0; c logs in at node 1, its session at node 0 is evicted and its
      queue handed over; c's connection at node 1 ends; then the hand-off, the only message in flight, arrives.
      Nothing was withheld, c has its session at node 1, and the message is lost. */
  lemma LostAtAPresentSession(c: ClientId, d: ClientId, m: Publish) returns (t: Trace, k: nat)
    requires c != d && m.qos == 1
    ensures t.IsTrace(3) && k + 1 == |t.actions| && t.states[k].withheld == []
    ensures t.states[k].net == [Envelope(0, 1, NetInfo(ClientInfo(c, map[m.topic := 1], [m.WithId(1)])))]
    ensures Holds(t.states[k], 1, c) && t.actions[k].Deliver?
    ensures DroppedIn(t.states[k], t.actions[k], c) == multiset{m.WithId(1)}
    ensures FlushedIn(t.states[k], t.actions[k], c) == multiset{}
  {
    var info := ClientInfo(c, map[m.topic := 1], [m.WithId(1)]);
    var x, a, b := NewSession(c).(online := false), Evicted(Waiting(c, m.WithId(1))), Publisher(d, m);
    NewSessionIs(c);
    assert c in Alone(x).sessions;
    hide At, NewSession, Evicted, Waiting, Publisher, DroppedIn, FlushedIn, Replay;
    t := GoneAgain(c, d, m);
    Reached(t, [a, Alone(x), b], [Envelope(0, 1, NetInfo(info))]);
    k := |t.actions|;
    DropsAtAbsent(Last(t), x, info, NO_CHOICE, Everyone(3));
    hide Alone, Everyone;
    t := TakesInfo(t, a, x, b, [Envelope(0, 1, NetInfo(info))], 0, info);
    Reached(t, [a, Alone(Replay(x, info.offline).(subs := x.subs + info.subs)), b],
            Without1([Envelope(0, 1, NetInfo(info))], 0));
  }

  // ---- the message is written twice ----

  // c's session at node 1 with what was handed over, and with the late publish.
  function Moved(c: ClientId, m: Publish): Session {
    Replay(NewSession(c), [m.WithId(1)]).(subs := map[m.topic := 1])
  }

  function Twice(c: ClientId, m: Publish): Session {
    SendQos1(Moved(c, m), m.WithId(2), [])
  }

  lemma MovedIs(c: ClientId, m: Publish)
    requires m.qos == 1
    ensures var x := Moved(c, m);
            && x.online && x.subs == map[m.topic := 1] && x.status == map[] && x.offline == [] && x.clientId == c
            && x.out == [[ConnackPkt], [PublishPkt(m.WithId(1))]]
            && Receive(FromCluster, x, m.WithId(2), []) == Twice(c, m)
  {
    NewSessionIs(c);
    var q := [m.WithId(1)];
    hide NewSession;
    assert q[..0] == [] && ReplayStatus(map[], []) == map[] && ReplayStatus(map[], q) == map[];
    assert Singles([]) == [] && Singles(q) == [] + [[PublishPkt(q[0])]] == [[PublishPkt(q[0])]];
  }

  // The hand-off and then the publish reach node 1.
  lemma BothArrive(t: Trace, a: Broker, c: ClientId, b: Broker, m: Publish) returns (t': Trace)
    requires m.qos == 1
    requires At(t, [a, Alone(NewSession(c)), b],
                [Envelope(2, 1, NetPublish(m)), Envelope(0, 1, NetInfo(ClientInfo(c, map[m.topic := 1], [m.WithId(1)])))])
    ensures At(t', [a, Alone(Twice(c, m)), b], [])
  {
    var info, p21 := ClientInfo(c, map[m.topic := 1], [m.WithId(1)]), Envelope(2, 1, NetPublish(m));
    var h, x, y, z := Envelope(0, 1, NetInfo(info)), NewSession(c), Moved(c, m), Twice(c, m);
    NewSessionIs(c);
    MovedIs(c, m);
    assert y == Replay(x, info.offline).(subs := x.subs + info.subs) by { assert map[] + info.subs == info.subs; }
    assert CanDraw(y, 2) && Without1([p21, h], 1) == [p21] && Without1([p21], 0) == [];
    hide At, NewSession, Alone, Moved, Twice, Receive, Replay;
    t' := TakesInfo(t, a, x, b, [p21, h], 1, info);
    t' := ReachesOne(t', [a, Alone(y), b], [p21], 0, y, m, 2);
    assert [a, Alone(y), b][1 := Alone(z)] == [a, Alone(z), b];
  }

  // What c's session at node 1 was written, and what the other nodes have forwarded.
  lemma TwoCopies(c: ClientId, m: Publish)
    requires m.qos == 1
    ensures CopiesOf(Alone(Twice(c, m)), c) == multiset{m.Content(), m.Content()}
  {
    MovedIs(c, m);
    var x := m.Content();
    var w1, w2 := PublishPkt(m.WithId(1)), PublishPkt(m.WithId(2));
    hide Moved;
    IdealBroker.DeliveredSingle(AsIntended, [], ConnackPkt);
    IdealBroker.DeliveredSingle(AsIntended, [[ConnackPkt]], w1);
    IdealBroker.DeliveredSingle(AsIntended, [[ConnackPkt], [w1]], w2);
    assert [] + [[ConnackPkt]] == [[ConnackPkt]] && [[ConnackPkt]] + [[w1]] == [[ConnackPkt], [w1]] && [] + [w2] == [w2];
    hide IdealBroker.Delivered;
    assert IdealBroker.View(AsIntended, Twice(c, m)).delivered == [x, x] && IdealBroker.View(AsIntended, Twice(c, m)).queue == [];
  }

  lemma ForwardsTwo(x: ClusterMsg, y: ClusterMsg)
    requires !x.PublicMsg?
    ensures ForwardsOf([x, y]) == if y.PublicMsg? then multiset{y.m.Content()} else multiset{}
  {
    ForwardsOne([], x);
    ForwardsOne([x], y);
    assert [] + [x] == [x] && [x] + [y] == [x, y] && ForwardsOf([]) == multiset{};
  }

  lemma OneForward(x: Session, b: Broker, d: ClientId, m: Publish)
    ensures ForwardedTo([Evicted(x), b, Publisher(d, m)], 1) == multiset{m.Content()}
  {
    var a, e := Evicted(x), Publisher(d, m);
    ForwardsTwo(a.clusterOut[0], a.clusterOut[1]);
    ForwardsTwo(LoginMsg(d), PublicMsg(m));
    assert a.clusterOut == [a.clusterOut[0], a.clusterOut[1]];
    hide ForwardsOf;
    assert [a, b, e][..2] == [a, b] && [a, b][..1] == [a] && [a][..0] == [];
    assert ForwardedTo([a], 1) == ForwardsOf(a.clusterOut) && ForwardedTo([a, b], 1) == ForwardedTo([a], 1);
  }

  lemma {:induction false} NothingCompleted(t: Trace, k: nat)
    requires |t.states| == |t.actions| + 1 && k < |t.states| && SilentAtOne(t.actions)
    ensures CompletedAt(t, k, 1) == multiset{}
  {
    if k > 0 {
      NothingCompleted(t, k - 1);
    }
  }

  lemma BothArriveAtOne(c: ClientId, d: ClientId, m: Publish) returns (t: Trace)
    requires c != d && m.qos == 1
    ensures At(t, [Evicted(Waiting(c, m.WithId(1))), Alone(Twice(c, m)), Publisher(d, m)], [])
  {
    var x, b := Waiting(c, m.WithId(1)), Publisher(d, m);
    var p21, h := Envelope(2, 1, NetPublish(m)), Envelope(0, 1, NetInfo(InfoOf(x)));
    WaitingIs(c, m);
    assert c !in b.sessions && [p21] + [h] == [p21, h];
    hide At, Alone, NewSession, Twice, Evicted, Waiting, Publisher, InfoOf;
    t := MessageWaits(c, d, m);
    t := MovesToOne(t, x, b, [p21]);
    t := BothArrive(t, Evicted(x), c, b, m);
  }

  /** A client that moves can get a message twice: d publishes once, at node 2; the publish reaches node 0,
      where it waits for c; c logs in at node 1 and its queue is handed over; then the same publish reaches
      node 1. Nothing was completed at node 1 and nothing was withheld. */
  lemma TwiceAfterMoving(c: ClientId, d: ClientId, m: Publish) returns (t: Trace)
    requires c != d && m.qos == 1
    ensures t.IsTrace(3) && Last(t).withheld == [] && Last(t).net == [] && |Last(t).nodes| == 3
    ensures CompletedAt(t, |t.actions|, 1) == multiset{} && ForwardedTo(Last(t).nodes, 1) == multiset{m.Content()}
    ensures CopiesOf(Last(t).nodes[1], c) == multiset{m.Content(), m.Content()}
  {
    var x, z := Waiting(c, m.WithId(1)), Alone(Twice(c, m));
    hide Trace.IsTrace, At, Alone, Twice, Evicted, Waiting, Publisher, CopiesOf, ForwardedTo, CompletedAt, SilentAtOne;
    TwoCopies(c, m);
    OneForward(x, z, d, m);
    t := BothArriveAtOne(c, d, m);
    Reached(t, [Evicted(x), z, Publisher(d, m)], []);
    NothingCompleted(t, |t.actions|);
  }
}
