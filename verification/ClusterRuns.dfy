// Building runs of the cluster step by step, for the runs that show why a condition is needed. Every step finds
// every node held alive.
module ClusterRuns {
  import opened MqttTypes
  import opened Dispatcher
  import opened ClusterSystem

  // For the events that draw nothing.
  const NO_CHOICE := Oracle(map[], [])

  function Last(t: Trace): System
    requires |t.states| == |t.actions| + 1
  {
    t.states[|t.actions|]
  }

  function Everyone(n: nat): (up: set<nat>)
    ensures forall i: nat :: i in up <==> i < n
  {
    if n == 0 then {} else Everyone(n - 1) + {n - 1}
  }

  predicate NoFanOut(e: Event) {
    !e.Pub? && !e.Pubrel? && !e.ClusterPub?
  }

  // The clients of node 1 publish nothing.
  predicate SilentAtOne(actions: seq<Action>) {
    forall j :: 0 <= j < |actions| && actions[j].Local? && actions[j].i == 1 ==> NoFanOut(actions[j].ch.e)
  }

  // A run that has come to these nodes and messages in flight, with nothing withheld.
  ghost predicate At(t: Trace, nodes: seq<Broker>, net: seq<Envelope>) {
    && t.IsTrace(|nodes|) && SilentAtOne(t.actions)
    && Last(t).nodes == nodes && Last(t).net == net && Last(t).withheld == []
  }

  lemma Begin(n: nat) returns (t: Trace)
    ensures At(t, seq(n, _ => INIT), []) && t.actions == []
  {
    Start(n);
    t := Trace([InitSystem(n)], []);
  }

  // One more step.
  lemma Go(t: Trace, nodes: seq<Broker>, net: seq<Envelope>, a: Action, s: System) returns (t': Trace)
    requires At(t, nodes, net) && Next(Last(t), a, s) && |s.nodes| == |nodes| && s.withheld == []
    requires a.Local? && a.i == 1 ==> NoFanOut(a.ch.e)
    ensures At(t', s.nodes, s.net) && t'.actions == t.actions + [a] && t'.states == t.states + [s]
  {
    hide Next;
    Extended(t, |nodes|, a, s);
    t' := Then(t, a, s);
  }

  lemma AllHeard(i: nat, n: nat, b: Broker, b': Broker, replyTo: nat)
    requires i < n && replyTo < n
    ensures var out := SendsOf(i, n, b, b', replyTo);
            Allowed(out, Everyone(n)) == out && Refused(out, Everyone(n)) == []
  {
    var out := SendsOf(i, n, b, b', replyTo);
    forall e | e in out ensures e.dst in Everyone(n) {
      match Emitted(b, b')[0] {
        case LoginMsg(c) => BroadcastHas(i, n, NetLogin(c), e);
        case PublicMsg(m) => BroadcastHas(i, n, NetPublish(m), e);
        case ClientInfoMsg(_, _) =>
      }
    }
    AllowedAll(out, Everyone(n));
  }

  lemma OwnNext(s: System, i: nat, ch: Choice, b': Broker)
    requires i < |s.nodes| && !IsClusterEvent(ch.e) && Valid(s.nodes[i], ch) && Step(s.nodes[i], ch) == Running(b')
    ensures var n, out := |s.nodes|, SendsOf(i, |s.nodes|, s.nodes[i], b', i);
            Next(s, Local(i, ch, Everyone(n)), System(s.nodes[i := b'], s.net + out, s.log, s.withheld))
  {
    hide Step, Valid, Allowed, Refused, SendsOf, Everyone;
    AllHeard(i, |s.nodes|, s.nodes[i], b', i);
    assert s.log + [] == s.log && s.withheld + [] == s.withheld;
  }

  // A node handles an event of its own.
  lemma Handle(t: Trace, nodes: seq<Broker>, net: seq<Envelope>, i: nat, ch: Choice, b': Broker) returns (t': Trace)
    requires At(t, nodes, net) && i < |nodes| && !IsClusterEvent(ch.e) && (i == 1 ==> NoFanOut(ch.e))
    requires Valid(nodes[i], ch) && Step(nodes[i], ch) == Running(b')
    ensures At(t', nodes[i := b'], net + SendsOf(i, |nodes|, nodes[i], b', i))
    ensures t'.actions == t.actions + [Local(i, ch, Everyone(|nodes|))]
  {
    var s, out := Last(t), SendsOf(i, |nodes|, nodes[i], b', i);
    hide Next, Step, Valid, SendsOf, Trace.IsTrace, SilentAtOne, Everyone;
    OwnNext(s, i, ch, b');
    t' := Go(t, nodes, net, Local(i, ch, Everyone(|nodes|)), System(nodes[i := b'], net + out, s.log, []));
  }

  lemma SentNext(s: System, k: nat, o: Oracle, b': Broker)
    requires k < |s.net| && s.net[k].dst < |s.nodes| && s.net[k].src < |s.nodes|
    requires var b, ch := s.nodes[s.net[k].dst], Choice(EventOf(s.net[k]), o);
             Valid(b, ch) && Step(b, ch) == Running(b')
    ensures var n, e := |s.nodes|, s.net[k];
            var out := SendsOf(e.dst, n, s.nodes[e.dst], b', e.src);
            Next(s, Deliver(k, o, Everyone(n)),
                 System(s.nodes[e.dst := b'], Without1(s.net, k) + out, s.log + [e], s.withheld))
  {
    var e := s.net[k];
    hide Step, Valid, Allowed, Refused, SendsOf, EventOf, Everyone;
    AllHeard(e.dst, |s.nodes|, s.nodes[e.dst], b', e.src);
    assert s.withheld + [] == s.withheld;
  }

  // A message in flight is delivered.
  lemma Hand(t: Trace, nodes: seq<Broker>, net: seq<Envelope>, k: nat, o: Oracle, b': Broker) returns (t': Trace)
    requires At(t, nodes, net) && k < |net| && net[k].dst < |nodes| && net[k].src < |nodes|
    requires var b, ch := nodes[net[k].dst], Choice(EventOf(net[k]), o); Valid(b, ch) && Step(b, ch) == Running(b')
    ensures var e := net[k];
            At(t', nodes[e.dst := b'], Without1(net, k) + SendsOf(e.dst, |nodes|, nodes[e.dst], b', e.src))
    ensures t'.actions == t.actions + [Deliver(k, o, Everyone(|nodes|))] && t'.states == t.states + [Last(t')]
  {
    var s, e := Last(t), net[k];
    var out := SendsOf(e.dst, |nodes|, nodes[e.dst], b', e.src);
    hide Next, Step, Valid, SendsOf, EventOf, Trace.IsTrace, SilentAtOne, Everyone, Without1;
    SentNext(s, k, o, b');
    t' := Go(t, nodes, net, Deliver(k, o, Everyone(|nodes|)),
             System(nodes[e.dst := b'], Without1(net, k) + out, s.log + [e], []));
  }

  // What is sent, from the dispatcher's output.
  lemma SendsIs(i: nat, n: nat, b: Broker, b': Broker, replyTo: nat)
    ensures b'.clusterOut == b.clusterOut ==> SendsOf(i, n, b, b', replyTo) == []
    ensures forall x :: b'.clusterOut == b.clusterOut + [x] ==> SendsOf(i, n, b, b', replyTo) == Sends(i, n, x, replyTo)
  {
  }

  // ---- steps of one node ----

  // A session as the first login of its client leaves it.
  function NewSession(c: ClientId): Session {
    Login(FreshSession(c), c, false)
  }

  lemma NewSessionIs(c: ClientId)
    ensures var s := NewSession(c);
            && s.online && s.subs == map[] && s.offline == [] && s.status == map[] && s.out == [[ConnackPkt]]
            && s.clientId == c
  {
    assert [] + [[ConnackPkt]] + [] == [[ConnackPkt]];
  }

  // A node with one session, whose login it has announced.
  function Alone(x: Session): Broker {
    Broker(map[x.clientId := x], [LoginMsg(x.clientId)])
  }

  function InfoOf(x: Session): ClientInfo {
    ClientInfo(x.clientId, x.subs, x.offline)
  }

  function Evicted(x: Session): Broker {
    Broker(map[], [LoginMsg(x.clientId), ClientInfoMsg(InfoOf(x), [])])
  }

  // What the login, the subscription, the end of the connection and the login elsewhere of one client do.
  lemma AloneSteps(x: Session, o: Oracle)
    ensures var c := x.clientId;
            && Step(INIT, Choice(Add(c, false), o)) == Running(Alone(NewSession(c)))
            && Step(Alone(x), Choice(GoOffline(c), o)) == Running(Alone(x.(online := false)))
            && Step(Alone(x), Choice(ClusterLogin(c, []), o)) == Running(Evicted(x))
            && forall f :: Step(Alone(x), Choice(Sub(c, f), o)) == Running(Alone(x.(subs := LastWins(x.subs, f))))
  {
    var c := x.clientId;
    NewSessionIs(c);
    hide LastWins, Login;
    assert INIT.sessions[c := NewSession(c)] == map[c := NewSession(c)] && [] + [LoginMsg(c)] == [LoginMsg(c)];
    assert forall y: Session :: map[c := x][c := y] == map[c := y];
    assert map[c := x] - {c} == map[] && [LoginMsg(c)] + [ClientInfoMsg(InfoOf(x), [])] == Evicted(x).clusterOut;
  }

  lemma HandedOver(x: Session, info: ClientInfo, o: Oracle)
    requires info.clientId == x.clientId
    ensures var ch := Choice(ClusterLoginInfo(info), o);
            && Valid(Alone(x), ch)
            && Step(Alone(x), ch) == Running(Alone(Replay(x, info.offline).(subs := x.subs + info.subs)))
  {
    hide ReplayStatus, Singles;
    assert forall y: Session :: map[x.clientId := x][x.clientId := y] == map[x.clientId := y];
  }

  lemma OneFilter(t: GoString, qos: byte)
    ensures LastWins(map[], [Filter(t, qos)]) == map[t := qos]
  {
    assert [Filter(t, qos)][..0] == [];
    assert LastWins(map[], []) == map[];
  }

  // A fan-out over one client.
  lemma SpreadOne(f: FanOut, o: Oracle, c: ClientId)
    requires f.sessions.Keys == {c}
    ensures f.Spread(o) == map[c := Receive(f.path, f.sessions[c], f.Copy(o.pick, c), f.Lead(o, c))]
  {
    hide Receive, FanOut.Lead, FanOut.Copy;
  }
}
