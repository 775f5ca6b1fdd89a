// QoS 2 on the way in (section 4.3.3 of MQTT 3.1.1): a message is stored on PUBLISH and released
// on PUBREL, exactly once, over whole runs.
module ExactlyOnce {
  import opened MqttTypes
  import opened Dispatcher
  import opened Invariants

  // ---- what the history of handled events says, without looking at any session ----

  // c has a session after these steps.
  predicate Present(steps: seq<Choice>, c: ClientId) {
    if steps == [] then false
    else
      var n := |steps| - 1;
      match steps[n].e
      case Add(d, _) => d == c || Present(steps[..n], c)
      case Del(d) => d != c && Present(steps[..n], c)
      case ClusterLogin(d, _) => d != c && Present(steps[..n], c)
      case _ => Present(steps[..n], c)
  }

  // The QoS 2 PUBLISH of identifier id from c that no PUBREL and no removal of the session has followed.
  function Latest(steps: seq<Choice>, c: ClientId, id: uint16): Option<Publish> {
    if steps == [] then None
    else
      var n := |steps| - 1;
      var before := Latest(steps[..n], c, id);
      match steps[n].e
      case Pub(d, m) =>
        if d == c && m.qos == 2 && m.packetId == id && Present(steps[..n], c) then Some(m) else before
      case Pubrel(d, i) => if d == c && i == id then None else before
      case Del(d) => if d == c then None else before
      case ClusterLogin(d, _) => if d == c then None else before
      case _ => before
  }

  // ---- what the session says ----

  function Inbound(b: Broker, c: ClientId, id: uint16): Option<Publish> {
    if Waits(b, c, id, WaitPubrel) && id in b.sessions[c].cache then Some(b.sessions[c].cache[id]) else None
  }

  // What one event should do to the stored message.
  function InboundAfter(b: Broker, e: Event, c: ClientId, id: uint16): Option<Publish> {
    match e
    case Pub(d, m) =>
      if d == c && m.qos == 2 && m.packetId == id && c in b.sessions then Some(m) else Inbound(b, c, id)
    case Pubrel(d, i) => if d == c && i == id then None else Inbound(b, c, id)
    case Del(d) => if d == c then None else Inbound(b, c, id)
    case ClusterLogin(d, _) => if d == c then None else Inbound(b, c, id)
    case _ => Inbound(b, c, id)
  }

  // A replay is about to overwrite the PUBREL status of a stored message.
  predicate Clash(b: Broker, e: Event, c: ClientId, id: uint16) {
    Waits(b, c, id, WaitPubrel) && Replays(b, e, c, id)
  }

  lemma SpreadCache(f: FanOut, o: Oracle, c: ClientId, id: uint16)
    requires c in f.sessions && f.ValidOracle(o)
    requires id in f.sessions[c].status && id in f.sessions[c].cache
    ensures id in f.Spread(o)[c].cache && f.Spread(o)[c].cache[id] == f.sessions[c].cache[id]
  {
    if f.Matches(c) {
      assert CanDraw(f.sessions[c], o.pick[c]);
    }
  }

  // A stored message that stays stored is the same message.
  lemma CacheStays(b: Broker, ch: Choice, b': Broker, c: ClientId, id: uint16)
    requires Inv(b) && Valid(b, ch) && Step(b, ch) == Running(b')
    requires Waits(b, c, id, WaitPubrel) && c in b'.sessions
    requires ch.e != Pubrel(c, id)
    requires !(ch.e.Pub? && ch.e.c == c && ch.e.m.qos == 2 && ch.e.m.packetId == id)
    ensures id in b'.sessions[c].cache && b'.sessions[c].cache[id] == b.sessions[c].cache[id]
  {
    if FanOutOf(b, ch.e).Some? {
      CacheStaysFanOut(b, ch, c, id);
    } else {
      CacheStaysOther(b, ch, b', c, id);
    }
  }

  lemma CacheStaysFanOut(b: Broker, ch: Choice, c: ClientId, id: uint16)
    requires Inv(b) && Valid(b, ch) && FanOutOf(b, ch.e).Some?
    requires Waits(b, c, id, WaitPubrel)
    requires ch.e != Pubrel(c, id)
    requires !(ch.e.Pub? && ch.e.c == c && ch.e.m.qos == 2 && ch.e.m.packetId == id)
    ensures var s' := FanOutOf(b, ch.e).value.Spread(ch.o);
            c in s' && id in s'[c].cache && s'[c].cache[id] == b.sessions[c].cache[id]
  {
    var f := FanOutOf(b, ch.e).value;
    match ch.e {
      case Pub(d, m) =>
      case Pubrel(d, i) =>
      case ClusterPub(m) =>
    }
    assert c in f.sessions && id in f.sessions[c].status && id in f.sessions[c].cache;
    SpreadCache(f, ch.o, c, id);
  }

  lemma CacheStaysOther(b: Broker, ch: Choice, b': Broker, c: ClientId, id: uint16)
    requires Inv(b) && FanOutOf(b, ch.e).None? && Step(b, ch) == Running(b')
    requires Waits(b, c, id, WaitPubrel) && c in b'.sessions
    ensures id in b'.sessions[c].cache && b'.sessions[c].cache[id] == b.sessions[c].cache[id]
  {
    hide ReplayStatus, Singles, LastWins, Without;
  }

  lemma KeysStep(b: Broker, ch: Choice, b': Broker)
    requires Step(b, ch) == Running(b')
    ensures b'.sessions.Keys ==
            match ch.e
            case Add(c, _) => b.sessions.Keys + {c}
            case Del(c) => b.sessions.Keys - {c}
            case ClusterLogin(c, _) => b.sessions.Keys - {c}
            case _ => b.sessions.Keys
  {
  }

  /** One step treats the stored message as it should if and only if no replay clashes with it. */
  lemma InboundStep(b: Broker, ch: Choice, b': Broker, c: ClientId, id: uint16)
    requires Inv(b) && Valid(b, ch) && Step(b, ch) == Running(b')
    ensures Inbound(b', c, id) == InboundAfter(b, ch.e, c, id) <==> !Clash(b, ch.e, c, id)
    ensures Clash(b, ch.e, c, id) ==> Inbound(b', c, id) == None
  {
    KeysStep(b, ch, b');
    if c in b.sessions && c in b'.sessions {
      InboundStepPresent(b, ch, b', c, id);
    } else if c in b'.sessions {
      assert ch.e.Add? && b'.sessions[c] == Login(FreshSession(c), c, ch.e.clear);
    }
  }

  lemma InboundStepPresent(b: Broker, ch: Choice, b': Broker, c: ClientId, id: uint16)
    requires Inv(b) && Valid(b, ch) && Step(b, ch) == Running(b')
    requires c in b.sessions && c in b'.sessions
    ensures Inbound(b', c, id) == InboundAfter(b, ch.e, c, id) <==> !Clash(b, ch.e, c, id)
    ensures Clash(b, ch.e, c, id) ==> Inbound(b', c, id) == None
  {
    InvStep(b, ch, b');
    Lifecycle(b, ch, b', c, id);
    if ch.e.Pub? && ch.e.c == c && ch.e.m.qos == 2 && ch.e.m.packetId == id {
      SpreadCache(FanOutOf(b, ch.e).value, ch.o, c, id);
    } else if Waits(b, c, id, WaitPubrel) && ch.e != Pubrel(c, id) {
      CacheStays(b, ch, b', c, id);
    }
    InboundFromMoves(b, ch, b', c, id);
  }

  // The same, from the identifier's move and the cache entry alone.
  lemma InboundFromMoves(b: Broker, ch: Choice, b': Broker, c: ClientId, id: uint16)
    requires c in b.sessions && c in b'.sessions && SessionInv(c, b.sessions[c]) && SessionInv(c, b'.sessions[c])
    requires Moves(b, ch, c, id, StatusOf(b, c, id), StatusOf(b', c, id))
    requires ch.e.Pub? && ch.e.c == c && ch.e.m.qos == 2 && ch.e.m.packetId == id ==>
               id in b'.sessions[c].cache && b'.sessions[c].cache[id] == ch.e.m
    requires !(ch.e.Pub? && ch.e.c == c && ch.e.m.qos == 2 && ch.e.m.packetId == id) && ch.e != Pubrel(c, id)
             && Waits(b, c, id, WaitPubrel) ==>
               id in b'.sessions[c].cache && b'.sessions[c].cache[id] == b.sessions[c].cache[id]
    requires !(ch.e.Del? && ch.e.c == c) && !(ch.e.ClusterLogin? && ch.e.c == c)
    ensures Inbound(b', c, id) == InboundAfter(b, ch.e, c, id) <==> !Clash(b, ch.e, c, id)
    ensures Clash(b, ch.e, c, id) ==> Inbound(b', c, id) == None
  {
  }

  lemma {:induction false} PresentIsSession(r: Run, k: nat, c: ClientId)
    requires r.IsRun() && k < |r.states|
    ensures Present(r.steps[..k], c) <==> c in r.states[k].sessions
  {
    if k > 0 {
      PresentIsSession(r, k - 1, c);
      assert r.steps[..k][..k - 1] == r.steps[..k - 1];
      KeysStep(r.states[k - 1], r.steps[k - 1], r.states[k]);
    }
  }

  ghost predicate ClashFree(r: Run, k: nat, c: ClientId, id: uint16)
    requires r.IsRun() && k < |r.states|
  {
    forall j :: 0 <= j < k ==> !Clash(r.states[j], r.steps[j].e, c, id)
  }

  // The history function takes the same step as the session should.
  lemma LatestStep(steps: seq<Choice>, n: nat, b: Broker, c: ClientId, id: uint16)
    requires |steps| == n + 1
    requires Present(steps[..n], c) <==> c in b.sessions
    requires Latest(steps[..n], c, id) == Inbound(b, c, id)
    ensures Latest(steps, c, id) == InboundAfter(b, steps[n].e, c, id)
  {
  }

  lemma {:induction false} InboundIsLatest(r: Run, k: nat, c: ClientId, id: uint16)
    requires r.IsRun() && k < |r.states| && ClashFree(r, k, c, id)
    ensures Inbound(r.states[k], c, id) == Latest(r.steps[..k], c, id)
  {
    if k > 0 {
      InboundIsLatest(r, k - 1, c, id);
      assert r.steps[..k][..k - 1] == r.steps[..k - 1];
      InvRun(r, k - 1);
      PresentIsSession(r, k - 1, c);
      InboundStep(r.states[k - 1], r.steps[k - 1], r.states[k], c, id);
      LatestStep(r.steps[..k], k - 1, r.states[k - 1], c, id);
    }
  }

  // ---- release ----

  ghost predicate SameMessage(x: Publish, y: Publish) {
    x.Content() == y.Content()
  }

  // How a released message reaches one session.
  ghost predicate Gets(s: Session, s': Session, m: Publish, first: seq<Write>) {
    if m.topic !in s.subs then s'.out == s.out + first && s'.offline == s.offline
    else if s.online then
      && s'.offline == s.offline
      && exists x :: SameMessage(x, m) && s'.out == s.out + first + [[PublishPkt(x)]]
    else
      && s'.out == s.out + first
      && exists x :: SameMessage(x, m) && s'.offline == s.offline + [x]
  }

  // The publisher gets a PUBCOMP; m goes once to every subscriber and once to the cluster.
  ghost predicate Released(b: Broker, b': Broker, c: ClientId, id: uint16, m: Publish) {
    && b'.sessions.Keys == b.sessions.Keys
    && (forall d :: d in b.sessions ==>
          Gets(b.sessions[d], b'.sessions[d], m, if d == c then [[PubcompPkt(id)]] else []))
    && exists x :: SameMessage(x, m) && b'.clusterOut == b.clusterOut + [PublicMsg(x)]
  }

  lemma LastCopySame(f: FanOut, pick: map<ClientId, uint16>, order: seq<ClientId>)
    ensures SameMessage(f.LastCopy(pick, order), f.m)
  {
  }

  lemma SpreadGets(b: Broker, ch: Choice, b': Broker, c: ClientId, id: uint16, d: ClientId)
    requires Inv(b) && Step(b, ch) == Running(b') && ch.e == Pubrel(c, id) && Inbound(b, c, id).Some?
    requires d in b.sessions
    ensures d in b'.sessions
    ensures Gets(b.sessions[d], b'.sessions[d], Inbound(b, c, id).value, if d == c then [[PubcompPkt(id)]] else [])
  {
    var f := FanOutOf(b, ch.e).value;
    var s := f.sessions[d];
    var x := f.Copy(ch.o.pick, d);
    assert SameMessage(x, f.m);
    assert b'.sessions[d] == Receive(FromPubrel, s, x, []);
    assert s.out == b.sessions[d].out + (if d == c then [[PubcompPkt(id)]] else []);
    if s.online {
      assert x.topic in s.subs ==> b'.sessions[d].out == s.out + [[] + [PublishPkt(x)]];
      assert [] + [PublishPkt(x)] == [PublishPkt(x)];
    }
  }

  /** Exactly once. In every run, a PUBREL releases the message of the latest PUBLISH with its identifier
      if that PUBLISH is the latest of {QoS 2 PUBLISH, PUBREL, removal of the session}; otherwise it
      changes nothing at all. Other clients, acknowledgements and fan-outs may come in between. */
  lemma PubrelReleasesLatest(r: Run, k: nat, c: ClientId, id: uint16)
    requires r.IsRun() && k < |r.steps| && r.steps[k].e == Pubrel(c, id) && ClashFree(r, k, c, id)
    ensures match Latest(r.steps[..k], c, id)
            case Some(m) => Released(r.states[k], r.states[k + 1], c, id, m)
            case None => r.states[k + 1] == r.states[k]
  {
    var b, b' := r.states[k], r.states[k + 1];
    InboundIsLatest(r, k, c, id);
    InvRun(r, k);
    assert Step(b, r.steps[k]) == Running(b');
    match Latest(r.steps[..k], c, id) {
      case Some(m) =>
        forall d | d in b.sessions
          ensures d in b'.sessions && Gets(b.sessions[d], b'.sessions[d], m, if d == c then [[PubcompPkt(id)]] else [])
        {
          SpreadGets(b, r.steps[k], b', c, id, d);
        }
        KeysStep(b, r.steps[k], b');
        LastCopySame(FanOutOf(b, r.steps[k].e).value, r.steps[k].o.pick, r.steps[k].o.order);
      case None =>
        assert !Waits(b, c, id, WaitPubrel);
    }
  }

  lemma {:induction false} LatestNeedsPublish(steps: seq<Choice>, from: nat, c: ClientId, id: uint16) returns (j: nat)
    requires from < |steps| && steps[from].e == Pubrel(c, id) && Latest(steps, c, id).Some?
    ensures from < j < |steps| && steps[j].e == Pub(c, Latest(steps, c, id).value)
  {
    var n := |steps| - 1;
    var e := steps[n].e;
    if e.Pub? && e.c == c && e.m.qos == 2 && e.m.packetId == id && Present(steps[..n], c) {
      j := n;
    } else {
      assert Latest(steps, c, id) == Latest(steps[..n], c, id);
      assert from < n;
      j := LatestNeedsPublish(steps[..n], from, c, id);
    }
  }

  /** At most once: between two PUBRELs that both release, the client sent that message again. */
  lemma NoSecondRelease(r: Run, k1: nat, k2: nat, c: ClientId, id: uint16) returns (j: nat)
    requires r.IsRun() && k1 < k2 < |r.steps| && ClashFree(r, k2, c, id)
    requires r.steps[k1].e == Pubrel(c, id) && r.steps[k2].e == Pubrel(c, id)
    requires r.states[k2 + 1] != r.states[k2]
    ensures k1 < j < k2 && r.steps[j].e.Pub? && r.steps[j].e.c == c
    ensures r.steps[j].e.m.qos == 2 && r.steps[j].e.m.packetId == id
    ensures Released(r.states[k2], r.states[k2 + 1], c, id, r.steps[j].e.m)
  {
    PubrelReleasesLatest(r, k2, c, id);
    j := LatestNeedsPublish(r.steps[..k2], k1, c, id);
    LatestIsQos2(r.steps[..k2], c, id);
  }

  lemma LatestIsQos2(steps: seq<Choice>, c: ClientId, id: uint16)
    ensures Latest(steps, c, id).Some? ==>
              Latest(steps, c, id).value.qos == 2 && Latest(steps, c, id).value.packetId == id
  {
  }

  // ---- one node alone ----

  // c's goroutine passes a PUBLISH on only while it is logged in, and nothing is handed over for c.
  predicate Alone(b: Broker, e: Event, c: ClientId) {
    && (e.Pub? && e.c == c && c in b.sessions ==> b.sessions[c].online)
    && !(e.ClusterLoginInfo? && e.info.clientId == c)
  }

  // No queued message has the identifier of a stored one.
  ghost predicate QueueApart(s: Session) {
    forall i :: 0 <= i < |s.offline| ==>
      !(s.offline[i].packetId in s.status && s.status[s.offline[i].packetId] == WaitPubrel)
  }

  ghost predicate Apart(b: Broker, c: ClientId) {
    c in b.sessions ==> QueueApart(b.sessions[c])
  }

  lemma ApartReceive(path: Path, s: Session, x: Publish, lead: Write)
    requires QueueApart(s) && (s.online ==> s.offline == []) && (x.topic in s.subs ==> x.packetId !in s.status)
    ensures QueueApart(Receive(path, s, x, lead))
  {
  }

  // What the message's own client looks like when the loop starts.
  lemma ApartStart(b: Broker, e: Event, c: ClientId)
    requires Inv(b) && Apart(b, c) && Alone(b, e, c) && c in b.sessions && FanOutOf(b, e).Some?
    ensures var s := FanOutOf(b, e).value.sessions[c];
            QueueApart(s) && (s.online ==> s.offline == [])
  {
  }

  lemma ApartFanOut(b: Broker, ch: Choice, c: ClientId)
    requires Inv(b) && Valid(b, ch) && Apart(b, c) && Alone(b, ch.e, c) && c in b.sessions && FanOutOf(b, ch.e).Some?
    ensures var s' := FanOutOf(b, ch.e).value.Spread(ch.o); c in s' && QueueApart(s'[c])
  {
    var f := FanOutOf(b, ch.e).value;
    ApartStart(b, ch.e, c);
    assert c in f.sessions;
    if f.Matches(c) {
      assert c in ch.o.pick && CanDraw(f.sessions[c], ch.o.pick[c]);
    }
    hide Inv, FanOutOf, Receive, QueueApart;
    ApartReceive(f.path, f.sessions[c], f.Copy(ch.o.pick, c), f.Lead(ch.o, c));
  }

  lemma ApartOther(b: Broker, ch: Choice, b': Broker, c: ClientId)
    requires Inv(b) && Apart(b, c) && Alone(b, ch.e, c) && Step(b, ch) == Running(b') && FanOutOf(b, ch.e).None?
    ensures Apart(b', c)
  {
    KeysStep(b, ch, b');
    hide ReplayStatus, Singles, LastWins, Without, FanOutOf;
    if c in b.sessions && c in b'.sessions && b'.sessions[c].offline != [] {
      assert b'.sessions[c].offline == b.sessions[c].offline;
    }
  }

  lemma ApartStep(b: Broker, ch: Choice, b': Broker, c: ClientId)
    requires Inv(b) && Valid(b, ch) && Apart(b, c) && Alone(b, ch.e, c) && Step(b, ch) == Running(b')
    ensures Apart(b', c)
    ensures forall id :: !Clash(b, ch.e, c, id)
  {
    if FanOutOf(b, ch.e).Some? {
      KeysStep(b, ch, b');
      if c in b.sessions {
        ApartFanOut(b, ch, c);
      }
    } else {
      ApartOther(b, ch, b', c);
    }
    hide Step, Valid, FanOutOf, FanOut.Spread;
  }

  ghost predicate AloneUpTo(r: Run, k: nat, c: ClientId)
    requires |r.states| == |r.steps| + 1 && k < |r.states|
  {
    forall j :: 0 <= j < k ==> Alone(r.states[j], r.steps[j].e, c)
  }

  lemma {:induction false} AloneNeverClashes(r: Run, k: nat, c: ClientId, id: uint16)
    requires r.IsRun() && k < |r.states| && AloneUpTo(r, k, c)
    ensures Apart(r.states[k], c) && ClashFree(r, k, c, id)
  {
    if k > 0 {
      AloneNeverClashes(r, k - 1, c, id);
      InvRun(r, k - 1);
      hide Step, Valid, Inv, Apart, Clash;
      ApartStep(r.states[k - 1], r.steps[k - 1], r.states[k], c);
    }
  }

  /** Exactly once, without a condition on identifiers: on a node to which nothing is handed over for c, a
      PUBREL of c releases the latest PUBLISH or changes nothing, in every run. (Identifiers drawn for
      queued messages avoid those of stored ones, and while a queue fills its client publishes nothing.) */
  lemma PubrelReleasesLatestAlone(r: Run, k: nat, c: ClientId, id: uint16)
    requires r.IsRun() && k < |r.steps| && r.steps[k].e == Pubrel(c, id) && AloneUpTo(r, k, c)
    ensures match Latest(r.steps[..k], c, id)
            case Some(m) => Released(r.states[k], r.states[k + 1], c, id, m)
            case None => r.states[k + 1] == r.states[k]
  {
    AloneNeverClashes(r, k, c, id);
    PubrelReleasesLatest(r, k, c, id);
  }

  // ---- the clash ----

  // The only client, subscribed to nothing, publishes at QoS 2.
  lemma LonePublish(s: Session, c: ClientId, m: Publish, out: seq<ClusterMsg>)
    requires s.subs == map[] && m.qos == 2
    ensures var ch := Choice(Pub(c, m), Oracle(map[], [c]));
            Valid(Broker(map[c := s], out), ch)
            && Step(Broker(map[c := s], out), ch) == Running(Broker(map[c := Store(s, m)], out))
  {
    var b := Broker(map[c := s], out);
    var f := FanOutOf(b, Pub(c, m)).value;
    assert f.sessions == map[c := Store(s, m)];
    assert !f.Matches(c) && Permutes([c], f.sessions.Keys);
    assert f.Spread(Oracle(map[], [c])) == f.sessions;
  }

  // A hand-off replays a queued message under the identifier of the stored one.
  lemma LoneHandOff(s: Session, c: ClientId, id: uint16, q: Publish, out: seq<ClusterMsg>, o: Oracle) returns (s': Session)
    requires id in s.status && s.status[id] == WaitPubrel && q.qos == 2 && q.packetId == id
    ensures var b, ch := Broker(map[c := s], out), Choice(ClusterLoginInfo(ClientInfo(c, map[], [q])), o);
            Clash(b, ch.e, c, id) && Valid(b, ch) && Step(b, ch) == Running(Broker(map[c := s'], out))
    ensures id in s'.status && s'.status[id] == WaitPubrec
  {
    assert [q][0] == q && HasQos2([q], id);
    ReplayStatusExactly(s.status, [q], id);
    s' := Replay(s, [q]).(subs := s.subs + map[]);
  }

  lemma LoneLogin(c: ClientId, o: Oracle)
    ensures var ch := Choice(Add(c, false), o);
            Valid(INIT, ch) && Step(INIT, ch) == Running(Broker(map[c := Login(FreshSession(c), c, false)], [LoginMsg(c)]))
  {
    assert INIT.sessions[c := Login(FreshSession(c), c, false)] == map[c := Login(FreshSession(c), c, false)];
  }

  lemma LonePubrel(s: Session, c: ClientId, id: uint16, out: seq<ClusterMsg>, o: Oracle)
    requires id in s.status && s.status[id] != WaitPubrel
    ensures var b, ch := Broker(map[c := s], out), Choice(Pubrel(c, id), o);
            Valid(b, ch) && Step(b, ch) == Running(b)
  {
  }

  /** A run in which the hand-off of a queued message takes the identifier of a stored one: the PUBREL is
      then dropped and the stored message is never released. It needs a hand-off that arrives; as written
      no hand-off leaves a node. */
  lemma ReplayLosesMessage(c: ClientId, topic: GoString, payload: GoString)
    returns (r: Run, m: Publish)
    ensures r.IsRun() && |r.steps| == 4
    ensures r.steps[3].e == Pubrel(c, 5) && Latest(r.steps[..3], c, 5) == Some(m)
    ensures r.states[4] == r.states[3]
    ensures Clash(r.states[2], r.steps[2].e, c, 5)
  {
    hide Step, Valid, Latest, Clash, Login, Store;
    m := Publish(0, 5, 0, topic, 2, payload);
    var queued := Publish(0, 5, 0, topic, 2, []);
    var o := Oracle(map[], [c]);
    var s, out := Login(FreshSession(c), c, false), [LoginMsg(c)];
    var s1, s2, s4 := Choice(Add(c, false), o), Choice(Pub(c, m), o), Choice(Pubrel(c, 5), o);
    var s3 := Choice(ClusterLoginInfo(ClientInfo(c, map[], [queued])), o);
    LoneLogin(c, o);
    StoredByLogin(c, m);
    LonePublish(s, c, m, out);
    var s' := LoneHandOff(Store(s, m), c, 5, queued, out, o);
    LonePubrel(s', c, 5, out, o);
    var b3 := Broker(map[c := s'], out);
    r := Run([INIT, Broker(map[c := s], out), Broker(map[c := Store(s, m)], out), b3, b3], [s1, s2, s3, s4]);
    HistoryOfLoss(s1, s2, s3, c, m);
    assert r.steps[..3] == [s1, s2, s3];
  }

  lemma StoredByLogin(c: ClientId, m: Publish)
    ensures var s := Login(FreshSession(c), c, false);
            s.subs == map[] && m.packetId in Store(s, m).status && Store(s, m).status[m.packetId] == WaitPubrel
  {
  }

  lemma HistoryOfLoss(s1: Choice, s2: Choice, s3: Choice, c: ClientId, m: Publish)
    requires s1.e == Add(c, false) && s2.e == Pub(c, m) && s3.e.ClusterLoginInfo? && m.qos == 2
    ensures Latest([s1, s2, s3], c, m.packetId) == Some(m)
  {
    assert [s1, s2, s3][..2] == [s1, s2] && [s1, s2][..1] == [s1] && [s1][..0] == [];
    assert Present([s1], c);
    assert Latest([s1, s2], c, m.packetId) == Some(m);
  }
}
