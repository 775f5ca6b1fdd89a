// Each session gets each message at most once: the copies that a client's session is given, over a run of N
// nodes, against how often each message was completed at its node or forwarded by another one.
module OncePerSession {
  import opened MqttTypes
  import opened Dispatcher
  import opened Invariants
  import opened IdealBroker
  import opened ClusterSystem
  import opened ClusterTraffic
  import opened ClusterBounds

  // ---- one step of one node ----

  // What a session was written, counting of each write the client's own packet, and what it has queued.
  function Copies(v: IdealSession): multiset<Publish> {
    multiset(v.delivered) + multiset(v.queue)
  }

  function CopiesOf(b: Broker, c: ClientId): multiset<Publish> {
    if c in b.sessions then Copies(View(AsIntended, b.sessions[c])) else multiset{}
  }

  // The message that an event completes, and so distributes.
  function Completes(b: Broker, e: Event): multiset<Publish> {
    match FanOutOf(b, e)
    case Some(f) => if f.path == FromPublish && f.m.qos > 1 then multiset{} else multiset{f.m.Content()}
    case None => multiset{}
  }

  lemma OneCopy(v: IdealSession, x: Publish)
    ensures Copies(v.(delivered := v.delivered + [] + [x])) == Copies(v) + multiset{x}
    ensures Copies(v.(queue := v.queue + [x])) == Copies(v) + multiset{x}
  {
    assert v.delivered + [] == v.delivered;
    Rearranged(multiset(v.delivered), multiset{x}, multiset(v.queue));
  }

  lemma CopiesFanOut(b: Broker, ch: Choice, c: ClientId)
    requires Inv(b) && FanOutOf(b, ch.e).Some? && c in b.sessions
    ensures var s' := FanOutOf(b, ch.e).value.Spread(ch.o);
            c in s' && Copies(View(AsIntended, s'[c])) <= CopiesOf(b, c) + Completes(b, ch.e)
  {
    var f := FanOutOf(b, ch.e).value;
    assert Ahead(AsIntended, f.path, f.Lead(ch.o, c)) == [];
    hide View, FanOut.Spread, Inv, FanOut.Lead, Ahead, Copies, FanOutOf;
    SpreadView(AsIntended, b, ch, c);
    OneCopy(View(AsIntended, b.sessions[c]), f.m.Content());
  }

  lemma CopiesOther(b: Broker, ch: Choice, b': Broker, c: ClientId)
    requires Inv(b) && Step(b, ch) == Running(b') && FanOutOf(b, ch.e).None?
    requires c in b.sessions && c in b'.sessions && !(ch.e.ClusterLoginInfo? && ch.e.info.clientId == c)
    ensures CopiesOf(b', c) == CopiesOf(b, c)
  {
    if ch.e.Add? && ch.e.c == c {
      LoginView(AsIntended, b.sessions[c], c, ch.e.clear);
      assert b'.sessions[c] == Login(b.sessions[c], c, ch.e.clear);
      hide View, Login, Step;
    } else if ch.e.Add? || ch.e.ClusterLoginInfo? {
      assert b'.sessions[c] == b.sessions[c];
      hide View, Step;
    } else {
      OtherViewStep(AsIntended, b, ch, b', c);
      hide View, Step, Inv, FanOutOf;
    }
  }

  // Apart from what a hand-off brings, a step gives a session at most one copy of the message it completes.
  lemma CopiesStep(b: Broker, ch: Choice, b': Broker, c: ClientId)
    requires Inv(b) && Step(b, ch) == Running(b') && !(ch.e.ClusterLoginInfo? && ch.e.info.clientId == c)
    ensures CopiesOf(b', c) <= CopiesOf(b, c) + Completes(b, ch.e)
  {
    if c in b'.sessions {
      if c !in b.sessions {
        NewSessionView(AsIntended, b, ch, b', c);
        hide Step;
      } else if FanOutOf(b, ch.e).Some? {
        CopiesFanOut(b, ch, c);
        hide View, Completes;
      } else {
        CopiesOther(b, ch, b', c);
        hide View, Step;
      }
    }
  }

  // ---- c logs in at node i only ----

  ghost predicate OnlyAt(t: Trace, k: nat, i: nat, c: ClientId)
    requires k <= |t.actions|
  {
    forall j :: 0 <= j < k && t.actions[j].Local? && t.actions[j].ch.e.Add? && t.actions[j].ch.e.c == c ==>
                  t.actions[j].i == i
  }

  // Node i alone has a session of c; no login of c comes to it, and nothing is handed over for c.
  ghost predicate Resident(s: System, i: nat, c: ClientId) {
    && (forall j :: Holds(s, j, c) ==> j == i)
    && NoneComing(s, i, c)
    && forall e :: e in s.net && e.body.NetInfo? ==> e.body.info.clientId != c
  }

  // A hand-off of c's session is sent only where it was.
  lemma MeantInfo(s: System, a: Action, s': System, e: Envelope)
    requires Next(s, a, s') && !a.Restart? && e in Meant(s, a, s'.nodes[Node(s, a)]) && e.body.NetInfo?
    ensures a.Deliver? && a.k < |s.net| && s.net[a.k] in s.net && s.net[a.k].body == NetLogin(e.body.info.clientId)
    ensures Holds(s, s.net[a.k].dst, e.body.info.clientId)
  {
    NextNode(s, a, s');
    var i, ch := Node(s, a), ChoiceOf(s, a);
    var b, b' := s.nodes[i], s'.nodes[i];
    EmitsExactly(b, ch, b');
    hide Step, Valid, Next, FanOutOf;
    match Emitted(b, b')[0] {
      case LoginMsg(d) => BroadcastHas(i, |s.nodes|, NetLogin(d), e);
      case PublicMsg(m) => BroadcastHas(i, |s.nodes|, NetPublish(m), e);
      case ClientInfoMsg(info, _) =>
        assert ch.e.ClusterLogin? && ch.e.c in b.sessions && info.clientId == ch.e.c;
    }
  }

  lemma ResidentStep(s: System, a: Action, s': System, i: nat, c: ClientId)
    requires Resident(s, i, c) && Next(s, a, s')
    requires a.Local? && a.ch.e.Add? && a.ch.e.c == c ==> a.i == i
    ensures Resident(s', i, c)
  {
    forall e | e in s.net && e.dst == i ensures e.body != NetLogin(c) {
      assert e == Envelope(e.src, i, e.body);
    }
    hide Next, Meant;
    forall j | Holds(s', j, c) ensures j == i {
      HoldsStep(s, a, s', j, c);
    }
    forall e | e in s'.net
      ensures e.dst == i ==> e.body != NetLogin(c)
      ensures e.body.NetInfo? ==> e.body.info.clientId != c
    {
      InFlightAfter(s, a, s', e);
      if e !in s.net {
        if e.body == NetLogin(c) {
          MeantLogin(s, a, s', e, c);
        } else if e.body.NetInfo? {
          MeantInfo(s, a, s', e);
        }
      }
    }
    hide Holds;
  }

  // ---- publishes on their way to node i ----

  function ArrivingAt(i: nat): Envelope -> multiset<Publish> {
    (e: Envelope) => if e.dst == i && e.body.NetPublish? then multiset{e.body.m.Content()} else multiset{}
  }

  // The contents that a node has forwarded.
  function ForwardsOf(out: seq<ClusterMsg>): multiset<Publish> {
    if out == [] then multiset{}
    else
      var n := |out| - 1;
      ForwardsOf(out[..n]) + if out[n].PublicMsg? then multiset{out[n].m.Content()} else multiset{}
  }

  // What one node has forwarded, for node i.
  function Share(j: nat, i: nat, b: Broker): multiset<Publish> {
    if j == i then multiset{} else ForwardsOf(b.clusterOut)
  }

  // All nodes but node i together.
  function ForwardedTo(nodes: seq<Broker>, i: nat): multiset<Publish> {
    if nodes == [] then multiset{}
    else
      var n := |nodes| - 1;
      ForwardedTo(nodes[..n], i) + Share(n, i, nodes[n])
  }

  // What a step adds to ForwardedTo.
  function Forwarding(j: nat, i: nat, b: Broker, b': Broker): multiset<Publish> {
    if j != i && Emitted(b, b') != [] && Emitted(b, b')[0].PublicMsg? then multiset{Emitted(b, b')[0].m.Content()}
    else multiset{}
  }

  lemma ForwardsOne(out: seq<ClusterMsg>, x: ClusterMsg)
    ensures ForwardsOf(out + [x]) == ForwardsOf(out) + if x.PublicMsg? then multiset{x.m.Content()} else multiset{}
  {
    assert (out + [x])[..|out|] == out;
  }

  lemma ShareGrows(j: nat, i: nat, b: Broker, b': Broker)
    requires b'.clusterOut == b.clusterOut + Emitted(b, b')
    ensures Share(j, i, b') == Share(j, i, b) + Forwarding(j, i, b, b')
  {
    var e := Emitted(b, b');
    if e == [] {
      assert b.clusterOut + e == b.clusterOut;
    } else {
      assert e == [e[0]];
      ForwardsOne(b.clusterOut, e[0]);
    }
    hide ForwardsOf, Emitted;
  }

  lemma ForwardedLast(nodes: seq<Broker>, b: Broker, i: nat)
    ensures ForwardedTo(nodes + [b], i) == ForwardedTo(nodes, i) + Share(|nodes|, i, b)
  {
    assert (nodes + [b])[..|nodes|] == nodes;
  }

  lemma {:induction false} ForwardedUpdate(nodes: seq<Broker>, i: nat, j: nat, b': Broker)
    requires j < |nodes| && b'.clusterOut == nodes[j].clusterOut + Emitted(nodes[j], b')
    ensures ForwardedTo(nodes[j := b'], i) == ForwardedTo(nodes, i) + Forwarding(j, i, nodes[j], b')
  {
    hide ForwardedTo, Share, Forwarding, Emitted;
    var n := |nodes| - 1;
    var init, last := nodes[..n], nodes[n];
    assert nodes == init + [last];
    ForwardedLast(init, last, i);
    if j < n {
      ForwardedUpdate(init, i, j, b');
      assert nodes[j := b'] == init[j := b'] + [last];
      ForwardedLast(init[j := b'], last, i);
      Rearranged(ForwardedTo(init, i), Forwarding(j, i, nodes[j], b'), Share(n, i, last));
    } else {
      assert nodes[j := b'] == init + [b'];
      ForwardedLast(init, b', i);
      ShareGrows(n, i, last, b');
      Grouped(ForwardedTo(init, i), Share(n, i, last), Forwarding(j, i, last, b'));
    }
  }

  lemma {:induction false} BroadcastTo(j: nat, n: nat, body: Body, i: nat)
    ensures Gather(ArrivingAt(i), Broadcast(j, n, body)) ==
            if body.NetPublish? && i < n && i != j then multiset{body.m.Content()} else multiset{}
  {
    var f := ArrivingAt(i);
    GatherNone(f);
    if n > 0 {
      BroadcastTo(j, n - 1, body, i);
      var e := Envelope(j, n - 1, body);
      GatherAppend(f, Broadcast(j, n - 1, body), [e]);
      GatherOne(f, e);
      assert Broadcast(j, n - 1, body) + [] == Broadcast(j, n - 1, body);
    }
    hide Gather;
  }

  lemma SendsTo(j: nat, n: nat, b: Broker, b': Broker, replyTo: nat, i: nat)
    requires i < n
    ensures Gather(ArrivingAt(i), SendsOf(j, n, b, b', replyTo)) == Forwarding(j, i, b, b')
  {
    hide Emitted;
    if Emitted(b, b') != [] {
      match Emitted(b, b')[0] {
        case LoginMsg(c) => BroadcastTo(j, n, NetLogin(c), i);
        case PublicMsg(m) => BroadcastTo(j, n, NetPublish(m), i);
        case ClientInfoMsg(info, _) => GatherOne(ArrivingAt(i), Envelope(j, replyTo, NetInfo(info)));
      }
    }
  }

  // ---- the account ----

  // The messages completed at node i in the first k steps, apart from those that arrive from other nodes.
  function CompletedAt(t: Trace, k: nat, i: nat): multiset<Publish>
    requires k < |t.states| && |t.states| == |t.actions| + 1
  {
    if k == 0 then multiset{} else CompletedAt(t, k - 1, i) + CompletedIn(t.states[k - 1], t.actions[k - 1], i)
  }

  function CompletedIn(s: System, a: Action, i: nat): multiset<Publish> {
    if a.Local? && a.i == i < |s.nodes| then Completes(s.nodes[i], a.ch.e) else multiset{}
  }

  // A step at node i gives c a copy of what it completes there or of the publish that arrives.
  lemma CopiesNext(s: System, a: Action, s': System, i: nat, c: ClientId)
    requires Next(s, a, s') && i < |s.nodes| && Resident(s, i, c) && Inv(s.nodes[i])
    ensures |s'.nodes| == |s.nodes|
    ensures CopiesOf(s'.nodes[i], c)
            <= CopiesOf(s.nodes[i], c) + CompletedIn(s, a, i) + Gather(ArrivingAt(i), Taken(s, a))
  {
    NextNode(s, a, s');
    hide Next, Step, Valid, Gather;
    if !a.Restart? && Node(s, a) == i {
      if a.Deliver? {
        GatherOne(ArrivingAt(i), s.net[a.k]);
        assert s.net[a.k] in s.net;
        CompletesDelivered(s.nodes[i], s.net[a.k]);
      }
      CopiesStep(s.nodes[i], ChoiceOf(s, a), s'.nodes[i], c);
    }
    hide CopiesOf, Completes;
  }

  lemma CompletesDelivered(b: Broker, e: Envelope)
    ensures Completes(b, EventOf(e)) == ArrivingAt(e.dst)(e)
  {
  }

  lemma ForwardedNext(s: System, a: Action, s': System, i: nat)
    requires Next(s, a, s') && i < |s.nodes|
    ensures |s'.nodes| == |s.nodes|
    ensures ForwardedTo(s'.nodes, i) == ForwardedTo(s.nodes, i) + Gather(ArrivingAt(i), Sending(s, a, s'))
  {
    NextNode(s, a, s');
    hide Next, Step, Valid, Gather;
    var j := Node(s, a);
    if a.Restart? {
      assert Emitted(s.nodes[j], s'.nodes[j]) == [];
      ForwardedUpdate(s.nodes, i, j, s'.nodes[j]);
      GatherNone(ArrivingAt(i));
    } else {
      EmitsExactly(s.nodes[j], ChoiceOf(s, a), s'.nodes[j]);
      ForwardedUpdate(s.nodes, i, j, s'.nodes[j]);
      SendsTo(j, |s.nodes|, s.nodes[j], s'.nodes[j], if a.Local? then j else s.net[a.k].src, i);
    }
  }

  // copies' <= copies + comp + taken, net' + taken == net + put, put + kept is what fw grows by.
  lemma StillBounded<T>(copies: multiset<T>, net: multiset<T>, cp: multiset<T>, fw: multiset<T>, copies': multiset<T>,
                        net': multiset<T>, comp: multiset<T>, taken: multiset<T>, put: multiset<T>, kept: multiset<T>)
    requires copies + net <= cp + fw && copies' <= copies + comp + taken && net' + taken == net + put
    ensures copies' + net' <= (cp + comp) + (fw + (put + kept))
  {
    forall x ensures (copies' + net')[x] <= ((cp + comp) + (fw + (put + kept)))[x] {
      assert (copies + net)[x] <= (cp + fw)[x] && copies'[x] <= (copies + comp + taken)[x];
      assert (net' + taken)[x] == (net + put)[x];
    }
  }

  ghost predicate Bounded(t: Trace, k: nat, i: nat, c: ClientId)
    requires k < |t.states| && |t.states| == |t.actions| + 1
  {
    var s := t.states[k];
    && i < |s.nodes| && Resident(s, i, c)
    && CopiesOf(s.nodes[i], c) + Gather(ArrivingAt(i), s.net) <= CompletedAt(t, k, i) + ForwardedTo(s.nodes, i)
  }

  lemma BoundedStep(t: Trace, n: nat, k: nat, i: nat, c: ClientId)
    requires t.IsTrace(n) && k < |t.actions| && OnlyAt(t, k + 1, i, c) && Bounded(t, k, i, c)
    ensures Bounded(t, k + 1, i, c)
  {
    AllDrawnAlways(t, n, k);
    TraceNext(t, n, k);
    var s, a, s', f := t.states[k], t.actions[k], t.states[k + 1], ArrivingAt(i);
    assert NodeDrawn(s.nodes[i]);
    hide Trace.IsTrace, Next, Resident, Gather, ForwardedTo, Put, ClusterTraffic.Kept, Sending, Inv, CopiesOf, CompletedIn;
    ResidentStep(s, a, s', i, c);
    CopiesNext(s, a, s', i, c);
    ForwardedNext(s, a, s', i);
    GatherNext(f, s, a, s');
    StillBounded(CopiesOf(s.nodes[i], c), Gather(f, s.net), CompletedAt(t, k, i), ForwardedTo(s.nodes, i),
                 CopiesOf(s'.nodes[i], c), Gather(f, s'.net), CompletedIn(s, a, i), Gather(f, Taken(s, a)),
                 Gather(f, Put(s, a, s')), Gather(f, ClusterTraffic.Kept(s, a, s')));
  }

  lemma {:induction false} BoundedAlways(t: Trace, n: nat, k: nat, i: nat, c: ClientId)
    requires t.IsTrace(n) && k < |t.states| && i < n && OnlyAt(t, k, i, c)
    ensures Bounded(t, k, i, c)
  {
    hide Trace.IsTrace, Bounded, OnlyAt;
    TraceNext(t, n, 0);
    if k > 0 {
      OnlyAtBefore(t, k, i, c);
      BoundedAlways(t, n, k - 1, i, c);
      BoundedStep(t, n, k - 1, i, c);
    } else {
      BoundedStart(t, n, i, c);
    }
  }

  lemma OnlyAtBefore(t: Trace, k: nat, i: nat, c: ClientId)
    requires 0 < k <= |t.actions| && OnlyAt(t, k, i, c)
    ensures OnlyAt(t, k - 1, i, c)
  {
  }

  lemma BoundedStart(t: Trace, n: nat, i: nat, c: ClientId)
    requires |t.states| == |t.actions| + 1 && t.states[0] == InitSystem(n) && i < n
    ensures Bounded(t, 0, i, c)
  {
    hide ForwardedTo;
  }

  /** At most once, in every run of N nodes: if a client logs in at one node only, its session there is written
      or has queued each message at most as often as it was completed at that node or forwarded by another. */
  lemma AtMostOncePerSession(t: Trace, n: nat, k: nat, i: nat, c: ClientId)
    requires t.IsTrace(n) && k < |t.states| && i < n && OnlyAt(t, k, i, c)
    ensures i < |t.states[k].nodes|
    ensures CopiesOf(t.states[k].nodes[i], c) <= CompletedAt(t, k, i) + ForwardedTo(t.states[k].nodes, i)
  {
    BoundedAlways(t, n, k, i, c);
    hide Trace.IsTrace, CopiesOf, CompletedAt, ForwardedTo, Gather;
  }
}
