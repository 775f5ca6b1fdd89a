// What flows between the nodes over a whole run: no publish is forwarded twice or loops, and deliveries
// drain.
module ClusterTraffic {
  import opened MqttTypes
  import opened Dispatcher
  import opened ClusterSystem
  import FanOuts

  // ---- counting messages in flight ----

  // What f finds in each message, gathered.
  function Gather<T>(f: Envelope -> multiset<T>, net: seq<Envelope>): multiset<T>
    decreases |net|
  {
    if net == [] then multiset{} else Gather(f, net[..|net| - 1]) + f(net[|net| - 1])
  }

  lemma {:induction false} GatherAppend<T>(f: Envelope -> multiset<T>, a: seq<Envelope>, b: seq<Envelope>)
    ensures Gather(f, a + b) == Gather(f, a) + Gather(f, b)
    decreases |b|
  {
    if b == [] {
      assert a + b == a;
    } else {
      var n := |b| - 1;
      GatherAppend(f, a, b[..n]);
      assert a + b == (a + b[..n]) + [b[n]];
      assert (a + b)[..|a + b| - 1] == a + b[..n];
    }
  }

  lemma GatherOne<T>(f: Envelope -> multiset<T>, e: Envelope)
    ensures Gather(f, [e]) == f(e)
  {
    assert [e][..0] == [];
  }

  lemma Rearranged<T>(a: multiset<T>, x: multiset<T>, z: multiset<T>)
    ensures (a + x) + z == (a + z) + x
  {
  }

  lemma GatherWithout<T>(f: Envelope -> multiset<T>, net: seq<Envelope>, k: nat)
    requires k < |net|
    ensures Gather(f, Without1(net, k)) + f(net[k]) == Gather(f, net)
  {
    hide Gather;
    var a, x, z := net[..k], [net[k]], net[k + 1..];
    GatherAppend(f, a + x, z);
    GatherAppend(f, a, x);
    GatherAppend(f, a, z);
    GatherOne(f, net[k]);
    Rearranged(Gather(f, a), Gather(f, x), Gather(f, z));
    assert net == (a + x) + z;
  }

  lemma Grouped<T>(a: multiset<T>, r: multiset<T>, x: multiset<T>)
    ensures a + (r + x) == (a + r) + x
  {
  }

  lemma {:induction false} GatherSplit<T>(f: Envelope -> multiset<T>, envs: seq<Envelope>, up: set<nat>)
    ensures Gather(f, Allowed(envs, up)) + Gather(f, Refused(envs, up)) == Gather(f, envs)
  {
    if envs != [] {
      var n := |envs| - 1;
      var e, a, r := envs[n], Allowed(envs[..n], up), Refused(envs[..n], up);
      assert Gather(f, envs) == Gather(f, envs[..n]) + f(e);
      GatherSplit(f, envs[..n], up);
      hide Gather;
      GatherOne(f, e);
      if e.dst in up {
        GatherAppend(f, a, [e]);
        assert Allowed(envs, up) == a + [e] && Refused(envs, up) == r + [] == r;
        Rearranged(Gather(f, a), f(e), Gather(f, r));
      } else {
        GatherAppend(f, r, [e]);
        assert Allowed(envs, up) == a + [] == a && Refused(envs, up) == r + [e];
        Grouped(Gather(f, a), Gather(f, r), f(e));
      }
    }
  }

  // The messages a step takes off the network, is to send, sends, and withholds.
  function Taken(s: System, a: Action): seq<Envelope>
    requires Enabled(s, a)
  {
    if a.Deliver? then [s.net[a.k]] else []
  }

  function Sending(s: System, a: Action, s': System): seq<Envelope>
    requires Enabled(s, a) && |s'.nodes| == |s.nodes|
  {
    if a.Restart? then [] else Meant(s, a, s'.nodes[Node(s, a)])
  }

  function Put(s: System, a: Action, s': System): seq<Envelope>
    requires Enabled(s, a) && |s'.nodes| == |s.nodes|
  {
    if a.Restart? then [] else Allowed(Sending(s, a, s'), a.up)
  }

  function Kept(s: System, a: Action, s': System): seq<Envelope>
    requires Enabled(s, a) && |s'.nodes| == |s.nodes|
  {
    if a.Restart? then [] else Refused(Sending(s, a, s'), a.up)
  }

  lemma GatherNext<T>(f: Envelope -> multiset<T>, s: System, a: Action, s': System)
    requires Next(s, a, s')
    ensures |s'.nodes| == |s.nodes|
    ensures Gather(f, s'.net) + Gather(f, Taken(s, a)) == Gather(f, s.net) + Gather(f, Put(s, a, s'))
    ensures Gather(f, s'.log) == Gather(f, s.log) + Gather(f, Taken(s, a))
    ensures Gather(f, s'.withheld) == Gather(f, s.withheld) + Gather(f, Kept(s, a, s'))
    ensures Gather(f, Put(s, a, s')) + Gather(f, Kept(s, a, s')) == Gather(f, Sending(s, a, s'))
  {
    hide Step, Valid, SendsOf, Allowed, Refused;
    NextNode(s, a, s');
    if !a.Restart? {
      GatherSplit(f, Sending(s, a, s'), a.up);
      GatherAppend(f, s.withheld, Kept(s, a, s'));
      GatherAppend(f, s.log, Taken(s, a));
      if a.Deliver? {
        GatherWithout(f, s.net, a.k);
        GatherOne(f, s.net[a.k]);
        GatherAppend(f, Without1(s.net, a.k), Put(s, a, s'));
        Rearranged(Gather(f, Without1(s.net, a.k)), Gather(f, Put(s, a, s')), f(s.net[a.k]));
      } else {
        GatherAppend(f, s.net, Put(s, a, s'));
      }
      hide Gather;
    }
  }

  // ---- publishes between two nodes ----

  function PublishesBetween(src: nat, dst: nat): Envelope -> multiset<Publish> {
    (e: Envelope) => if e.src == src && e.dst == dst && e.body.NetPublish? then multiset{e.body.m} else multiset{}
  }

  // The publishes a node has handed to the cluster.
  function PublishesOf(out: seq<ClusterMsg>): multiset<Publish>
    decreases |out|
  {
    if out == [] then multiset{}
    else
      var n := |out| - 1;
      PublishesOf(out[..n]) + if out[n].PublicMsg? then multiset{out[n].m} else multiset{}
  }

  lemma {:induction false} GatherBroadcast(i: nat, n: nat, body: Body, src: nat, dst: nat)
    ensures Gather(PublishesBetween(src, dst), Broadcast(i, n, body)) ==
            if body.NetPublish? && i == src && dst < n && dst != i then multiset{body.m} else multiset{}
  {
    if n > 0 {
      var f := PublishesBetween(src, dst);
      GatherBroadcast(i, n - 1, body, src, dst);
      var last := if n - 1 == i then [] else [Envelope(i, n - 1, body)];
      GatherAppend(f, Broadcast(i, n - 1, body), last);
      if n - 1 != i {
        GatherOne(f, Envelope(i, n - 1, body));
      }
    }
  }

  // What node i sends on the way to dst: the publish it forwards.
  lemma SendsBetween(i: nat, n: nat, b: Broker, b': Broker, replyTo: nat, src: nat, dst: nat)
    requires b'.clusterOut == b.clusterOut + Emitted(b, b') && dst < n && src != dst
    ensures Gather(PublishesBetween(src, dst), SendsOf(i, n, b, b', replyTo)) ==
            if i != src || Emitted(b, b') == [] || !Emitted(b, b')[0].PublicMsg? then multiset{}
            else multiset{Emitted(b, b')[0].m}
    ensures i != src || (PublishesOf(b'.clusterOut)
                         == PublishesOf(b.clusterOut) + Gather(PublishesBetween(src, dst), SendsOf(i, n, b, b', replyTo)))
  {
    if Emitted(b, b') != [] {
      var msg := Emitted(b, b')[0];
      assert b'.clusterOut[..|b'.clusterOut| - 1] == b.clusterOut;
      match msg {
        case LoginMsg(c) => GatherBroadcast(i, n, NetLogin(c), src, dst);
        case PublicMsg(m) => GatherBroadcast(i, n, NetPublish(m), src, dst);
        case ClientInfoMsg(info, _) => GatherOne(PublishesBetween(src, dst), Envelope(i, replyTo, NetInfo(info)));
      }
    } else {
      assert b'.clusterOut == b.clusterOut;
    }
  }

  // A step adds to the publishes between two nodes what its node hands to the cluster.
  lemma SendingBetween(s: System, a: Action, s': System, src: nat, dst: nat)
    requires Next(s, a, s') && src < |s.nodes| && dst < |s.nodes| && src != dst
    ensures |s'.nodes| == |s.nodes|
    ensures PublishesOf(s'.nodes[src].clusterOut)
            == PublishesOf(s.nodes[src].clusterOut) + Gather(PublishesBetween(src, dst), Sending(s, a, s'))
  {
    hide Step, Valid, Gather, PublishesOf, SendsOf, Emitted, PublishesBetween;
    NextNode(s, a, s');
    hide Next;
    var i := Node(s, a);
    if a.Restart? {
      assert Gather(PublishesBetween(src, dst), []) == multiset{} by { GatherNone(PublishesBetween(src, dst)); }
    } else {
      EmitsExactly(s.nodes[i], ChoiceOf(s, a), s'.nodes[i]);
      SendsBetween(i, |s.nodes|, s.nodes[i], s'.nodes[i], if a.Local? then i else s.net[a.k].src, src, dst);
    }
  }

  lemma GatherNone<T>(f: Envelope -> multiset<T>)
    ensures Gather(f, []) == multiset{}
  {
  }

  // out = log + net + wh, net' + taken = net + put, and put + kept is what out grows by.
  lemma Balanced<T>(log: multiset<T>, net: multiset<T>, wh: multiset<T>, net': multiset<T>,
                    taken: multiset<T>, put: multiset<T>, kept: multiset<T>)
    requires net' + taken == net + put
    ensures (log + net + wh) + (put + kept) == (log + taken) + net' + (wh + kept)
  {
    forall x ensures ((log + net + wh) + (put + kept))[x] == ((log + taken) + net' + (wh + kept))[x] {
      assert (net' + taken)[x] == (net + put)[x];
    }
  }

  // What src has handed to the cluster: delivered to dst, on its way there, or withheld.
  predicate Accounted(s: System, src: nat, dst: nat) {
    && src < |s.nodes| && dst < |s.nodes|
    && var f := PublishesBetween(src, dst);
       PublishesOf(s.nodes[src].clusterOut) == Gather(f, s.log) + Gather(f, s.net) + Gather(f, s.withheld)
  }

  lemma AccountedStep(s: System, a: Action, s': System, src: nat, dst: nat)
    requires Next(s, a, s') && Accounted(s, src, dst) && src != dst
    ensures Accounted(s', src, dst)
  {
    var f := PublishesBetween(src, dst);
    SendingBetween(s, a, s', src, dst);
    GatherNext(f, s, a, s');
    hide Next, Gather, PublishesOf, PublishesBetween, Taken, Put, Kept, Sending;
    Balanced(Gather(f, s.log), Gather(f, s.net), Gather(f, s.withheld), Gather(f, s'.net),
             Gather(f, Taken(s, a)), Gather(f, Put(s, a, s')), Gather(f, Kept(s, a, s')));
  }

  /** No forwarding loops and no duplicates: in every run, between any two nodes, the publishes the first has
      handed to the cluster are exactly those delivered to the second, those still in flight, and those
      withheld because the first did not hold the second alive. */
  lemma {:induction false} ForwardedOncePerPeer(t: Trace, n: nat, k: nat, src: nat, dst: nat)
    requires t.IsTrace(n) && k < |t.states| && src < n && dst < n && src != dst
    ensures Accounted(t.states[k], src, dst)
  {
    hide Trace.IsTrace, Next;
    TraceNext(t, n, if k > 0 then k - 1 else 0);
    if k > 0 {
      hide Accounted;
      ForwardedOncePerPeer(t, n, k - 1, src, dst);
      AccountedStep(t.states[k - 1], t.actions[k - 1], t.states[k], src, dst);
    }
  }

  // ---- draining ----

  // A login notification may cause one hand-off; nothing else causes a message.
  function Cost(): Envelope -> multiset<Envelope> {
    (e: Envelope) => if e.body.NetLogin? then multiset{e, e} else multiset{e}
  }

  function Backlog(s: System): nat {
    |Gather(Cost(), s.net)|
  }

  lemma SizeOfSum<T>(a: multiset<T>, b: multiset<T>)
    ensures |a + b| == |a| + |b|
  {
  }

  lemma DeliveryDrains(s: System, a: Action, s': System)
    requires Next(s, a, s') && a.Deliver?
    ensures Backlog(s') < Backlog(s)
  {
    hide Step, Valid;
    NextNode(s, a, s');
    GatherNext(Cost(), s, a, s');
    hide Next;
    SendingCosts(s, a, s');
    GatherOne(Cost(), s.net[a.k]);
    hide Gather, EventOf, FanOutOf, Put, Kept, Sending, SendsOf;
    SizeOfSum(Gather(Cost(), s'.net), Gather(Cost(), Taken(s, a)));
    SizeOfSum(Gather(Cost(), s.net), Gather(Cost(), Put(s, a, s')));
    SizeOfSum(Gather(Cost(), Put(s, a, s')), Gather(Cost(), Kept(s, a, s')));
  }

  // A delivery is to send one message if it is a login notification, and none otherwise.
  lemma SendingCosts(s: System, a: Action, s': System)
    requires Enabled(s, a) && a.Deliver? && |s'.nodes| == |s.nodes|
    requires Step(s.nodes[Node(s, a)], ChoiceOf(s, a)) == Running(s'.nodes[Node(s, a)])
    ensures |Gather(Cost(), Sending(s, a, s'))| <= if s.net[a.k].body.NetLogin? then 1 else 0
  {
    hide Step;
    var i, e := Node(s, a), s.net[a.k];
    EmitsExactly(s.nodes[i], ChoiceOf(s, a), s'.nodes[i]);
    hide FanOutOf;
    if Emitted(s.nodes[i], s'.nodes[i]) != [] {
      assert e.body.NetLogin?;
      GatherOne(Cost(), Sending(s, a, s')[0]);
    }
  }

  predicate OnlyDelivers(t: Trace, k: nat, k': nat) {
    forall j :: k <= j < k' && j < |t.actions| ==> t.actions[j].Deliver?
  }

  /** Handling a message of another node never forwards a publish, and the deliveries from any state
      on, without new client events, are at most its backlog: nothing circulates. */
  lemma {:induction false} DeliveriesDrain(t: Trace, n: nat, k: nat, k': nat)
    requires t.IsTrace(n) && k <= k' < |t.states| && OnlyDelivers(t, k, k')
    ensures k' - k + Backlog(t.states[k']) <= Backlog(t.states[k])
    decreases k'
  {
    hide Trace.IsTrace, Next, Backlog;
    if k < k' {
      TraceNext(t, n, k' - 1);
      DeliveriesDrain(t, n, k, k' - 1);
      DeliveryDrains(t.states[k' - 1], t.actions[k' - 1], t.states[k']);
    }
  }

  lemma EmptyBacklog(net: seq<Envelope>)
    requires |Gather(Cost(), net)| == 0
    ensures net == []
  {
  }

  /** Once drained, everything handed to the cluster has been delivered to every other node, exactly once
      each, if and only if none of it was withheld. */
  lemma DrainedMeansDelivered(t: Trace, n: nat, k: nat, src: nat, dst: nat)
    requires t.IsTrace(n) && k < |t.states| && src < n && dst < n && src != dst
    requires Backlog(t.states[k]) == 0
    ensures src < |t.states[k].nodes|
    ensures var f := PublishesBetween(src, dst);
            PublishesOf(t.states[k].nodes[src].clusterOut) == Gather(f, t.states[k].log)
            <==> Gather(f, t.states[k].withheld) == multiset{}
  {
    hide Trace.IsTrace, Next;
    ForwardedOncePerPeer(t, n, k, src, dst);
    EmptyBacklog(t.states[k].net);
    var f := PublishesBetween(src, dst);
    SizeOfSum(Gather(f, t.states[k].log), Gather(f, t.states[k].withheld));
  }

  /** One delivery of a publish hands it to each subscriber of the node at most once: one packet in one
      write if online, one place in the queue if not (and its QoS is not 0); the node forwards nothing. */
  lemma DeliveredOncePerSession(s: System, a: Action, s': System, m: Publish, c: ClientId)
    requires Next(s, a, s') && a.Deliver? && s.net[a.k].body == NetPublish(m)
    requires Holds(s, s.net[a.k].dst, c)
    ensures var i := s.net[a.k].dst;
            && s'.nodes[i].clusterOut == s.nodes[i].clusterOut && Holds(s', i, c)
            && var x, x', copy := s.nodes[i].sessions[c], s'.nodes[i].sessions[c],
                                  FanOut(s.nodes[i].sessions, m, FromCluster).Copy(a.o.pick, c);
               && copy.Content() == m.Content()
               && if m.topic !in x.subs then x' == x
                  else if x.online then (if m.qos <= 2 then FanOuts.GetsOneCopy(x, x', copy) else x' == x)
                  else x' == if m.qos == 0 then x else x.(offline := x.offline + [copy])
  {
    NextNode(s, a, s');
    var i := s.net[a.k].dst;
    var f := FanOut(s.nodes[i].sessions, m, FromCluster);
    assert FanOutOf(s.nodes[i], ClusterPub(m)) == Some(f) && f.ValidOracle(a.o);
    FanOuts.FanOutExact(f, a.o, c);
    hide FanOuts.GetsOneCopy, FanOut.ValidOracle;
  }
}
