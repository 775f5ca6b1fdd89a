// The session hand-off, as its senders intend it: a login elsewhere moves the old session's
// subscriptions and queued messages to the new one, and no queued message is lost or written twice.
module HandOff {
  import opened MqttTypes
  import opened Dispatcher
  import opened ExactlyOnce
  import opened OfflineQueue
  import opened ClusterSystem
  import opened ClusterTraffic

  // ---- where the queued messages of client c are ----

  function QueueOf(b: Broker, c: ClientId): seq<Publish> {
    if c in b.sessions then b.sessions[c].offline else []
  }

  function CarriedFor(c: ClientId): Envelope -> multiset<Publish> {
    (e: Envelope) => if e.body.NetInfo? && e.body.info.clientId == c then multiset(e.body.info.offline) else multiset{}
  }

  function QueuedAt(nodes: seq<Broker>, c: ClientId): multiset<Publish> {
    if nodes == [] then multiset{}
    else QueuedAt(nodes[..|nodes| - 1], c) + multiset(QueueOf(nodes[|nodes| - 1], c))
  }

  // In a queue of some node, or on the way from one node to another.
  function Held(s: System, c: ClientId): multiset<Publish> {
    QueuedAt(s.nodes, c) + Gather(CarriedFor(c), s.net)
  }

  // ---- what one event does to them ----

  // The message that a fan-out queues for c.
  function Queued(b: Broker, ch: Choice, c: ClientId): seq<Publish> {
    if FanOutOf(b, ch.e).Some? && Missed(b, ch.e, c) != [] && !b.sessions[c].online
    then [FanOutOf(b, ch.e).value.Copy(ch.o.pick, c)] else []
  }

  // The messages that leave a queue or a hand-off for c's open connection.
  function Flushed(b: Broker, e: Event, c: ClientId): seq<Publish> {
    match e
    case Add(d, _) => if d == c then QueueOf(b, c) else []
    case ClusterLoginInfo(info) => if info.clientId == c && Reachable(b, c) then info.offline else []
    case _ => []
  }

  // The messages thrown away: with a deleted session, or with a hand-off that finds no session, or one
  // that is offline (the code writes to its closed connection).
  function Dropped(b: Broker, e: Event, c: ClientId): seq<Publish> {
    match e
    case Del(d) => if d == c then QueueOf(b, c) else []
    case ClusterLoginInfo(info) => if info.clientId == c && !Reachable(b, c) then info.offline else []
    case _ => []
  }

  predicate Reachable(b: Broker, c: ClientId) {
    c in b.sessions && b.sessions[c].online
  }

  // The messages that leave the node with an evicted session, and those that arrive with a hand-off.
  function Leaving(b: Broker, e: Event, c: ClientId): seq<Publish> {
    if e.ClusterLogin? && e.c == c then QueueOf(b, c) else []
  }

  function Arriving(e: Event, c: ClientId): seq<Publish> {
    if e.ClusterLoginInfo? && e.info.clientId == c then e.info.offline else []
  }

  lemma QueueFanOut(b: Broker, ch: Choice, c: ClientId)
    requires FanOutOf(b, ch.e).Some? && c in b.sessions
    ensures var s' := FanOutOf(b, ch.e).value.Spread(ch.o);
            c in s' && s'[c].offline == b.sessions[c].offline + Queued(b, ch, c)
  {
    var f := FanOutOf(b, ch.e).value;
    var s, x := f.sessions[c], f.Copy(ch.o.pick, c);
    assert s.subs == b.sessions[c].subs && s.offline == b.sessions[c].offline && s.online == b.sessions[c].online;
    assert x.qos == f.m.qos && x.topic == f.m.topic;
    CompletedByFanOut(b, ch.e);
  }

  /** One step of a node, in order: queued and arriving messages stay queued, are written, are dropped
      or leave. */
  lemma QueueStep(b: Broker, ch: Choice, b': Broker, c: ClientId)
    requires Step(b, ch) == Running(b')
    ensures QueueOf(b', c) + Flushed(b, ch.e, c) + Dropped(b, ch.e, c) + Leaving(b, ch.e, c)
            == QueueOf(b, c) + Queued(b, ch, c) + Arriving(ch.e, c)
  {
    KeysStep(b, ch, b');
    if FanOutOf(b, ch.e).Some? {
      if c in b.sessions {
        QueueFanOut(b, ch, c);
      }
    } else {
      QueueOther(b, ch, b', c);
    }
  }

  lemma QueueOther(b: Broker, ch: Choice, b': Broker, c: ClientId)
    requires Step(b, ch) == Running(b') && FanOutOf(b, ch.e).None?
    ensures Queued(b, ch, c) == []
    ensures QueueOf(b', c) + Flushed(b, ch.e, c) + Dropped(b, ch.e, c) + Leaving(b, ch.e, c)
            == QueueOf(b, c) + Arriving(ch.e, c)
  {
    if (ch.e.Add? || ch.e.Del? || ch.e.ClusterLogin?) && ch.e.c == c {
      assert QueueOf(b', c) == [];
    } else {
      assert QueueOf(b', c) == QueueOf(b, c);
    }
    hide Step, QueueOf, FanOutOf;
  }

  /** The flushed messages are written to an open connection, one write each, in their order. */
  lemma FlushedInOrder(b: Broker, ch: Choice, b': Broker, c: ClientId)
    requires Step(b, ch) == Running(b') && Flushed(b, ch.e, c) != []
    ensures c in b.sessions && Reachable(b', c)
    ensures b'.sessions[c].out == b.sessions[c].out + (if ch.e.Add? then [[ConnackPkt]] else [])
                                  + Singles(Flushed(b, ch.e, c))
  {
  }

  // ---- one step of the system ----

  lemma {:induction false} QueuedAtUpdate(nodes: seq<Broker>, i: nat, b': Broker, c: ClientId)
    requires i < |nodes|
    ensures QueuedAt(nodes[i := b'], c) + multiset(QueueOf(nodes[i], c))
            == QueuedAt(nodes, c) + multiset(QueueOf(b', c))
  {
    var n := |nodes| - 1;
    if i < n {
      QueuedAtUpdate(nodes[..n], i, b', c);
      assert nodes[i := b'][..n] == nodes[..n][i := b'];
      var last := multiset(QueueOf(nodes[n], c));
      Rearranged(QueuedAt(nodes[i := b'][..n], c), last, multiset(QueueOf(nodes[i], c)));
      Rearranged(QueuedAt(nodes[..n], c), last, multiset(QueueOf(b', c)));
    } else {
      assert nodes[i := b'][..n] == nodes[..n];
    }
  }

  lemma {:induction false} BroadcastCarriesNone(i: nat, n: nat, body: Body, c: ClientId)
    requires !body.NetInfo?
    ensures Gather(CarriedFor(c), Broadcast(i, n, body)) == multiset{}
  {
    if n > 0 {
      BroadcastCarriesNone(i, n - 1, body, c);
      GatherAppend(CarriedFor(c), Broadcast(i, n - 1, body), if n - 1 == i then [] else [Envelope(i, n - 1, body)]);
      GatherOne(CarriedFor(c), Envelope(i, n - 1, body));
    }
  }

  // The messages of an evicted session whose hand-off is withheld: its node does not hold the other alive.
  function Stranded(s: System, a: Action, c: ClientId): seq<Publish>
    requires Enabled(s, a) && !a.Restart?
  {
    if a.Deliver? && s.net[a.k].src !in a.up then Leaving(s.nodes[Node(s, a)], ChoiceOf(s, a).e, c) else []
  }

  lemma OneCarried(c: ClientId, e: Envelope, up: set<nat>)
    ensures Gather(CarriedFor(c), Allowed([e], up)) == if e.dst in up then CarriedFor(c)(e) else multiset{}
    ensures Gather(CarriedFor(c), Refused([e], up)) == if e.dst in up then multiset{} else CarriedFor(c)(e)
  {
    OneMessage(e, up);
    GatherOne(CarriedFor(c), e);
  }

  // Only a hand-off carries messages.
  lemma OthersCarryNone(i: nat, n: nat, b: Broker, b': Broker, replyTo: nat, c: ClientId)
    requires Emitted(b, b') == [] || !Emitted(b, b')[0].ClientInfoMsg?
    ensures Gather(CarriedFor(c), SendsOf(i, n, b, b', replyTo)) == multiset{}
  {
    hide Emitted;
    if Emitted(b, b') != [] {
      match Emitted(b, b')[0] {
        case LoginMsg(d) => BroadcastCarriesNone(i, n, NetLogin(d), c);
        case PublicMsg(m) => BroadcastCarriesNone(i, n, NetPublish(m), c);
      }
    }
  }

  // What the step sends, from the event it handles.
  lemma SendingIs(s: System, a: Action, s': System, c: ClientId)
    requires Next(s, a, s') && !a.Restart?
    ensures |s'.nodes| == |s.nodes|
    ensures var i, e := Node(s, a), ChoiceOf(s, a).e;
            if e.ClusterLogin? && e.c in s.nodes[i].sessions then
              var x := s.nodes[i].sessions[e.c];
              a.Deliver? && Sending(s, a, s') == [Envelope(i, s.net[a.k].src, NetInfo(ClientInfo(e.c, x.subs, x.offline)))]
            else Gather(CarriedFor(c), Sending(s, a, s')) == multiset{}
  {
    hide Step, Valid, Gather;
    NextNode(s, a, s');
    hide Next;
    var i, ch := Node(s, a), ChoiceOf(s, a);
    var b, b' := s.nodes[i], s'.nodes[i];
    EmitsExactly(b, ch, b');
    EmittedInfo(b, ch, b');
    hide FanOutOf;
    if !(ch.e.ClusterLogin? && ch.e.c in b.sessions) {
      OthersCarryNone(i, |s.nodes|, b, b', if a.Local? then i else s.net[a.k].src, c);
    }
  }

  // A hand-off carries what leaves with its session.
  lemma CarriesLeaving(b: Broker, e: Event, c: ClientId, from: nat, to: nat)
    requires e.ClusterLogin? && e.c in b.sessions
    ensures var x := b.sessions[e.c];
            CarriedFor(c)(Envelope(from, to, NetInfo(ClientInfo(e.c, x.subs, x.offline)))) == multiset(Leaving(b, e, c))
  {
  }

  lemma StrandedIs(s: System, a: Action, c: ClientId)
    requires Enabled(s, a) && a.Deliver?
    ensures multiset(Stranded(s, a, c))
            == if s.net[a.k].src in a.up then multiset{} else multiset(Leaving(s.nodes[Node(s, a)], ChoiceOf(s, a).e, c))
  {
    hide Leaving, EventOf;
  }

  lemma EvictedCarries(s: System, a: Action, s': System, c: ClientId)
    requires Enabled(s, a) && a.Deliver? && |s'.nodes| == |s.nodes|
    requires var b, e := s.nodes[Node(s, a)], ChoiceOf(s, a).e;
             && e.ClusterLogin? && e.c in b.sessions
             && Sending(s, a, s') == [Envelope(Node(s, a), s.net[a.k].src,
                                               NetInfo(ClientInfo(e.c, b.sessions[e.c].subs, b.sessions[e.c].offline)))]
    ensures Gather(CarriedFor(c), Put(s, a, s')) + multiset(Stranded(s, a, c))
            == multiset(Leaving(s.nodes[Node(s, a)], ChoiceOf(s, a).e, c))
  {
    hide Gather, EventOf, Sending, CarriedFor, Allowed, Refused, Leaving, Stranded;
    CarriesLeaving(s.nodes[Node(s, a)], ChoiceOf(s, a).e, c, Node(s, a), s.net[a.k].src);
    StrandedIs(s, a, c);
    OneCarried(c, Sending(s, a, s')[0], a.up);
  }

  lemma NothingLeaves(s: System, a: Action, s': System, c: ClientId)
    requires Enabled(s, a) && !a.Restart? && |s'.nodes| == |s.nodes|
    requires var b, e := s.nodes[Node(s, a)], ChoiceOf(s, a).e; !(e.ClusterLogin? && e.c in b.sessions)
    requires Gather(CarriedFor(c), Sending(s, a, s')) == multiset{}
    ensures Gather(CarriedFor(c), Put(s, a, s')) + multiset(Stranded(s, a, c))
            == multiset(Leaving(s.nodes[Node(s, a)], ChoiceOf(s, a).e, c))
  {
    hide Gather, EventOf, Sending, CarriedFor, Allowed, Refused;
    GatherSplit(CarriedFor(c), Sending(s, a, s'), a.up);
    NothingCarried(Gather(CarriedFor(c), Put(s, a, s')), Gather(CarriedFor(c), Kept(s, a, s')));
    assert Leaving(s.nodes[Node(s, a)], ChoiceOf(s, a).e, c) == [];
  }

  // An evicted session leaves in the message its node sends, or is stranded.
  lemma PutCarries(s: System, a: Action, s': System, c: ClientId)
    requires Next(s, a, s') && !a.Restart?
    ensures |s'.nodes| == |s.nodes|
    ensures Gather(CarriedFor(c), Put(s, a, s')) + multiset(Stranded(s, a, c))
            == multiset(Leaving(s.nodes[Node(s, a)], ChoiceOf(s, a).e, c))
  {
    hide Step, Valid, Gather, EventOf, Sending, CarriedFor, Put, Stranded, Leaving, SendsOf, Allowed, Refused;
    SendingIs(s, a, s', c);
    assert Enabled(s, a);
    hide Next;
    var e := ChoiceOf(s, a).e;
    if e.ClusterLogin? && e.c in s.nodes[Node(s, a)].sessions {
      EvictedCarries(s, a, s', c);
    } else {
      NothingLeaves(s, a, s', c);
    }
  }

  lemma NothingCarried<T>(a: multiset<T>, b: multiset<T>)
    requires a + b == multiset{}
    ensures a == multiset{}
  {
    SizeOfSum(a, b);
  }

  lemma EmittedInfo(b: Broker, ch: Choice, b': Broker)
    requires Step(b, ch) == Running(b')
    ensures Emitted(b, b') != [] && Emitted(b, b')[0].ClientInfoMsg? <==> ch.e.ClusterLogin? && ch.e.c in b.sessions
  {
    EmitsExactly(b, ch, b');
  }

  lemma TakenCarries(s: System, a: Action, c: ClientId)
    requires Enabled(s, a) && !a.Restart?
    ensures Gather(CarriedFor(c), Taken(s, a)) == multiset(Arriving(ChoiceOf(s, a).e, c))
  {
    if a.Deliver? {
      GatherOne(CarriedFor(c), s.net[a.k]);
    }
  }

  function QueuedIn(s: System, a: Action, c: ClientId): multiset<Publish> {
    if !Enabled(s, a) || a.Restart? then multiset{}
    else multiset(Queued(s.nodes[Node(s, a)], ChoiceOf(s, a), c))
  }

  function FlushedIn(s: System, a: Action, c: ClientId): multiset<Publish> {
    if !Enabled(s, a) || a.Restart? then multiset{}
    else multiset(Flushed(s.nodes[Node(s, a)], ChoiceOf(s, a).e, c))
  }

  // A restarted node loses its queues.
  function DroppedIn(s: System, a: Action, c: ClientId): multiset<Publish> {
    if !Enabled(s, a) then multiset{}
    else if a.Restart? then multiset(QueueOf(s.nodes[a.i], c))
    else multiset(Dropped(s.nodes[Node(s, a)], ChoiceOf(s, a).e, c)) + multiset(Stranded(s, a, c))
  }

  // queues' + q == queues + q', q' + fl + dr + lv == q + qd + ar, net' + ar == net + put, put + st == lv.
  lemma Settled<T>(queues: multiset<T>, queues': multiset<T>, net: multiset<T>, net': multiset<T>,
                   q: multiset<T>, q': multiset<T>, fl: multiset<T>, dr: multiset<T>,
                   lv: multiset<T>, qd: multiset<T>, ar: multiset<T>, put: multiset<T>, st: multiset<T>)
    requires queues' + q == queues + q' && q' + fl + dr + lv == q + qd + ar && net' + ar == net + put && put + st == lv
    ensures (queues' + net') + fl + (dr + st) == (queues + net) + qd
  {
    forall x ensures ((queues' + net') + fl + (dr + st))[x] == ((queues + net) + qd)[x] {
      assert (queues' + q)[x] == (queues + q')[x];
      assert (q' + fl + dr + lv)[x] == (q + qd + ar)[x];
      assert (net' + ar)[x] == (net + put)[x] && (put + st)[x] == lv[x];
    }
  }

  lemma AsMultisets<T>(q': seq<T>, fl: seq<T>, dr: seq<T>, lv: seq<T>, q: seq<T>, qd: seq<T>, ar: seq<T>)
    requires q' + fl + dr + lv == q + qd + ar
    ensures multiset(q') + multiset(fl) + multiset(dr) + multiset(lv) == multiset(q) + multiset(qd) + multiset(ar)
  {
    assert multiset(q' + fl + dr + lv) == multiset(q' + fl + dr) + multiset(lv);
    assert multiset(q + qd + ar) == multiset(q + qd) + multiset(ar);
  }

  lemma HeldRestart(s: System, a: Action, s': System, c: ClientId)
    requires Next(s, a, s') && a.Restart?
    ensures Held(s', c) + FlushedIn(s, a, c) + DroppedIn(s, a, c) == Held(s, c) + QueuedIn(s, a, c)
  {
    NextNode(s, a, s');
    hide Next;
    var x := multiset(QueueOf(s.nodes[a.i], c));
    QueuedAtUpdate(s.nodes, a.i, s'.nodes[a.i], c);
    assert QueueOf(s'.nodes[a.i], c) == [];
    hide QueueOf;
    Rearranged(QueuedAt(s'.nodes, c), x, Gather(CarriedFor(c), s.net));
  }

  lemma HeldStep(s: System, a: Action, s': System, c: ClientId)
    requires Next(s, a, s')
    ensures Held(s', c) + FlushedIn(s, a, c) + DroppedIn(s, a, c) == Held(s, c) + QueuedIn(s, a, c)
  {
    if a.Restart? {
      hide Next, Held, FlushedIn, DroppedIn, QueuedIn;
      HeldRestart(s, a, s', c);
    } else {
      var i, ch := Node(s, a), ChoiceOf(s, a);
      hide Step, Valid;
      NextNode(s, a, s');
      QueueStep(s.nodes[i], ch, s'.nodes[i], c);
      QueuedAtUpdate(s.nodes, i, s'.nodes[i], c);
      GatherNext(CarriedFor(c), s, a, s');
      PutCarries(s, a, s', c);
      TakenCarries(s, a, c);
      hide Next, Gather, QueuedAt, Put, Taken, Queued, Flushed, Dropped, Leaving, Arriving, QueueOf, CarriedFor, Stranded;
      AsMultisets(QueueOf(s'.nodes[i], c), Flushed(s.nodes[i], ch.e, c), Dropped(s.nodes[i], ch.e, c),
                  Leaving(s.nodes[i], ch.e, c), QueueOf(s.nodes[i], c), Queued(s.nodes[i], ch, c), Arriving(ch.e, c));
      Settled(QueuedAt(s.nodes, c), QueuedAt(s'.nodes, c), Gather(CarriedFor(c), s.net), Gather(CarriedFor(c), s'.net),
              multiset(QueueOf(s.nodes[i], c)), multiset(QueueOf(s'.nodes[i], c)),
              FlushedIn(s, a, c), multiset(Dropped(s.nodes[i], ch.e, c)), multiset(Leaving(s.nodes[i], ch.e, c)),
              QueuedIn(s, a, c), multiset(Arriving(ch.e, c)), Gather(CarriedFor(c), Put(s, a, s')),
              multiset(Stranded(s, a, c)));
    }
  }

  // ---- runs ----

  // What was queued for c, written to c's open connection from a queue, and dropped, in the first k steps.
  datatype Account = Account(queued: multiset<Publish>, flushed: multiset<Publish>, dropped: multiset<Publish>)

  function AccountOf(t: Trace, k: nat, c: ClientId): Account
    requires k < |t.states| && |t.states| == |t.actions| + 1
  {
    if k == 0 then Account(multiset{}, multiset{}, multiset{})
    else
      var s, a := t.states[k - 1], t.actions[k - 1];
      var before := AccountOf(t, k - 1, c);
      Account(before.queued + QueuedIn(s, a, c), before.flushed + FlushedIn(s, a, c), before.dropped + DroppedIn(s, a, c))
  }

  lemma {:induction false} EmptySystem(n: nat, c: ClientId)
    ensures Held(InitSystem(n), c) == multiset{}
  {
    if n > 0 {
      EmptySystem(n - 1, c);
      assert InitSystem(n).nodes[..n - 1] == InitSystem(n - 1).nodes;
    }
  }

  predicate Balances(acc: Account, held: multiset<Publish>) {
    acc.queued == held + acc.flushed + acc.dropped
  }

  lemma StillBalances(acc: Account, held: multiset<Publish>, held': multiset<Publish>,
                      q: multiset<Publish>, f: multiset<Publish>, d: multiset<Publish>)
    requires Balances(acc, held) && held' + f + d == held + q
    ensures Balances(Account(acc.queued + q, acc.flushed + f, acc.dropped + d), held')
  {
    forall x ensures (acc.queued + q)[x] == (held' + (acc.flushed + f) + (acc.dropped + d))[x] {
      assert acc.queued[x] == (held + acc.flushed + acc.dropped)[x];
      assert (held' + f + d)[x] == (held + q)[x];
    }
  }

  lemma BalancesStep(t: Trace, k: nat, c: ClientId)
    requires |t.states| == |t.actions| + 1 && k < |t.actions|
    ensures Next(t.states[k], t.actions[k], t.states[k + 1]) && Balances(AccountOf(t, k, c), Held(t.states[k], c)) ==>
              Balances(AccountOf(t, k + 1, c), Held(t.states[k + 1], c))
  {
    hide Next, Held, QueuedIn, FlushedIn, DroppedIn;
    var s, a, s' := t.states[k], t.actions[k], t.states[k + 1];
    if Next(s, a, s') && Balances(AccountOf(t, k, c), Held(s, c)) {
      HeldStep(s, a, s', c);
      StillBalances(AccountOf(t, k, c), Held(s, c), Held(s', c),
                    QueuedIn(s, a, c), FlushedIn(s, a, c), DroppedIn(s, a, c));
    }
    hide Balances;
  }

  /** Conservation across hand-offs: in every run every message queued for c, at any node, is exactly
      once in a queue, in a hand-off in flight, or written to an open connection of c, unless it was
      dropped: with its session or its node, or by a hand-off withheld, too late or to an offline session. */
  lemma {:induction false} HandOffConserves(t: Trace, n: nat, k: nat, c: ClientId)
    requires t.IsTrace(n) && k < |t.states|
    ensures Balances(AccountOf(t, k, c), Held(t.states[k], c))
  {
    hide Trace.IsTrace, Next, Held, InitSystem, AccountOf, Balances;
    TraceNext(t, n, if k > 0 then k - 1 else 0);
    if k > 0 {
      HandOffConserves(t, n, k - 1, c);
      BalancesStep(t, k - 1, c);
    } else {
      BalancesStart(t, n, c);
    }
  }

  lemma BalancesStart(t: Trace, n: nat, c: ClientId)
    requires |t.states| == |t.actions| + 1 && t.states[0] == InitSystem(n)
    ensures Balances(AccountOf(t, 0, c), Held(t.states[0], c))
  {
    hide Held, InitSystem, QueuedIn, FlushedIn, DroppedIn;
    EmptySystem(n, c);
  }

  // No session of c is deleted, and no node of c restarts, with a queue; and of the hand-offs that carry a
  // message none is withheld and each finds c present and online.
  ghost predicate KeepsAll(t: Trace, k: nat, c: ClientId)
    requires k < |t.states| && |t.states| == |t.actions| + 1
  {
    forall j :: 0 <= j < k ==> DroppedIn(t.states[j], t.actions[j], c) == multiset{}
  }

  lemma NoneDropped<T>(a: multiset<T>, x: multiset<T>)
    ensures a + x == multiset{} <==> a == multiset{} && x == multiset{}
  {
    assert |a + x| == |a| + |x|;
  }

  lemma {:induction false} DroppedNone(t: Trace, k: nat, c: ClientId)
    requires k < |t.states| && |t.states| == |t.actions| + 1
    ensures AccountOf(t, k, c).dropped == multiset{} <==> KeepsAll(t, k, c)
  {
    hide DroppedIn, QueuedIn, FlushedIn;
    if k > 0 {
      DroppedNone(t, k - 1, c);
      NoneDropped(AccountOf(t, k - 1, c).dropped, DroppedIn(t.states[k - 1], t.actions[k - 1], c));
    }
  }

  /** Nothing is lost if and only if that holds: then what was queued is exactly what is held or has been
      written to an open connection. */
  lemma NothingLost(t: Trace, n: nat, k: nat, c: ClientId)
    requires t.IsTrace(n) && k < |t.states|
    ensures KeepsAll(t, k, c) <==>
              AccountOf(t, k, c).queued == Held(t.states[k], c) + AccountOf(t, k, c).flushed
  {
    HandOffConserves(t, n, k, c);
    DroppedNone(t, k, c);
    hide Trace.IsTrace, Held, AccountOf, KeepsAll;
    var acc := AccountOf(t, k, c);
    assert |acc.queued| == |Held(t.states[k], c)| + |acc.flushed| + |acc.dropped|;
  }

  // ---- the new session ----

  // Step k delivers e.
  predicate Delivers(t: Trace, k: nat, e: Envelope) {
    k < |t.actions| && k < |t.states| && t.actions[k].Deliver? && t.actions[k].k < |t.states[k].net|
    && t.states[k].net[t.actions[k].k] == e
  }

  ghost predicate NeverDelivers(t: Trace, k: nat, k': nat, e: Envelope) {
    forall j :: k <= j < k' ==> !Delivers(t, j, e)
  }

  lemma StillThere(t: Trace, k: nat, e: Envelope)
    requires k < |t.actions| && |t.states| == |t.actions| + 1
    requires Next(t.states[k], t.actions[k], t.states[k + 1]) && e in t.states[k].net && !Delivers(t, k, e)
    ensures e in t.states[k + 1].net
  {
    assert t.actions[k].Deliver? ==> t.actions[k].k < |t.states[k].net| by { hide Step, Valid, Meant; }
    hide Next;
    StaysInFlight(t.states[k], t.actions[k], t.states[k + 1], e);
  }

  lemma {:induction false} Undelivered(t: Trace, n: nat, k: nat, k': nat, e: Envelope)
    requires t.IsTrace(n) && k <= k' < |t.states| && e in t.states[k].net && NeverDelivers(t, k, k', e)
    ensures e in t.states[k'].net
    decreases k'
  {
    hide Next, Trace.IsTrace, Delivers;
    if k < k' {
      TraceNext(t, n, k' - 1);
      Undelivered(t, n, k, k' - 1, e);
      StillThere(t, k' - 1, e);
    }
  }

  // The login of c at node e.src evicts the session at node e.dst; its content is sent back or withheld.
  lemma EvictionSends(s: System, a: Action, s': System, c: ClientId)
    requires Next(s, a, s') && a.Deliver? && s.net[a.k].body == NetLogin(c) && Holds(s, s.net[a.k].dst, c)
    ensures var e := s.net[a.k];
            var old' := s.nodes[e.dst].sessions[c];
            var h := Envelope(e.dst, e.src, NetInfo(ClientInfo(c, old'.subs, old'.offline)));
            !Holds(s', e.dst, c) && if e.src in a.up then h in s'.net else h in s'.withheld
  {
    NextNode(s, a, s');
    var e := s.net[a.k];
    var i := e.dst;
    var h := Envelope(i, e.src, NetInfo(ClientInfo(c, s.nodes[i].sessions[c].subs, s.nodes[i].sessions[c].offline)));
    EmitsExactly(s.nodes[i], ChoiceOf(s, a), s'.nodes[i]);
    KeysStep(s.nodes[i], ChoiceOf(s, a), s'.nodes[i]);
    hide Step, Valid, Next;
    assert Meant(s, a, s'.nodes[i]) == [h];
    MeantGoes(s, a, s', h);
  }

  // What a hand-off does to the session it finds.
  lemma HandOffMerges(s: System, a: Action, s': System, info: ClientInfo)
    requires Next(s, a, s') && a.Deliver? && s.net[a.k].body == NetInfo(info) && Holds(s, s.net[a.k].dst, info.clientId)
    ensures Holds(s', s.net[a.k].dst, info.clientId)
    ensures var x, x' := s.nodes[s.net[a.k].dst].sessions[info.clientId], s'.nodes[s.net[a.k].dst].sessions[info.clientId];
            && x'.subs == x.subs + info.subs
            && x'.out == x.out + Singles(info.offline)
            && x'.offline == x.offline && x'.online == x.online
            && (FlushedIn(s, a, info.clientId) == multiset(info.offline) || !x.online)
            && (DroppedIn(s, a, info.clientId) == multiset(info.offline) || x.online)
  {
    NextNode(s, a, s');
    hide Next;
    assert Leaving(s.nodes[Node(s, a)], ChoiceOf(s, a).e, info.clientId) == [];
  }

  /** Hand-off: the login of c at node e.src, delivered to the node e.dst that has c's session, ends that
      session; its content, unless withheld, stays in flight until delivered; then the new session's
      subscriptions are its own overridden by the old ones, and the old queue is written in order: to an
      open connection if the new session is still online, and otherwise to a closed one and so lost. */
  lemma HandOffMoves(t: Trace, n: nat, k: nat, k': nat, c: ClientId, e: Envelope)
    requires t.IsTrace(n) && k < k' < |t.states|
    requires e.body == NetLogin(c) && Delivers(t, k, e) && Holds(t.states[k], e.dst, c)
    ensures !Holds(t.states[k + 1], e.dst, c)
    ensures var x := t.states[k].nodes[e.dst].sessions[c];
            var h := Envelope(e.dst, e.src, NetInfo(ClientInfo(c, x.subs, x.offline)));
            && (e.src in t.actions[k].up && NeverDelivers(t, k + 1, k', h) ==> h in t.states[k'].net)
            && (Delivers(t, k', h) && Holds(t.states[k'], e.src, c) ==>
                  && Holds(t.states[k' + 1], e.src, c)
                  && var y, y' := t.states[k'].nodes[e.src].sessions[c], t.states[k' + 1].nodes[e.src].sessions[c];
                     && y'.subs == y.subs + x.subs
                     && y'.out == y.out + Singles(x.offline)
                     && (if y.online then FlushedIn(t.states[k'], t.actions[k'], c) == multiset(x.offline)
                         else DroppedIn(t.states[k'], t.actions[k'], c) == multiset(x.offline)
                              && y'.offline == y.offline && !y'.online))
  {
    TraceNext(t, n, k);
    EvictionSends(t.states[k], t.actions[k], t.states[k + 1], c);
    hide Next, Singles, FlushedIn, DroppedIn;
    var x := t.states[k].nodes[e.dst].sessions[c];
    var h := Envelope(e.dst, e.src, NetInfo(ClientInfo(c, x.subs, x.offline)));
    if e.src in t.actions[k].up && NeverDelivers(t, k + 1, k', h) {
      Undelivered(t, n, k + 1, k', h);
    }
    if Delivers(t, k', h) && Holds(t.states[k'], e.src, c) {
      TraceNext(t, n, k');
      HandOffMerges(t.states[k'], t.actions[k'], t.states[k' + 1], h.body.info);
    }
  }
}
