// N nodes and the messages in flight between them, delivered in any order. Each node is the dispatcher
// of module Dispatcher. A node sends only to the peers that its timers hold alive at that moment (when that
// is, is proved in module KeepAlive); the hand-off is taken as its two senders intend it.
module ClusterSystem {
  import opened MqttTypes
  import opened Dispatcher
  import opened ExactlyOnce

  datatype Body = NetPublish(m: Publish) | NetLogin(c: ClientId) | NetInfo(info: ClientInfo)

  datatype Envelope = Envelope(src: nat, dst: nat, body: Body)

  /** The nodes, the messages in flight, the log of the messages delivered, and the log of those that were
      not sent because their peer was not held alive. */
  datatype System = System(nodes: seq<Broker>, net: seq<Envelope>, log: seq<Envelope>, withheld: seq<Envelope>)

  // A node handles an event of its own, or a message in flight is delivered; `up` are the peers it holds
  // alive then. Or a node's process ends, by a crash or otherwise, and starts again without sessions.
  // (As written every hand-off is withheld and ends the sender's process.)
  datatype Action =
    | Local(i: nat, ch: Choice, up: set<nat>)
    | Deliver(k: nat, o: Oracle, up: set<nat>)
    | Restart(i: nat)

  // One copy to every other node.
  function Broadcast(i: nat, n: nat, body: Body): seq<Envelope> {
    if n == 0 then []
    else Broadcast(i, n - 1, body) + if n - 1 == i then [] else [Envelope(i, n - 1, body)]
  }

  // What the cycle loop of node i is to send for one message of the dispatcher; a hand-off goes to replyTo.
  function Sends(i: nat, n: nat, msg: ClusterMsg, replyTo: nat): seq<Envelope> {
    match msg
    case LoginMsg(c) => Broadcast(i, n, NetLogin(c))
    case PublicMsg(m) => Broadcast(i, n, NetPublish(m))
    case ClientInfoMsg(info, _) => [Envelope(i, replyTo, NetInfo(info))]
  }

  // The dispatcher's channel output of one step: at most one message.
  function Emitted(b: Broker, b': Broker): seq<ClusterMsg> {
    if |b.clusterOut| < |b'.clusterOut| then [b'.clusterOut[|b'.clusterOut| - 1]] else []
  }

  function SendsOf(i: nat, n: nat, b: Broker, b': Broker, replyTo: nat): seq<Envelope> {
    if Emitted(b, b') == [] then [] else Sends(i, n, Emitted(b, b')[0], replyTo)
  }

  function EventOf(e: Envelope): Event {
    match e.body
    case NetPublish(m) => ClusterPub(m)
    case NetLogin(c) => ClusterLogin(c, [])
    case NetInfo(info) => ClusterLoginInfo(info)
  }

  predicate IsClusterEvent(e: Event) {
    e.ClusterPub? || e.ClusterLogin? || e.ClusterLoginInfo?
  }

  function Without1<T>(s: seq<T>, k: nat): seq<T>
    requires k < |s|
  {
    s[..k] + s[k + 1..]
  }

  // The messages to peers that are held alive, and the others.
  function Allowed(envs: seq<Envelope>, up: set<nat>): seq<Envelope> {
    if envs == [] then []
    else
      var n := |envs| - 1;
      Allowed(envs[..n], up) + if envs[n].dst in up then [envs[n]] else []
  }

  function Refused(envs: seq<Envelope>, up: set<nat>): seq<Envelope> {
    if envs == [] then []
    else
      var n := |envs| - 1;
      Refused(envs[..n], up) + if envs[n].dst in up then [] else [envs[n]]
  }

  // The node that takes the step, and what it handles.
  predicate Enabled(s: System, a: Action) {
    match a
    case Local(i, ch, _) => i < |s.nodes| && !IsClusterEvent(ch.e)
    case Deliver(k, _, _) => k < |s.net| && s.net[k].dst < |s.nodes|
    case Restart(i) => i < |s.nodes|
  }

  function Node(s: System, a: Action): nat
    requires Enabled(s, a)
  {
    if a.Deliver? then s.net[a.k].dst else a.i
  }

  function ChoiceOf(s: System, a: Action): Choice
    requires Enabled(s, a) && !a.Restart?
  {
    if a.Local? then a.ch else Choice(EventOf(s.net[a.k]), a.o)
  }

  // The messages that a step is to send.
  function Meant(s: System, a: Action, b': Broker): seq<Envelope>
    requires Enabled(s, a) && !a.Restart?
  {
    var i := Node(s, a);
    SendsOf(i, |s.nodes|, s.nodes[i], b', if a.Local? then i else s.net[a.k].src)
  }

  ghost predicate Next(s: System, a: Action, s': System) {
    && Enabled(s, a)
    && if a.Restart? then s' == s.(nodes := s.nodes[a.i := s.nodes[a.i].(sessions := map[])])
       else
         var i, ch := Node(s, a), ChoiceOf(s, a);
         && Valid(s.nodes[i], ch)
         && Step(s.nodes[i], ch).Running?
         && var b' := Step(s.nodes[i], ch).b;
            var meant := Meant(s, a, b');
            && s'.nodes == s.nodes[i := b']
            && s'.net == (if a.Deliver? then Without1(s.net, a.k) else s.net) + Allowed(meant, a.up)
            && s'.withheld == s.withheld + Refused(meant, a.up)
            && s'.log == s.log + if a.Deliver? then [s.net[a.k]] else []
  }

  function InitSystem(n: nat): System {
    System(seq(n, _ => INIT), [], [], [])
  }

  datatype Trace = Trace(states: seq<System>, actions: seq<Action>)
  {
    ghost predicate IsTrace(n: nat) {
      && |states| == |actions| + 1
      && states[0] == InitSystem(n)
      && forall k: nat :: k < |actions| ==> StepAt(k)
    }

    ghost predicate StepAt(k: nat) {
      k < |actions| && k + 1 < |states| && Next(states[k], actions[k], states[k + 1])
    }
  }

  function Then(t: Trace, a: Action, s: System): Trace {
    Trace(t.states + [s], t.actions + [a])
  }

  // A run and one more step.
  lemma Extended(t: Trace, n: nat, a: Action, s: System)
    requires t.IsTrace(n) && Next(t.states[|t.actions|], a, s)
    ensures Then(t, a, s).IsTrace(n)
  {
    hide Next;
    var t' := Then(t, a, s);
    forall k: nat | k < |t'.actions| ensures t'.StepAt(k) {
      if k < |t.actions| {
        assert t.StepAt(k);
        assert t'.states[k] == t.states[k] && t'.states[k + 1] == t.states[k + 1];
      }
    }
  }

  lemma Start(n: nat)
    ensures Trace([InitSystem(n)], []).IsTrace(n)
  {
  }

  lemma TraceNext(t: Trace, n: nat, k: nat)
    requires t.IsTrace(n)
    ensures |t.states| == |t.actions| + 1 && t.states[0] == InitSystem(n)
    ensures k < |t.actions| ==> Next(t.states[k], t.actions[k], t.states[k + 1])
  {
    hide Next;
    assert k < |t.actions| ==> t.StepAt(k);
  }

  // ---- what one dispatcher step can emit ----

  lemma EmitsExactly(b: Broker, ch: Choice, b': Broker)
    requires Step(b, ch) == Running(b')
    ensures b'.clusterOut == b.clusterOut + Emitted(b, b')
    ensures ch.e.Add? ==> Emitted(b, b') == [LoginMsg(ch.e.c)]
    ensures ch.e.ClusterLogin? && ch.e.c in b.sessions ==>
              var s := b.sessions[ch.e.c];
              Emitted(b, b') == [ClientInfoMsg(ClientInfo(ch.e.c, s.subs, s.offline), ch.e.from)]
    ensures ch.e.Forward? ==> Emitted(b, b') == [PublicMsg(ch.e.m)]
    ensures ch.e.Pubrel? && FanOutOf(b, ch.e).Some? ==> |Emitted(b, b')| == 1 && Emitted(b, b')[0].PublicMsg?
    ensures ch.e.ClusterLogin? && ch.e.c !in b.sessions ==> Emitted(b, b') == []
    ensures ch.e.Pubrel? && FanOutOf(b, ch.e).None? ==> Emitted(b, b') == []
    ensures !ch.e.Add? && !ch.e.Forward? && !ch.e.ClusterLogin? && !ch.e.Pubrel? ==> Emitted(b, b') == []
  {
  }

  lemma {:induction false} BroadcastHas(i: nat, n: nat, body: Body, e: Envelope)
    ensures e in Broadcast(i, n, body) <==> e.src == i && e.dst < n && e.dst != i && e.body == body
  {
    if n > 0 {
      BroadcastHas(i, n - 1, body, e);
    }
  }

  lemma {:induction false} Filtered(envs: seq<Envelope>, up: set<nat>, e: Envelope)
    ensures e in Allowed(envs, up) <==> e in envs && e.dst in up
    ensures e in Refused(envs, up) <==> e in envs && e.dst !in up
  {
    if envs != [] {
      var n := |envs| - 1;
      Filtered(envs[..n], up, e);
      assert envs == envs[..n] + [envs[n]];
    }
  }

  lemma Without1Keeps<T>(s: seq<T>, k: nat, x: T)
    requires k < |s| && x in s && x != s[k]
    ensures x in Without1(s, k)
  {
    var i :| 0 <= i < |s| && s[i] == x;
    if i < k {
      assert Without1(s, k)[i] == x;
    } else {
      assert Without1(s, k)[i - 1] == x;
    }
  }

  // A message in flight stays in flight unless it is the one delivered; one withheld stays withheld.
  lemma StaysInFlight(s: System, a: Action, s': System, e: Envelope)
    requires Next(s, a, s')
    ensures e in s.net && !(a.Deliver? && s.net[a.k] == e) ==> e in s'.net
    ensures e in s.withheld ==> e in s'.withheld
  {
    hide Step, Valid, SendsOf, Allowed, Refused;
    if a.Deliver? && e in s.net && s.net[a.k] != e {
      Without1Keeps(s.net, a.k, e);
    }
  }

  // What a step is to send is then in flight or withheld.
  lemma MeantGoes(s: System, a: Action, s': System, e: Envelope)
    requires Next(s, a, s') && !a.Restart? && e in Meant(s, a, s'.nodes[Node(s, a)])
    ensures if e.dst in a.up then e in s'.net else e in s'.withheld
  {
    hide Step, Valid, SendsOf, Allowed, Refused;
    Filtered(Meant(s, a, s'.nodes[Node(s, a)]), a.up, e);
  }

  // A step of one node: the other nodes stay.
  lemma NextNode(s: System, a: Action, s': System)
    requires Next(s, a, s')
    ensures |s'.nodes| == |s.nodes|
    ensures a.Restart? ==> s'.nodes[a.i] == s.nodes[a.i].(sessions := map[]) && s'.net == s.net && s'.log == s.log
    ensures !a.Restart? ==> Step(s.nodes[Node(s, a)], ChoiceOf(s, a)) == Running(s'.nodes[Node(s, a)])
    ensures !a.Restart? ==> Valid(s.nodes[Node(s, a)], ChoiceOf(s, a))
    ensures s'.nodes == s.nodes[Node(s, a) := s'.nodes[Node(s, a)]]
  {
    hide Step, Valid, SendsOf;
  }

  // ---- session uniqueness ----

  predicate Holds(s: System, i: nat, c: ClientId) {
    i < |s.nodes| && c in s.nodes[i].sessions
  }

  lemma HoldsStep(s: System, a: Action, s': System, i: nat, c: ClientId)
    requires Next(s, a, s') && Holds(s', i, c)
    ensures Holds(s, i, c) || (a.Local? && a.i == i && a.ch.e.Add? && a.ch.e.c == c)
    ensures a.Deliver? && s.net[a.k].dst == i ==> s.net[a.k].body != NetLogin(c)
  {
    NextNode(s, a, s');
    hide Next;
    if !a.Restart? && Node(s, a) == i {
      KeysStep(s.nodes[i], ChoiceOf(s, a), s'.nodes[i]);
    }
    hide Step, Valid;
  }

  predicate LogsInAt(a: Action, i: nat, c: ClientId) {
    a.Local? && a.i == i && a.ch.e.Add? && a.ch.e.c == c
  }

  // A login of c at node j is on its way to every other node that j holds alive.
  lemma LoginIsSent(s: System, a: Action, s': System, j: nat, i: nat, c: ClientId)
    requires Next(s, a, s') && LogsInAt(a, j, c) && i < |s.nodes| && i != j && i in a.up
    ensures Envelope(j, i, NetLogin(c)) in s'.net
  {
    NextNode(s, a, s');
    EmitsExactly(s.nodes[j], a.ch, s'.nodes[j]);
    var e := Envelope(j, i, NetLogin(c));
    BroadcastHas(j, |s.nodes|, NetLogin(c), e);
    MeantGoes(s, a, s', e);
  }

  // Still on its way, or sent in this step.
  lemma OnItsWayStep(s: System, a: Action, s': System, i: nat, j: nat, c: ClientId)
    requires Next(s, a, s') && i != j && Holds(s', i, c)
    requires if LogsInAt(a, j, c) then i in a.up
             else !LogsInAt(a, i, c) && (Holds(s, i, c) ==> Envelope(j, i, NetLogin(c)) in s.net)
    ensures Envelope(j, i, NetLogin(c)) in s'.net
  {
    NextNode(s, a, s');
    HoldsStep(s, a, s', i, c);
    hide Next, Step, Valid;
    if LogsInAt(a, j, c) {
      LoginIsSent(s, a, s', j, i, c);
    } else {
      StaysInFlight(s, a, s', Envelope(j, i, NetLogin(c)));
    }
  }

  // c did not log in at node i in steps m..k.
  ghost predicate NotAgain(t: Trace, m: nat, k: nat, i: nat, c: ClientId)
    requires k <= |t.actions|
  {
    forall l :: m <= l < k ==> !LogsInAt(t.actions[l], i, c)
  }

  lemma NotThisTime(t: Trace, m: nat, k: nat, i: nat, c: ClientId)
    requires k <= |t.actions| && NotAgain(t, m, k, i, c) && k > 0
    ensures NotAgain(t, m, k - 1, i, c) && (m <= k - 1 ==> !LogsInAt(t.actions[k - 1], i, c))
  {
  }

  // A node that has a session of c, and no login of its own after step m, at which c logged in elsewhere, is
  // still to be told.
  lemma {:induction false} LoginOnItsWay(t: Trace, n: nat, m: nat, k: nat, i: nat, j: nat, c: ClientId)
    requires t.IsTrace(n) && m < k < |t.states| && i != j && Holds(t.states[k], i, c)
    requires LogsInAt(t.actions[m], j, c) && i in t.actions[m].up && NotAgain(t, m, k, i, c) && NotAgain(t, m + 1, k, j, c)
    ensures Envelope(j, i, NetLogin(c)) in t.states[k].net
    decreases k
  {
    hide Trace.IsTrace, Next, Holds, NotAgain;
    TraceNext(t, n, k - 1);
    var s, a, s' := t.states[k - 1], t.actions[k - 1], t.states[k];
    NotThisTime(t, m, k, i, c);
    NotThisTime(t, m + 1, k, j, c);
    if k - 1 > m && Holds(s, i, c) {
      LoginOnItsWay(t, n, m, k - 1, i, j, c);
    }
    OnItsWayStep(s, a, s', i, j, c);
  }

  predicate HeldAlive(a: Action, i: nat) {
    !a.Restart? && i in a.up
  }

  // One more than the step of the latest login of c at node i in the first k; 0 if there is none.
  function LastLogin(t: Trace, k: nat, i: nat, c: ClientId): (m: nat)
    requires k <= |t.actions|
    ensures m <= k
  {
    if k == 0 then 0 else if LogsInAt(t.actions[k - 1], i, c) then k else LastLogin(t, k - 1, i, c)
  }

  lemma {:induction false} LastLoginIs(t: Trace, k: nat, i: nat, c: ClientId)
    requires k <= |t.actions|
    ensures var m := LastLogin(t, k, i, c); NotAgain(t, m, k, i, c) && (m > 0 ==> LogsInAt(t.actions[m - 1], i, c))
  {
    hide LogsInAt;
    if k > 0 && !LogsInAt(t.actions[k - 1], i, c) {
      LastLoginIs(t, k - 1, i, c);
    }
  }

  // A node has a session only of a client that has logged in there.
  lemma {:induction false} HolderLoggedIn(t: Trace, n: nat, k: nat, i: nat, c: ClientId)
    requires t.IsTrace(n) && k < |t.states| && Holds(t.states[k], i, c)
    ensures LastLogin(t, k, i, c) > 0
  {
    hide Trace.IsTrace, Next;
    TraceNext(t, n, if k > 0 then k - 1 else 0);
    if k > 0 {
      HoldsStep(t.states[k - 1], t.actions[k - 1], t.states[k], i, c);
      if Holds(t.states[k - 1], i, c) {
        HolderLoggedIn(t, n, k - 1, i, c);
      }
    }
  }

  /** Session uniqueness: in every run, whatever logins, concurrent ones included, restarts and earlier
      separations went before, two nodes both have a session of c only while the later one's login is on its
      way to the other, or if the later one did not hold the other alive when c logged in. */
  lemma UniqueAlways(t: Trace, n: nat, k: nat, i: nat, j: nat, c: ClientId)
    requires t.IsTrace(n) && k < |t.states| && i != j && Holds(t.states[k], i, c) && Holds(t.states[k], j, c)
    requires LastLogin(t, k, i, c) <= LastLogin(t, k, j, c)
    ensures 0 < LastLogin(t, k, i, c) < LastLogin(t, k, j, c)
    ensures Envelope(j, i, NetLogin(c)) in t.states[k].net || !HeldAlive(t.actions[LastLogin(t, k, j, c) - 1], i)
  {
    hide Trace.IsTrace, Holds, LastLogin;
    TraceNext(t, n, 0);
    HolderLoggedIn(t, n, k, i, c);
    LastLoginIs(t, k, i, c);
    LastLoginIs(t, k, j, c);
    var m := LastLogin(t, k, j, c);
    assert LastLogin(t, k, i, c) != m && NotAgain(t, m - 1, k, i, c);
    hide NotAgain, LogsInAt;
    if i in t.actions[m - 1].up {
      LoginOnItsWay(t, n, m - 1, k, i, j, c);
    }
  }

  // c did not log in anywhere in steps m..k.
  ghost predicate NoneLogsIn(t: Trace, m: nat, k: nat, c: ClientId)
    requires k <= |t.actions|
  {
    forall l :: m <= l < k && t.actions[l].Local? && t.actions[l].ch.e.Add? ==> t.actions[l].ch.e.c != c
  }

  ghost predicate NoLogin(envs: seq<Envelope>, c: ClientId) {
    forall e :: e in envs ==> e.body != NetLogin(c)
  }

  /** So once the latest login of c, at step m, was sent to every other node, and no login of c is in flight any
      more, only the node of that login can have a session of c. */
  lemma AtMostOneHolder(t: Trace, n: nat, m: nat, k: nat, i: nat, j: nat, c: ClientId)
    requires t.IsTrace(n) && m < k < |t.states| && LogsInAt(t.actions[m], j, c)
    requires NoneLogsIn(t, m + 1, k, c)
    requires forall d: nat :: d < n && d != j ==> d in t.actions[m].up
    requires NoLogin(t.states[k].net, c) && Holds(t.states[k], i, c)
    ensures i == j
  {
    hide Trace.IsTrace;
    TraceNext(t, n, 0);
    WithinNodes(t, n, k);
    if i != j {
      LoginOnItsWay(t, n, m, k, i, j, c);
    }
  }

  // At every step of the first k the node that takes it holds all its peers alive.
  ghost predicate PeersAlive(t: Trace, n: nat, k: nat)
    requires k <= |t.actions|
  {
    forall j, d: nat :: 0 <= j < k && !t.actions[j].Restart? && d < n ==> d in t.actions[j].up
  }

  lemma {:induction false} AllowedAll(envs: seq<Envelope>, up: set<nat>)
    requires forall e :: e in envs ==> e.dst in up
    ensures Allowed(envs, up) == envs && Refused(envs, up) == []
  {
    if envs != [] {
      AllowedAll(envs[..|envs| - 1], up);
    }
  }

  // A reply goes back to the node of its message.
  lemma {:induction false} WithinNodes(t: Trace, n: nat, k: nat)
    requires t.IsTrace(n) && k < |t.states|
    ensures |t.states[k].nodes| == n
    ensures forall e :: e in t.states[k].net ==> e.src < n && e.dst < n
  {
    hide Step, Valid, SendsOf, Allowed, Refused;
    if k > 0 {
      WithinNodes(t, n, k - 1);
      TraceNext(t, n, k - 1);
      var s, a, s' := t.states[k - 1], t.actions[k - 1], t.states[k];
      NextNode(s, a, s');
      forall e | e in s'.net ensures e.src < n && e.dst < n {
        if a.Deliver? {
          assert forall x :: x in Without1(s.net, a.k) ==> x in s.net;
        }
        if !a.Restart? {
          Filtered(Meant(s, a, s'.nodes[Node(s, a)]), a.up, e);
          MeantWithin(s, a, s'.nodes[Node(s, a)], e);
        }
      }
    }
  }

  lemma MeantWithin(s: System, a: Action, b': Broker, e: Envelope)
    requires Enabled(s, a) && !a.Restart? && (a.Deliver? ==> s.net[a.k].src < |s.nodes|)
    ensures e in Meant(s, a, b') ==> e.src < |s.nodes| && e.dst < |s.nodes|
  {
    var i, b := Node(s, a), s.nodes[Node(s, a)];
    if Emitted(b, b') != [] {
      match Emitted(b, b')[0] {
        case LoginMsg(c) => BroadcastHas(i, |s.nodes|, NetLogin(c), e);
        case PublicMsg(m) => BroadcastHas(i, |s.nodes|, NetPublish(m), e);
        case ClientInfoMsg(info, _) =>
      }
    }
  }

  /** Nothing is withheld while every node holds all its peers alive. */
  lemma {:induction false} NothingWithheld(t: Trace, n: nat, k: nat)
    requires t.IsTrace(n) && k < |t.states| && PeersAlive(t, n, k)
    ensures t.states[k].withheld == []
  {
    hide Step, Valid, SendsOf, Allowed, Refused;
    if k > 0 {
      NothingWithheld(t, n, k - 1);
      WithinNodes(t, n, k - 1);
      TraceNext(t, n, k - 1);
      var s, a, s' := t.states[k - 1], t.actions[k - 1], t.states[k];
      NextNode(s, a, s');
      if !a.Restart? {
        var meant := Meant(s, a, s'.nodes[Node(s, a)]);
        forall e | e in meant ensures e.dst in a.up {
          assert a.Deliver? ==> s.net[a.k] in s.net;
          MeantWithin(s, a, s'.nodes[Node(s, a)], e);
        }
        AllowedAll(meant, a.up);
      }
    }
  }

  // ---- but perhaps none ----

  // c logs in at no other node than i, and node i neither deletes it nor restarts.
  predicate Loyal(a: Action, i: nat, c: ClientId) {
    match a
    case Local(j, ch, _) => (ch.e.Add? && ch.e.c == c ==> j == i) && (j == i ==> ch.e != Del(c))
    case Deliver(_, _, _) => true
    case Restart(j) => j != i
  }

  ghost predicate NoneComing(s: System, i: nat, c: ClientId) {
    forall src: nat :: Envelope(src, i, NetLogin(c)) !in s.net
  }

  lemma SendsLogin(i: nat, n: nat, b: Broker, b': Broker, replyTo: nat, e: Envelope, c: ClientId)
    requires e in SendsOf(i, n, b, b', replyTo) && e.body == NetLogin(c)
    ensures Emitted(b, b') == [LoginMsg(c)] && e.dst != i
  {
    match Emitted(b, b')[0] {
      case LoginMsg(d) => BroadcastHas(i, n, NetLogin(d), e);
      case PublicMsg(m) => BroadcastHas(i, n, NetPublish(m), e);
      case ClientInfoMsg(info, _) =>
    }
  }

  // A step sends a login notification only for a login of its own.
  lemma MeantLogin(s: System, a: Action, s': System, e: Envelope, c: ClientId)
    requires Next(s, a, s') && !a.Restart? && e in Meant(s, a, s'.nodes[Node(s, a)]) && e.body == NetLogin(c)
    ensures a.Local? && a.ch.e.Add? && a.ch.e.c == c && e.dst != a.i
  {
    NextNode(s, a, s');
    var i := Node(s, a);
    EmitsExactly(s.nodes[i], ChoiceOf(s, a), s'.nodes[i]);
    hide Step, Valid, Next, SendsOf, Emitted;
    SendsLogin(i, |s.nodes|, s.nodes[i], s'.nodes[i], if a.Local? then i else s.net[a.k].src, e, c);
  }

  lemma InFlightAfter(s: System, a: Action, s': System, e: Envelope)
    requires Next(s, a, s') && e in s'.net
    ensures e in s.net || (!a.Restart? && e in Meant(s, a, s'.nodes[Node(s, a)]) && e.dst in a.up)
  {
    hide Step, Valid, SendsOf, Allowed, Refused;
    if !a.Restart? {
      Filtered(Meant(s, a, s'.nodes[Node(s, a)]), a.up, e);
    }
    if a.Deliver? {
      assert e in Without1(s.net, a.k) ==> e in s.net;
    }
  }

  lemma NoneComingStep(s: System, a: Action, s': System, i: nat, c: ClientId)
    requires Next(s, a, s') && NoneComing(s, i, c) && Loyal(a, i, c)
    ensures NoneComing(s', i, c)
  {
    hide Next, Meant;
    forall src: nat ensures Envelope(src, i, NetLogin(c)) !in s'.net {
      var e := Envelope(src, i, NetLogin(c));
      if e in s'.net {
        InFlightAfter(s, a, s', e);
        MeantLogin(s, a, s', e, c);
      }
    }
  }

  lemma HolderStep(s: System, a: Action, s': System, i: nat, c: ClientId)
    requires Next(s, a, s') && NoneComing(s, i, c) && Loyal(a, i, c) && Holds(s, i, c)
    ensures Holds(s', i, c)
  {
    NextNode(s, a, s');
    if !a.Restart? && Node(s, a) == i {
      KeysStep(s.nodes[i], ChoiceOf(s, a), s'.nodes[i]);
      if a.Deliver? {
        assert s.net[a.k] in s.net;
        assert s.net[a.k] == Envelope(s.net[a.k].src, i, s.net[a.k].body);
      }
    }
    hide Next, Step, Valid;
  }

  /** A session survives at its node as long as its client logs in nowhere else, is not deleted there and
      the node does not restart, if no login of the same client was on its way to the node before. */
  lemma {:induction false} SessionSurvives(t: Trace, n: nat, k: nat, k': nat, i: nat, c: ClientId)
    requires t.IsTrace(n) && k <= k' < |t.states|
    requires Holds(t.states[k], i, c) && NoneComing(t.states[k], i, c)
    requires forall j :: k <= j < k' ==> Loyal(t.actions[j], i, c)
    ensures Holds(t.states[k'], i, c) && NoneComing(t.states[k'], i, c)
    decreases k'
  {
    hide Next, NoneComing, Holds;
    if k < k' {
      SessionSurvives(t, n, k, k' - 1, i, c);
      TraceNext(t, n, k' - 1);
      NoneComingStep(t.states[k' - 1], t.actions[k' - 1], t.states[k'], i, c);
      HolderStep(t.states[k' - 1], t.actions[k' - 1], t.states[k'], i, c);
    }
  }

  lemma OneMessage(e: Envelope, up: set<nat>)
    ensures Allowed([e], up) == if e.dst in up then [e] else []
    ensures Refused([e], up) == if e.dst in up then [] else [e]
  {
    assert [e][..0] == [];
  }
}
