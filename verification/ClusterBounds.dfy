// The dispatcher's invariant and the bound on deliveries in flight, at every node of every cluster run.
module ClusterBounds {
  import opened MqttTypes
  import opened Dispatcher
  import opened Invariants
  import opened Conservation
  import opened ClusterSystem

  // The identifiers of queued messages come from an allocator.
  predicate IdsDrawn(msgs: seq<Publish>) {
    forall i :: 0 <= i < |msgs| ==> msgs[i].packetId < ID_RANGE
  }

  ghost predicate NodeDrawn(b: Broker) {
    Inv(b) && forall c :: c in b.sessions ==> Drawn(b.sessions[c])
  }

  ghost predicate EnvelopeDrawn(e: Envelope) {
    e.body.NetInfo? ==> IdsDrawn(e.body.info.offline)
  }

  ghost predicate AllDrawn(s: System) {
    && (forall i :: 0 <= i < |s.nodes| ==> NodeDrawn(s.nodes[i]))
    && (forall e :: e in s.net ==> EnvelopeDrawn(e))
  }

  lemma NodeStep(b: Broker, ch: Choice, b': Broker)
    requires NodeDrawn(b) && Valid(b, ch) && Step(b, ch) == Running(b') && PeersDraw(ch.e)
    ensures NodeDrawn(b')
  {
    InvStep(b, ch, b');
    hide Drawn, Inv, Valid, Step, PeersDraw;
    forall c | c in b'.sessions ensures Drawn(b'.sessions[c]) {
      DrawnStep(b, ch, b', c);
    }
  }

  // What a step hands over are identifiers that its own sessions' queues hold.
  lemma MeantDrawn(s: System, a: Action, b': Broker, e: Envelope)
    requires Enabled(s, a) && !a.Restart? && NodeDrawn(s.nodes[Node(s, a)])
    requires Step(s.nodes[Node(s, a)], ChoiceOf(s, a)) == Running(b') && e in Meant(s, a, b')
    ensures EnvelopeDrawn(e)
  {
    hide Step, Inv;
    var i, ch := Node(s, a), ChoiceOf(s, a);
    var b := s.nodes[i];
    EmitsExactly(b, ch, b');
    hide FanOutOf;
    match Emitted(b, b')[0] {
      case LoginMsg(c) => BroadcastHas(i, |s.nodes|, NetLogin(c), e);
      case PublicMsg(m) => BroadcastHas(i, |s.nodes|, NetPublish(m), e);
      case ClientInfoMsg(info, _) =>
        assert ch.e.ClusterLogin? && Drawn(b.sessions[ch.e.c]);
    }
  }

  lemma RestartDrawn(b: Broker)
    ensures NodeDrawn(b.(sessions := map[]))
  {
  }

  // The node that takes the step.
  lemma DrawnAt(s: System, a: Action, s': System)
    requires AllDrawn(s) && Next(s, a, s')
    ensures Node(s, a) < |s'.nodes| && NodeDrawn(s'.nodes[Node(s, a)])
  {
    NextNode(s, a, s');
    hide Step, Valid, NodeDrawn, EnvelopeDrawn, Next;
    var i := Node(s, a);
    if a.Restart? {
      RestartDrawn(s.nodes[i]);
    } else {
      if a.Deliver? {
        assert s.net[a.k] in s.net && EnvelopeDrawn(s.net[a.k]);
        DeliveredDrawn(s.net[a.k]);
      }
      NodeStep(s.nodes[i], ChoiceOf(s, a), s'.nodes[i]);
    }
  }

  lemma AllDrawnStep(s: System, a: Action, s': System)
    requires AllDrawn(s) && Next(s, a, s')
    ensures AllDrawn(s')
  {
    DrawnAt(s, a, s');
    NextNode(s, a, s');
    hide Step, Valid, NodeDrawn, EnvelopeDrawn, Next, Meant, EventOf;
    forall e | e in s'.net ensures EnvelopeDrawn(e) {
      InFlightAfter(s, a, s', e);
      if e !in s.net {
        MeantDrawn(s, a, s'.nodes[Node(s, a)], e);
      }
    }
  }

  lemma DeliveredDrawn(e: Envelope)
    requires EnvelopeDrawn(e)
    ensures PeersDraw(EventOf(e))
  {
  }

  lemma {:induction false} AllDrawnAlways(t: Trace, n: nat, k: nat)
    requires t.IsTrace(n) && k < |t.states|
    ensures AllDrawn(t.states[k])
  {
    hide Trace.IsTrace, Next;
    TraceNext(t, n, if k > 0 then k - 1 else 0);
    if k > 0 {
      AllDrawnAlways(t, n, k - 1);
      AllDrawnStep(t.states[k - 1], t.actions[k - 1], t.states[k]);
      hide AllDrawn;
    }
  }

  /** In every run of N nodes, every node keeps the dispatcher's invariant, and every session of every
      node has at most 62 deliveries in flight, whatever is handed over between the nodes. */
  lemma AtMost62Everywhere(t: Trace, n: nat, k: nat, i: nat, c: ClientId)
    requires t.IsTrace(n) && k < |t.states| && Holds(t.states[k], i, c)
    ensures Inv(t.states[k].nodes[i])
    ensures |InFlight(t.states[k].nodes[i].sessions[c])| <= 62
  {
    AllDrawnAlways(t, n, k);
    var b := t.states[k].nodes[i];
    assert NodeDrawn(b);
    BoundedSet(InFlight(b.sessions[c]), ID_RANGE);
  }
}
