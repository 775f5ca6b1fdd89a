// The second half of a QoS 2 delivery: one PUBREL is written for each delivery that reaches PUBCOMP.
module Halfway {
  import opened MqttTypes
  import opened Dispatcher
  import opened Invariants
  import opened ExactlyOnce

  // Deliveries to the client that have been received and not yet completed.
  function AwaitingPubcomp(s: Session): set<uint16> {
    set id | id in s.status && s.status[id] == WaitPubcomp
  }

  predicate IsPubrel(w: Write) {
    w != [] && w[|w| - 1].PubrelPkt?
  }

  // The identifiers of the PUBRELs written, in order.
  function Pubrels(out: seq<Write>): seq<uint16> {
    if out == [] then []
    else
      var w := out[|out| - 1];
      Pubrels(out[..|out| - 1]) + if IsPubrel(w) then [w[|w| - 1].id] else []
  }

  // PUBRELs written for deliveries that are over.
  function Surplus(s: Session): int {
    |Pubrels(s.out)| - |AwaitingPubcomp(s)|
  }

  predicate Halves(b: Broker, e: Event, c: ClientId) {
    e.Pubrec? && e.c == c && Waits(b, c, e.id, WaitPubrec)
  }

  predicate Completes(b: Broker, e: Event, c: ClientId) {
    e.Pubcomp? && e.c == c && Waits(b, c, e.id, WaitPubcomp)
  }

  // The step gives the identifier of a delivery that awaits its PUBCOMP to another message.
  predicate Reuses(b: Broker, e: Event, c: ClientId, id: uint16) {
    Waits(b, c, id, WaitPubcomp)
    && (Replays(b, e, c, id) || (e.Pub? && e.c == c && e.m.qos == 2 && e.m.packetId == id))
  }

  ghost predicate ReusesNone(b: Broker, e: Event, c: ClientId) {
    forall id :: !Reuses(b, e, c, id)
  }

  lemma PubrelsOne(out: seq<Write>, w: Write)
    ensures Pubrels(out + [w]) == Pubrels(out) + if IsPubrel(w) then [w[|w| - 1].id] else []
  {
    assert (out + [w])[..|out|] == out;
  }

  lemma PubrelsOther(out: seq<Write>, w: Write)
    requires !IsPubrel(w)
    ensures Pubrels(out + [w]) == Pubrels(out)
  {
    PubrelsOne(out, w);
  }

  lemma {:induction false} PubrelsReplay(out: seq<Write>, msgs: seq<Publish>)
    ensures Pubrels(out + Singles(msgs)) == Pubrels(out)
  {
    if msgs == [] {
      assert out + Singles(msgs) == out;
    } else {
      var n := |msgs| - 1;
      PubrelsReplay(out, msgs[..n]);
      Assoc(out, Singles(msgs[..n]), [[PublishPkt(msgs[n])]]);
      PubrelsOther(out + Singles(msgs[..n]), [PublishPkt(msgs[n])]);
      hide Pubrels;
    }
  }

  lemma ReceivePubrels(path: Path, s: Session, x: Publish, lead: Write)
    ensures Pubrels(Receive(path, s, x, lead).out) == Pubrels(s.out)
  {
    var l := if path == FromPublish then lead else [];
    PubrelsOne(s.out, l + [PublishPkt(x)]);
    assert !IsPubrel(l + [PublishPkt(x)]);
    hide Pubrels, IsPubrel;
  }

  lemma StartPubrels(b: Broker, e: Event, c: ClientId)
    requires FanOutOf(b, e).Some? && c in b.sessions
    ensures var f := FanOutOf(b, e).value; c in f.sessions && Pubrels(f.sessions[c].out) == Pubrels(b.sessions[c].out)
  {
    if e.Pubrel? {
      PubrelsOne(b.sessions[c].out, [PubcompPkt(e.id)]);
    }
    hide Pubrels;
  }

  lemma FanOutPubrels(b: Broker, ch: Choice, c: ClientId)
    requires FanOutOf(b, ch.e).Some? && c in b.sessions
    ensures var s' := FanOutOf(b, ch.e).value.Spread(ch.o); c in s' && Pubrels(s'[c].out) == Pubrels(b.sessions[c].out)
  {
    var f := FanOutOf(b, ch.e).value;
    StartPubrels(b, ch.e, c);
    hide Receive, Pubrels, FanOut.Lead, FanOutOf, IsPubrel;
    ReceivePubrels(f.path, f.sessions[c], f.Copy(ch.o.pick, c), f.Lead(ch.o, c));
  }

  lemma OtherPubrels(b: Broker, ch: Choice, b': Broker, c: ClientId)
    requires Step(b, ch) == Running(b') && FanOutOf(b, ch.e).None? && c in b.sessions && c in b'.sessions
    ensures Pubrels(b'.sessions[c].out) == Pubrels(b.sessions[c].out) + if Halves(b, ch.e, c) then [ch.e.id] else []
  {
    var out := b.sessions[c].out;
    match ch.e {
      case Add(d, clear) =>
        if d == c {
          PubrelsOne(out, [ConnackPkt]);
          PubrelsReplay(out + [[ConnackPkt]], b.sessions[c].offline);
        }
      case ClusterLoginInfo(info) => PubrelsReplay(out, info.offline);
      case Pubrec(d, id) => PubrelsOne(out, [PubrelPkt(id)]);
      case Pubrel(d, id) => PubrelsOne(out, [PubcompPkt(id)]);
      case _ =>
    }
    hide Pubrels, Singles, ReplayStatus;
  }

  /** A PUBREL is written to c exactly when a PUBREC of c is accepted, and for its identifier. */
  lemma PubrelIffPubrec(b: Broker, ch: Choice, b': Broker, c: ClientId)
    requires Step(b, ch) == Running(b') && c in b.sessions && c in b'.sessions
    ensures Pubrels(b'.sessions[c].out) == Pubrels(b.sessions[c].out) + if Halves(b, ch.e, c) then [ch.e.id] else []
  {
    assert Pubrels(b.sessions[c].out) + [] == Pubrels(b.sessions[c].out);
    if FanOutOf(b, ch.e).Some? {
      FanOutPubrels(b, ch, c);
    } else {
      OtherPubrels(b, ch, b', c);
    }
  }

  // The identifiers of the PUBRECs accepted from c since its session was created, in order.
  function PubrecsBefore(r: Run, k: nat, c: ClientId): seq<uint16>
    requires |r.states| == |r.steps| + 1 && k < |r.states|
  {
    if k == 0 || c !in r.states[k].sessions || c !in r.states[k - 1].sessions then []
    else
      PubrecsBefore(r, k - 1, c)
      + if Halves(r.states[k - 1], r.steps[k - 1].e, c) then [r.steps[k - 1].e.id] else []
  }

  /** In every run the PUBRELs written to c answer the accepted PUBRECs one by one, identifier by identifier
      and in order. */
  lemma {:induction false} PubrelsAnswerPubrecs(r: Run, k: nat, c: ClientId)
    requires r.IsRun() && k < |r.states| && c in r.states[k].sessions
    ensures Pubrels(r.states[k].sessions[c].out) == PubrecsBefore(r, k, c)
  {
    var b, ch := r.states[k - 1], r.steps[k - 1];
    KeysStep(b, ch, r.states[k]);
    if c in b.sessions {
      PubrelsAnswerPubrecs(r, k - 1, c);
      PubrelIffPubrec(b, ch, r.states[k], c);
      hide Step, Valid, Halves, Pubrels;
    } else {
      NewSessionPubrels(c, ch.e.clear);
    }
  }

  lemma NewSessionPubrels(c: ClientId, clear: bool)
    ensures Pubrels(Login(FreshSession(c), c, clear).out) == []
  {
    PubrelsOne([], [ConnackPkt]);
    PubrelsReplay([[ConnackPkt]], []);
  }

  predicate StillAwaits(b: Broker, e: Event, c: ClientId, id: uint16) {
    Waits(b, c, id, WaitPubcomp) && !Reuses(b, e, c, id) && e != Pubcomp(c, id)
  }

  lemma AwaitsAfter(b: Broker, ch: Choice, b': Broker, c: ClientId, id: uint16)
    requires Inv(b) && Valid(b, ch) && Step(b, ch) == Running(b') && c in b.sessions && c in b'.sessions
    ensures id in AwaitingPubcomp(b'.sessions[c])
            <==> StillAwaits(b, ch.e, c, id) || (ch.e == Pubrec(c, id) && Halves(b, ch.e, c))
  {
    Lifecycle(b, ch, b', c, id);
    hide Step, Valid, Inv, FanOutOf;
  }

  // The identifiers that a step takes from deliveries awaiting their PUBCOMP.
  function Reused(b: Broker, e: Event, c: ClientId): set<uint16>
    requires c in b.sessions
  {
    set id | id in AwaitingPubcomp(b.sessions[c]) && Reuses(b, e, c, id)
  }

  lemma AwaitingStep(b: Broker, ch: Choice, b': Broker, c: ClientId)
    requires Inv(b) && Valid(b, ch) && Step(b, ch) == Running(b') && c in b.sessions && c in b'.sessions
    ensures var a := AwaitingPubcomp(b.sessions[c]);
            AwaitingPubcomp(b'.sessions[c])
            == if Halves(b, ch.e, c) then a + {ch.e.id}
               else if Completes(b, ch.e, c) then a - {ch.e.id}
               else a - Reused(b, ch.e, c)
  {
    forall id ensures id in AwaitingPubcomp(b'.sessions[c])
                      <==> StillAwaits(b, ch.e, c, id) || (ch.e == Pubrec(c, id) && Halves(b, ch.e, c))
    {
      AwaitsAfter(b, ch, b', c, id);
    }
    hide Step, Valid, Inv, FanOutOf, HasQos2;
  }

  lemma Sizes(a: set<uint16>, x: set<uint16>)
    requires x <= a
    ensures |a - x| == |a| - |x|
  {
    assert a == (a - x) + x;
  }

  /** One step: the PUBRELs written for deliveries that are over grow by one when a PUBCOMP is accepted, or
      by more, and by exactly that if and only if no identifier that awaits a PUBCOMP is reused. */
  lemma SurplusStep(b: Broker, ch: Choice, b': Broker, c: ClientId)
    requires Inv(b) && Valid(b, ch) && Step(b, ch) == Running(b') && c in b.sessions && c in b'.sessions
    ensures Surplus(b'.sessions[c]) >= Surplus(b.sessions[c]) + if Completes(b, ch.e, c) then 1 else 0
    ensures (Surplus(b'.sessions[c]) == Surplus(b.sessions[c]) + if Completes(b, ch.e, c) then 1 else 0)
            <==> ReusesNone(b, ch.e, c)
  {
    PubrelIffPubrec(b, ch, b', c);
    AwaitingStep(b, ch, b', c);
    var a, x := AwaitingPubcomp(b.sessions[c]), Reused(b, ch.e, c);
    Sizes(a, x);
    assert x == {} <==> ReusesNone(b, ch.e, c) by {
      assert forall id :: Reuses(b, ch.e, c, id) <==> id in x;
    }
    hide Step, Valid, Inv, Pubrels, Replays;
    if Completes(b, ch.e, c) {
      Sizes(a, {ch.e.id});
    }
  }

  // PUBCOMPs accepted from c since its session was created.
  function CompletedBefore(r: Run, k: nat, c: ClientId): nat
    requires |r.states| == |r.steps| + 1 && k < |r.states|
  {
    if k == 0 || c !in r.states[k].sessions || c !in r.states[k - 1].sessions then 0
    else CompletedBefore(r, k - 1, c) + if Completes(r.states[k - 1], r.steps[k - 1].e, c) then 1 else 0
  }

  // No step has reused an identifier since c's session was created.
  ghost predicate ReuseFree(r: Run, k: nat, c: ClientId)
    requires |r.states| == |r.steps| + 1 && k < |r.states|
  {
    k == 0 || c !in r.states[k].sessions || c !in r.states[k - 1].sessions
    || (ReusesNone(r.states[k - 1], r.steps[k - 1].e, c) && ReuseFree(r, k - 1, c))
  }

  /** In every run the PUBRELs written to c are one per completed QoS 2 delivery and one per delivery that
      still awaits its PUBCOMP, if and only if no such identifier has been reused since c's session was
      created, and more than these otherwise. */
  lemma {:induction false} OnePubrelPerDelivery(r: Run, k: nat, c: ClientId)
    requires r.IsRun() && k < |r.states| && c in r.states[k].sessions
    ensures Surplus(r.states[k].sessions[c]) >= CompletedBefore(r, k, c)
    ensures (|Pubrels(r.states[k].sessions[c].out)|
             == CompletedBefore(r, k, c) + |AwaitingPubcomp(r.states[k].sessions[c])|)
            <==> ReuseFree(r, k, c)
  {
    var b, ch := r.states[k - 1], r.steps[k - 1];
    KeysStep(b, ch, r.states[k]);
    InvRun(r, k - 1);
    if c in b.sessions {
      OnePubrelPerDelivery(r, k - 1, c);
      SurplusStep(b, ch, r.states[k], c);
      hide Step, Valid, Inv, Completes, Reuses, Pubrels, AwaitingPubcomp;
    } else {
      NewSessionPubrels(c, ch.e.clear);
      assert AwaitingPubcomp(Login(FreshSession(c), c, ch.e.clear)) == {};
    }
  }
}
