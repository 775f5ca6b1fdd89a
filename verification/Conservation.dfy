// In-flight deliveries are conserved: what was written to a client at QoS 1 or 2 and not yet
// acknowledged is what PubStatus tracks, as long as nothing reuses an identifier.
module Conservation {
  import opened MqttTypes
  import opened Dispatcher
  import opened Invariants
  import opened ExactlyOnce

  // Identifiers that wait for an acknowledgement of a message sent to the client.
  function InFlight(s: Session): set<uint16> {
    set id | id in s.status && s.status[id] != WaitPubrel
  }

  // The publishes among these packets that the client has to acknowledge.
  function NeedAcks(ps: seq<Packet>): nat {
    if ps == [] then 0
    else
      var n := |ps| - 1;
      NeedAcks(ps[..n]) + if ps[n].PublishPkt? && ps[n].m.qos != 0 then 1 else 0
  }

  function Sent(view: Reading, out: seq<Write>): nat {
    if out == [] then 0 else Sent(view, out[..|out| - 1]) + NeedAcks(PacketsOf(view, out[|out| - 1]))
  }

  lemma NeedAcksOne(ps: seq<Packet>, p: Packet)
    ensures NeedAcks(ps + [p]) == NeedAcks(ps) + if p.PublishPkt? && p.m.qos != 0 then 1 else 0
  {
    assert (ps + [p])[..|ps|] == ps;
  }

  // A write of some packets and then one more.
  lemma SentOne(view: Reading, out: seq<Write>, lead: Write, p: Packet)
    ensures Sent(view, out + [lead + [p]])
            == Sent(view, out) + (if view == AsWritten then NeedAcks(lead) else 0)
               + if p.PublishPkt? && p.m.qos != 0 then 1 else 0
  {
    var w := lead + [p];
    assert (out + [w])[..|out|] == out;
    NeedAcksOne(lead, p);
    NeedAcksOne([], p);
    assert [] + [p] == [p];
    assert PacketsOf(view, w) == if view == AsWritten then w else [p];
  }

  lemma SentSingle(view: Reading, out: seq<Write>, p: Packet)
    ensures Sent(view, out + [[p]]) == Sent(view, out) + if p.PublishPkt? && p.m.qos != 0 then 1 else 0
  {
    SentOne(view, out, [], p);
    assert [] + [p] == [p];
  }

  // What the PUBLISH loop's buffer holds all has the QoS of the message.
  lemma {:induction false} BufferAcks(f: FanOut, pick: map<ClientId, uint16>, order: seq<ClientId>)
    ensures NeedAcks(f.Buffer(pick, order)) == if f.m.qos != 0 then |f.Buffer(pick, order)| else 0
  {
    if order != [] {
      var n := |order| - 1;
      BufferAcks(f, pick, order[..n]);
      if f.Written(order[n]) {
        NeedAcksOne(f.Buffer(pick, order[..n]), PublishPkt(f.Copy(pick, order[n])));
      } else {
        assert f.Buffer(pick, order[..n]) + [] == f.Buffer(pick, order[..n]);
      }
    }
  }

  // 1 if the event is an acknowledgement that ends a delivery to c.
  function Accepted(b: Broker, e: Event, c: ClientId): nat {
    match e
    case Puback(d, id) => if d == c && Waits(b, c, id, WaitPuback) then 1 else 0
    case Pubcomp(d, id) => if d == c && Waits(b, c, id, WaitPubcomp) then 1 else 0
    case _ => 0
  }

  // Replaying these messages adds one tracked identifier per message that needs an acknowledgement.
  predicate CleanReplay(s: Session, msgs: seq<Publish>) {
    && (forall i :: 0 <= i < |msgs| && msgs[i].qos != 0 ==> msgs[i].qos == 2 && msgs[i].packetId !in InFlight(s))
    && (forall i, j :: 0 <= i < j < |msgs| && msgs[i].qos == 2 && msgs[j].qos == 2 ==> msgs[i].packetId != msgs[j].packetId)
  }

  // The PUBLISH loop writes c other subscribers' copies, which need an acknowledgement too: at QoS 1,
  // when c is online and another online subscriber came before it in the map order.
  predicate Crowded(b: Broker, ch: Choice, c: ClientId) {
    match FanOutOf(b, ch.e)
    case None => false
    case Some(f) => f.path == FromPublish && f.m.qos == 1 && f.Written(c) && f.Lead(ch.o, c) != []
  }

  /** The step loses track of a delivery to c: its client publishes at QoS 2 under an identifier that is
      in flight towards it, or queued messages are replayed without a tracked identifier of their own (a
      queued QoS 1 message is never tracked); and, as the buffer is written, it writes c copies that are
      tracked for others. */
  predicate Leaks(view: Reading, b: Broker, ch: Choice, c: ClientId)
    requires c in b.sessions
  {
    match ch.e
    case Pub(d, m) =>
      || (d == c && m.qos == 2 && m.packetId in InFlight(b.sessions[c]))
      || (view == AsWritten && Crowded(b, ch, c))
    case Add(d, _) => d == c && !CleanReplay(b.sessions[c], b.sessions[c].offline)
    case ClusterLoginInfo(info) => info.clientId == c && !CleanReplay(b.sessions[c], info.offline)
    case _ => false
  }

  // Sent minus tracked: what has been accepted so far, if nothing leaked.
  function Balance(view: Reading, s: Session): int {
    Sent(view, s.out) - |InFlight(s)|
  }

  // ---- one send ----

  // What the buffer adds to a write.
  function Extra(view: Reading, lead: Write): nat {
    if view == AsWritten then NeedAcks(lead) else 0
  }

  lemma SendQos0Balance(view: Reading, s: Session, m: Publish, lead: Write)
    ensures Sent(view, SendQos0(s, m, lead).out)
            == Sent(view, s.out) + Extra(view, lead) + if m.qos != 0 then 1 else 0
  {
    SentOne(view, s.out, lead, PublishPkt(m));
  }

  lemma SendQos1Balance(view: Reading, s: Session, m: Publish, lead: Write)
    requires m.qos == 1 && m.packetId !in s.status
    ensures Balance(view, SendQos1(s, m, lead)) == Balance(view, s) + Extra(view, lead)
  {
    SendQos0Balance(view, s, m, lead);
    assert InFlight(SendQos1(s, m, lead)) == InFlight(s) + {m.packetId};
  }

  lemma SendQos2Balance(view: Reading, s: Session, m: Publish)
    requires m.qos == 2 && m.packetId !in s.status
    ensures Balance(view, SendQos2(s, m)) == Balance(view, s)
  {
    SendQos0Balance(view, s, m, []);
    assert InFlight(SendQos2(s, m)) == InFlight(s) + {m.packetId};
  }

  lemma ReceiveBalance(view: Reading, path: Path, s: Session, m: Publish, lead: Write)
    requires m.topic in s.subs ==> m.packetId !in s.status
    requires path == FromPubrel ==> m.qos == 2
    ensures Balance(view, Receive(path, s, m, lead))
            == Balance(view, s)
               + if path == FromPublish && m.topic in s.subs && s.online && m.qos <= 1 then Extra(view, lead) else 0
  {
    assert NeedAcks([]) == 0;
    hide Balance, NeedAcks, SendQos0, SendQos1, SendQos2, Enqueue;
    if m.topic in s.subs && s.online {
      var l := if path == FromPublish then lead else [];
      if m.qos == 0 {
        SendQos0Keeps(view, s, m, l);
      } else if m.qos == 1 {
        SendQos1Balance(view, s, m, l);
      } else if m.qos == 2 {
        SendQos2Balance(view, s, m);
      }
    } else {
      EnqueueKeeps(view, s, m);
    }
  }

  lemma SendQos0Keeps(view: Reading, s: Session, m: Publish, lead: Write)
    requires m.qos == 0
    ensures Balance(view, SendQos0(s, m, lead)) == Balance(view, s) + Extra(view, lead)
  {
    SendQos0Balance(view, s, m, lead);
    assert InFlight(SendQos0(s, m, lead)) == InFlight(s);
  }

  lemma EnqueueKeeps(view: Reading, s: Session, m: Publish)
    ensures Balance(view, Enqueue(s, m)) == Balance(view, s)
  {
    assert InFlight(Enqueue(s, m)) == InFlight(s);
  }

  // ---- a replay ----

  lemma {:induction false} ReplaySent(view: Reading, out: seq<Write>, msgs: seq<Publish>)
    ensures Sent(view, out + Singles(msgs)) >= Sent(view, out)
    ensures msgs != [] ==>
              Sent(view, out + Singles(msgs)) == Sent(view, out + Singles(msgs[..|msgs| - 1]))
                                                 + if msgs[|msgs| - 1].qos != 0 then 1 else 0
  {
    if msgs != [] {
      var n := |msgs| - 1;
      ReplaySent(view, out, msgs[..n]);
      assert out + Singles(msgs) == (out + Singles(msgs[..n])) + [[PublishPkt(msgs[n])]];
      SentSingle(view, out + Singles(msgs[..n]), PublishPkt(msgs[n]));
    } else {
      assert out + Singles(msgs) == out;
    }
  }

  lemma CleanReplayLast(s: Session, msgs: seq<Publish>)
    requires msgs != []
    ensures var n := |msgs| - 1;
            CleanReplay(s, msgs) <==>
              && CleanReplay(s, msgs[..n])
              && (msgs[n].qos != 0 ==> msgs[n].qos == 2 && msgs[n].packetId !in InFlight(s)
                                       && !HasQos2(msgs[..n], msgs[n].packetId))
  {
    var n := |msgs| - 1;
    var p := msgs[..n];
    assert forall i :: 0 <= i < n ==> p[i] == msgs[i];
    if CleanReplay(s, msgs) {
      assert msgs[n].qos != 0 ==> msgs[n].qos == 2 && msgs[n].packetId !in InFlight(s);
    }
  }

  // Replaying one more message tracks its identifier at QoS 2.
  lemma ReplayInFlight(s: Session, msgs: seq<Publish>)
    requires msgs != []
    ensures var n := |msgs| - 1;
            InFlight(Replay(s, msgs))
            == InFlight(Replay(s, msgs[..n])) + if msgs[n].qos == 2 then {msgs[n].packetId} else {}
  {
    hide Singles;
  }

  lemma ReplayTracks(s: Session, msgs: seq<Publish>, id: uint16)
    ensures id in InFlight(Replay(s, msgs)) <==> id in InFlight(s) || HasQos2(msgs, id)
  {
    ReplayStatusExactly(s.status, msgs, id);
    hide HasQos2, Singles, ReplayStatus;
  }

  lemma AddOne(a: set<uint16>, id: uint16)
    ensures |a + {id}| == |a| + if id in a then 0 else 1
  {
    if id in a {
      assert a + {id} == a;
    }
  }

  lemma {:induction false} ReplayBalance(view: Reading, s: Session, msgs: seq<Publish>)
    ensures Balance(view, Replay(s, msgs)) >= Balance(view, s)
    ensures Balance(view, Replay(s, msgs)) == Balance(view, s) <==> CleanReplay(s, msgs)
  {
    ReplaySent(view, s.out, msgs);
    if msgs == [] {
      assert s.out + Singles(msgs) == s.out;
      assert Replay(s, msgs) == s;
    } else {
      var n := |msgs| - 1;
      ReplayBalance(view, s, msgs[..n]);
      CleanReplayLast(s, msgs);
      ReplayInFlight(s, msgs);
      ReplayTracks(s, msgs[..n], msgs[n].packetId);
      AddOne(InFlight(Replay(s, msgs[..n])), msgs[n].packetId);
      hide CleanReplay, HasQos2, Sent, Singles, InFlight, ReplayStatus;
    }
  }

  // ---- one step ----

  // By how much a step that leaks raises the balance, apart from replays.
  function Rise(view: Reading, b: Broker, ch: Choice, c: ClientId): nat
    requires c in b.sessions
  {
    if ch.e.Pub? && ch.e.c == c && ch.e.m.qos == 2 && ch.e.m.packetId in InFlight(b.sessions[c]) then 1
    else if view == AsWritten && Crowded(b, ch, c) then |FanOutOf(b, ch.e).value.Lead(ch.o, c)|
    else 0
  }

  lemma FanOutBalance(view: Reading, b: Broker, ch: Choice, c: ClientId)
    requires Inv(b) && Valid(b, ch) && FanOutOf(b, ch.e).Some? && c in b.sessions
    ensures var s' := FanOutOf(b, ch.e).value.Spread(ch.o);
            c in s' && Balance(view, s'[c]) == Balance(view, b.sessions[c]) + Rise(view, b, ch, c)
  {
    var f := FanOutOf(b, ch.e).value;
    FanOutKeepsInv(b, ch.e);
    var s := f.sessions[c];
    if f.Matches(c) {
      assert c in ch.o.pick && CanDraw(s, ch.o.pick[c]);
    }
    ReceiveBalance(view, f.path, s, f.Copy(ch.o.pick, c), f.Lead(ch.o, c));
    StartBalance(view, b, ch.e, c);
    BufferAcks(f, ch.o.pick, Before(ch.o.order, c));
    hide Receive, Balance, InFlight, Inv, Valid, FanOut.Buffer, Before, FanOut.Spread;
    RiseOf(view, b, ch, c);
  }

  // The rise, from what the message's own client and the loop add.
  lemma RiseOf(view: Reading, b: Broker, ch: Choice, c: ClientId)
    requires FanOutOf(b, ch.e).Some? && c in b.sessions
    requires var f := FanOutOf(b, ch.e).value;
             f.path == FromPublish ==>
               NeedAcks(f.Lead(ch.o, c)) == if f.m.qos != 0 then |f.Lead(ch.o, c)| else 0
    ensures var f := FanOutOf(b, ch.e).value;
            Rise(view, b, ch, c) == StartRise(b, ch.e, c)
                                    + if f.path == FromPublish && f.Written(c) then Extra(view, f.Lead(ch.o, c)) else 0
  {
  }

  function StartRise(b: Broker, e: Event, c: ClientId): nat
    requires c in b.sessions
  {
    if e.Pub? && e.c == c && e.m.qos == 2 && e.m.packetId in InFlight(b.sessions[c]) then 1 else 0
  }

  // What PUBLISH and PUBREL do to their own client before the loop.
  lemma StartBalance(view: Reading, b: Broker, e: Event, c: ClientId)
    requires Inv(b) && FanOutOf(b, e).Some? && c in b.sessions
    ensures Balance(view, FanOutOf(b, e).value.sessions[c]) == Balance(view, b.sessions[c]) + StartRise(b, e, c)
  {
    var s := b.sessions[c];
    var s1 := FanOutOf(b, e).value.sessions[c];
    if e.Pub? && e.c == c && e.m.qos == 2 {
      assert InFlight(s1) == InFlight(s) - {e.m.packetId};
    } else if e.Pubrel? && e.c == c {
      SentSingle(view, s.out, PubcompPkt(e.id));
      assert InFlight(s1) == InFlight(s);
    }
  }

  lemma DoneBalance(view: Reading, s: Session, s': Session, id: uint16)
    requires id in InFlight(s) && s'.status == s.status - {id} && s'.out == s.out
    ensures Balance(view, s') == Balance(view, s) + 1
  {
    assert InFlight(s') == InFlight(s) - {id};
  }

  lemma HalfwayBalance(view: Reading, s: Session, s': Session, id: uint16)
    requires id in InFlight(s) && s'.status == s.status[id := WaitPubcomp] && s'.out == s.out + [[PubrelPkt(id)]]
    ensures Balance(view, s') == Balance(view, s)
  {
    SentSingle(view, s.out, PubrelPkt(id));
    assert InFlight(s') == InFlight(s);
  }

  lemma AckBalance(view: Reading, b: Broker, ch: Choice, b': Broker, c: ClientId)
    requires Inv(b) && Step(b, ch) == Running(b') && FanOutOf(b, ch.e).None? && c in b.sessions
    requires ch.e.Puback? || ch.e.Pubrec? || ch.e.Pubrel? || ch.e.Pubcomp?
    ensures Balance(view, b'.sessions[c]) == Balance(view, b.sessions[c]) + Accepted(b, ch.e, c)
  {
    var s, s' := b.sessions[c], b'.sessions[c];
    if ch.e.c == c && s' != s {
      if ch.e.Pubrec? {
        HalfwayBalance(view, s, s', ch.e.id);
      } else {
        DoneBalance(view, s, s', ch.e.id);
      }
    } else {
      assert Accepted(b, ch.e, c) == 0;
    }
  }

  lemma OtherBalance(view: Reading, b: Broker, ch: Choice, b': Broker, c: ClientId)
    requires Inv(b) && Step(b, ch) == Running(b') && FanOutOf(b, ch.e).None?
    requires !ch.e.Add? && !ch.e.ClusterLoginInfo?
    requires c in b.sessions && c in b'.sessions
    ensures Balance(view, b'.sessions[c]) == Balance(view, b.sessions[c]) + Accepted(b, ch.e, c)
  {
    if ch.e.Puback? || ch.e.Pubrec? || ch.e.Pubrel? || ch.e.Pubcomp? {
      AckBalance(view, b, ch, b', c);
    } else {
      assert b'.sessions[c].status == b.sessions[c].status && b'.sessions[c].out == b.sessions[c].out;
      assert InFlight(b'.sessions[c]) == InFlight(b.sessions[c]);
    }
  }

  lemma LoginBalance(view: Reading, s: Session, c: ClientId, clear: bool)
    ensures Balance(view, Login(s, c, clear)) >= Balance(view, s)
    ensures Balance(view, Login(s, c, clear)) == Balance(view, s) <==> CleanReplay(s, s.offline)
  {
    var s1 := s.(clientId := c, clear := clear, online := true, out := s.out + [[ConnackPkt]]);
    SentSingle(view, s.out, ConnackPkt);
    assert InFlight(s1) == InFlight(s);
    ReplayBalance(view, s1, s.offline);
    assert CleanReplay(s1, s.offline) <==> CleanReplay(s, s.offline);
    assert InFlight(Login(s, c, clear)) == InFlight(Replay(s1, s.offline));
  }

  // Leaks other than those of replays are what makes the balance rise.
  lemma RisesIffLeaks(view: Reading, b: Broker, ch: Choice, c: ClientId)
    requires c in b.sessions && !ch.e.Add? && !ch.e.ClusterLoginInfo?
    ensures Rise(view, b, ch, c) > 0 <==> Leaks(view, b, ch, c)
  {
  }

  /** One step changes (sent minus tracked) by the acknowledgement it accepts, or by more, and by exactly
      that if and only if it does not leak. */
  lemma BalanceStep(view: Reading, b: Broker, ch: Choice, b': Broker, c: ClientId)
    requires Inv(b) && Valid(b, ch) && Step(b, ch) == Running(b')
    requires c in b.sessions && c in b'.sessions
    ensures Balance(view, b'.sessions[c]) >= Balance(view, b.sessions[c]) + Accepted(b, ch.e, c)
    ensures Balance(view, b'.sessions[c]) == Balance(view, b.sessions[c]) + Accepted(b, ch.e, c)
            <==> !Leaks(view, b, ch, c)
  {
    hide FanOut.Lead, CleanReplay, Balance;
    if FanOutOf(b, ch.e).Some? {
      FanOutBalance(view, b, ch, c);
      RisesIffLeaks(view, b, ch, c);
      hide FanOut.Spread, Leaks, Rise;
    } else if ch.e.Add? {
      LoginBalance(view, b.sessions[c], c, ch.e.clear);
    } else if ch.e.ClusterLoginInfo? {
      var s := Replay(b.sessions[c], ch.e.info.offline);
      ReplayBalance(view, b.sessions[c], ch.e.info.offline);
      SubsBalance(view, s, s.subs + ch.e.info.subs);
    } else {
      OtherBalance(view, b, ch, b', c);
    }
  }

  lemma SubsBalance(view: Reading, s: Session, subs: map<GoString, byte>)
    ensures Balance(view, s.(subs := subs)) == Balance(view, s)
  {
    assert InFlight(s.(subs := subs)) == InFlight(s);
  }

  // ---- runs ----

  // PUBACKs and PUBCOMPs accepted from c since its session was created.
  function AcceptedBefore(r: Run, k: nat, c: ClientId): nat
    requires |r.states| == |r.steps| + 1 && k < |r.states|
  {
    if k == 0 || c !in r.states[k].sessions || c !in r.states[k - 1].sessions then 0
    else AcceptedBefore(r, k - 1, c) + Accepted(r.states[k - 1], r.steps[k - 1].e, c)
  }

  // No step has leaked since c's session was created.
  predicate LeakFree(view: Reading, r: Run, k: nat, c: ClientId)
    requires |r.states| == |r.steps| + 1 && k < |r.states|
  {
    k == 0 || c !in r.states[k].sessions || c !in r.states[k - 1].sessions
    || (!Leaks(view, r.states[k - 1], r.steps[k - 1], c) && LeakFree(view, r, k - 1, c))
  }

  /** Conservation: in every run, the publishes written to c that need an acknowledgement, minus the
      acknowledgements accepted from c, are the identifiers in flight if and only if no step has leaked
      since c's session was created, and more than these otherwise. */
  lemma {:induction false} InFlightConserved(view: Reading, r: Run, k: nat, c: ClientId)
    requires r.IsRun() && k < |r.states| && c in r.states[k].sessions
    ensures Balance(view, r.states[k].sessions[c]) >= AcceptedBefore(r, k, c)
    ensures Sent(view, r.states[k].sessions[c].out) - AcceptedBefore(r, k, c) == |InFlight(r.states[k].sessions[c])|
            <==> LeakFree(view, r, k, c)
  {
    var b, ch := r.states[k - 1], r.steps[k - 1];
    KeysStep(b, ch, r.states[k]);
    if c in b.sessions {
      InFlightConserved(view, r, k - 1, c);
      InvRun(r, k - 1);
      BalanceStep(view, b, ch, r.states[k], c);
      hide Step, Valid, Inv, Leaks, InFlight, Accepted;
    } else {
      NewSessionBalance(view, c, ch.e.clear);
    }
  }

  lemma NewSessionBalance(view: Reading, c: ClientId, clear: bool)
    ensures Balance(view, Login(FreshSession(c), c, clear)) == 0
  {
    LoginBalance(view, FreshSession(c), c, clear);
  }

  // A PUBACK for an identifier that waits for PUBREL changes nothing.
  lemma PubackDropped(b: Broker, c: ClientId, id: uint16, o: Oracle)
    requires Waits(b, c, id, WaitPubrel)
    ensures Step(b, Choice(Puback(c, id), o)) == Running(b)
  {
  }

  lemma ClashWaitsForPubrel(b: Broker, ch: Choice, b1: Broker, c: ClientId, id: uint16)
    requires Inv(b) && Valid(b, ch) && Step(b, ch) == Running(b1)
    requires c in b.sessions && ch.e.Pub? && ch.e.c == c && ch.e.m.qos == 2 && ch.e.m.packetId == id
    ensures Waits(b1, c, id, WaitPubrel)
  {
    KeysStep(b, ch, b1);
    Lifecycle(b, ch, b1, c, id);
    hide Step, Inv, Valid, FanOutOf;
  }

  /** The clash: once the client's own QoS 2 PUBLISH takes the identifier of a QoS 1 delivery, the
      client's PUBACK for that delivery is dropped, and the delivery is no longer tracked. */
  lemma ClashDropsPuback(view: Reading, b: Broker, ch: Choice, b1: Broker, c: ClientId, id: uint16, o: Oracle)
    requires Inv(b) && Valid(b, ch) && Step(b, ch) == Running(b1)
    requires Waits(b, c, id, WaitPuback)
    requires ch.e.Pub? && ch.e.c == c && ch.e.m.qos == 2 && ch.e.m.packetId == id
    ensures Step(b1, Choice(Puback(c, id), o)) == Running(b1)
    ensures c in b1.sessions && Balance(view, b1.sessions[c]) == Balance(view, b.sessions[c]) + 1
  {
    assert FanOutOf(b, ch.e).Some? && b1.sessions == FanOutOf(b, ch.e).value.Spread(ch.o);
    hide Step, FanOut.Spread, Inv, Valid, Balance, FanOutOf;
    ClashWaitsForPubrel(b, ch, b1, c, id);
    PubackDropped(b1, c, id, o);
    FanOutBalance(view, b, ch, c);
  }

  // ---- the clash in a run ----

  function Reader(c: ClientId, t: GoString): Session {
    Login(FreshSession(c), c, false).(subs := map[t := 1])
  }

  function Got(c: ClientId, m: Publish): Session {
    SendQos1(Reader(c, m.topic), m, [])
  }

  function One(c: ClientId, s: Session): Broker {
    Broker(map[c := s], [LoginMsg(c)])
  }

  lemma ReaderIs(c: ClientId, t: GoString)
    ensures var s := Reader(c, t); s.online && s.status == map[] && s.subs == map[t := 1] && s.out == [[ConnackPkt]]
  {
    assert Singles([]) == [];
  }

  lemma Subscribe(c: ClientId, t: GoString, o: Oracle)
    ensures Step(One(c, Login(FreshSession(c), c, false)), Choice(Sub(c, [Filter(t, 1)]), o)) == Running(One(c, Reader(c, t)))
  {
    ReaderIs(c, t);
    var s, f := Login(FreshSession(c), c, false), [Filter(t, 1)];
    assert s.subs == map[];
    hide Login;
    assert f[..0] == [] && LastWins(map[], f) == map[][t := 1];
    assert map[c := s][c := Reader(c, t)] == map[c := Reader(c, t)];
  }

  // A publish of another node reaches c under the identifier that m carries.
  lemma ReachesReader(c: ClientId, m: Publish)
    requires m.qos == 1 && m.packetId < ID_RANGE
    ensures var ch := Choice(ClusterPub(m), Oracle(map[c := m.packetId], [c]));
            Valid(One(c, Reader(c, m.topic)), ch) && Step(One(c, Reader(c, m.topic)), ch) == Running(One(c, Got(c, m)))
  {
    ReaderIs(c, m.topic);
    hide Login;
    var b, o := One(c, Reader(c, m.topic)), Oracle(map[c := m.packetId], [c]);
    var f := FanOutOf(b, ClusterPub(m)).value;
    assert Permutes([c], f.sessions.Keys) && f.Copy(o.pick, c) == m;
    assert f.Spread(o) == map[c := Got(c, m)];
  }

  // c's own QoS 2 PUBLISH on a topic that nobody has.
  lemma TakesIdentifier(c: ClientId, m: Publish, own: Publish)
    requires own.qos == 2 && own.topic != m.topic
    ensures var ch := Choice(Pub(c, own), Oracle(map[], [c]));
            Valid(One(c, Got(c, m)), ch) && Step(One(c, Got(c, m)), ch) == Running(One(c, Store(Got(c, m), own)))
  {
    ReaderIs(c, m.topic);
    hide Login;
    var b, o := One(c, Got(c, m)), Oracle(map[], [c]);
    var f := FanOutOf(b, Pub(c, own)).value;
    assert f.sessions == map[c := Store(Got(c, m), own)];
    assert !f.Matches(c) && Permutes([c], f.sessions.Keys);
    assert f.Spread(o) == f.sessions;
  }

  lemma ClashCounts(view: Reading, c: ClientId, m: Publish, own: Publish)
    requires m.qos == 1 && own.qos == 2 && own.packetId == m.packetId
    ensures var s := Store(Got(c, m), own);
            Sent(view, s.out) == 1 && InFlight(s) == {} && s.status[m.packetId] == WaitPubrel
  {
    ReaderIs(c, m.topic);
    hide Login;
    SentSingle(view, [], ConnackPkt);
    SentSingle(view, [[ConnackPkt]], PublishPkt(m));
    assert [] + [PublishPkt(m)] == [PublishPkt(m)] && [] + [[ConnackPkt]] == [[ConnackPkt]];
  }

  // The delivery and the client's own message, under the same identifier.
  function Sent5(t: GoString): Publish {
    Publish(0, 5, 0, t, 1, [])
  }

  function Own5(t: GoString): Publish {
    Publish(0, 5, 0, t, 2, [])
  }

  // A run and one more step.
  lemma OneMore(r: Run, ch: Choice, b: Broker) returns (r': Run)
    requires r.IsRun() && Valid(r.states[|r.steps|], ch) && Step(r.states[|r.steps|], ch) == Running(b)
    ensures r'.IsRun() && r'.states == r.states + [b] && r'.steps == r.steps + [ch]
  {
    hide Step, Valid;
    r' := Run(r.states + [b], r.steps + [ch]);
    forall k | 0 <= k < |r'.steps|
      ensures Valid(r'.states[k], r'.steps[k]) && Step(r'.states[k], r'.steps[k]) == Running(r'.states[k + 1])
    {
      if k < |r.steps| {
        assert r'.states[k] == r.states[k] && r'.states[k + 1] == r.states[k + 1];
      }
    }
  }

  lemma ClashFirst(c: ClientId, t: GoString, own: GoString) returns (r: Run)
    requires own != t
    ensures r.IsRun() && |r.steps| == 4 && r.states[4] == One(c, Store(Got(c, Sent5(t)), Own5(own)))
    ensures forall k :: 0 <= k < 4 ==> !r.steps[k].e.Puback? && !r.steps[k].e.Pubcomp?
  {
    var o, m, m' := Oracle(map[], [c]), Sent5(t), Own5(own);
    var s1, s2 := Choice(Add(c, false), o), Choice(Sub(c, [Filter(t, 1)]), o);
    var s3, s4 := Choice(ClusterPub(m), Oracle(map[c := 5], [c])), Choice(Pub(c, m'), o);
    var b1, b2 := One(c, Login(FreshSession(c), c, false)), One(c, Reader(c, t));
    var b3, b4 := One(c, Got(c, m)), One(c, Store(Got(c, m), m'));
    assert Valid(b1, s2);
    LoneLogin(c, o);
    Subscribe(c, t, o);
    ReachesReader(c, m);
    TakesIdentifier(c, m, m');
    r := Run([INIT], []);
    hide Step, Valid, Login, Store, Got, Reader, One, Run.IsRun;
    RunShape(r);
    r := OneMore(r, s1, b1);
    r := OneMore(r, s2, b2);
    r := OneMore(r, s3, b3);
    r := OneMore(r, s4, b4);
  }

  /** The clash as a run: a QoS 1 delivery is written under identifier 5, c publishes at QoS 2 under 5, and
      its PUBACK for the delivery changes nothing: one publish was written, none is in flight, and nothing
      has been accepted. */
  lemma ClashRun(view: Reading, c: ClientId, t: GoString, own: GoString) returns (r: Run)
    requires own != t
    ensures r.IsRun() && |r.steps| == 5 && r.steps[4].e == Puback(c, 5) && r.states[5] == r.states[4]
    ensures c in r.states[5].sessions && AcceptedBefore(r, 5, c) == 0
    ensures Sent(view, r.states[5].sessions[c].out) == 1 && InFlight(r.states[5].sessions[c]) == {}
  {
    var b, s5 := One(c, Store(Got(c, Sent5(t)), Own5(own))), Choice(Puback(c, 5), Oracle(map[], [c]));
    ClashCounts(view, c, Sent5(t), Own5(own));
    assert 5 in b.sessions[c].status && Valid(b, s5);
    PubackDropped(b, c, 5, s5.o);
    assert !Waits(b, c, 5, WaitPuback) && c in b.sessions;
    hide Step, Valid, Store, Got, Sent, InFlight, Waits, Run.IsRun, AcceptedBefore;
    r := ClashFirst(c, t, own);
    assert |r.states| == |r.steps| + 1 by { RunShape(r); }
    r := OneMore(r, s5, b);
    NoneAccepted(r, b, c);
  }

  lemma RunShape(r: Run)
    requires r.IsRun()
    ensures |r.states| == |r.steps| + 1
  {
    hide Step, Valid;
  }

  // The only acknowledgement is for an identifier that waits for PUBREL.
  lemma NoneAccepted(r: Run, b: Broker, c: ClientId)
    requires |r.steps| == 5 && |r.states| == 6 && r.states[4] == b && r.steps[4].e == Puback(c, 5)
    requires !Waits(b, c, 5, WaitPuback)
    requires forall k :: 0 <= k < 4 ==> !r.steps[k].e.Puback? && !r.steps[k].e.Pubcomp?
    ensures AcceptedBefore(r, 5, c) == 0
  {
    assert AcceptedBefore(r, 1, c) == 0;
    assert AcceptedBefore(r, 2, c) == 0;
    assert AcceptedBefore(r, 3, c) == 0;
    assert AcceptedBefore(r, 4, c) == 0;
  }

  // ---- at most 62 ----

  ghost predicate Drawn(s: Session) {
    && (forall id :: id in InFlight(s) ==> id < ID_RANGE)
    && (forall i :: 0 <= i < |s.offline| ==> s.offline[i].packetId < ID_RANGE)
  }

  // Handed-over messages carry identifiers another node's allocator drew.
  predicate PeersDraw(e: Event) {
    e.ClusterLoginInfo? ==> forall i :: 0 <= i < |e.info.offline| ==> e.info.offline[i].packetId < ID_RANGE
  }

  lemma ReplayDrawn(s: Session, msgs: seq<Publish>)
    requires Drawn(s) && forall i :: 0 <= i < |msgs| ==> msgs[i].packetId < ID_RANGE
    ensures Drawn(Replay(s, msgs))
  {
    forall id | id in InFlight(Replay(s, msgs)) ensures id < ID_RANGE {
      ReplayStatusExactly(s.status, msgs, id);
      if !HasQos2(msgs, id) {
        assert id in InFlight(s);
      }
    }
  }

  lemma ReceiveDrawn(path: Path, s: Session, m: Publish, lead: Write)
    requires Drawn(s) && (m.topic in s.subs ==> m.packetId < ID_RANGE)
    ensures Drawn(Receive(path, s, m, lead))
  {
    var s' := Receive(path, s, m, lead);
    forall id | id in InFlight(s') ensures id < ID_RANGE {
      assert id == m.packetId || id in InFlight(s);
    }
  }

  lemma DrawnStep(b: Broker, ch: Choice, b': Broker, c: ClientId)
    requires Inv(b) && Valid(b, ch) && Step(b, ch) == Running(b') && PeersDraw(ch.e)
    requires c in b'.sessions && (c in b.sessions ==> Drawn(b.sessions[c]))
    ensures Drawn(b'.sessions[c])
  {
    KeysStep(b, ch, b');
    if FanOutOf(b, ch.e).Some? {
      DrawnFanOut(b, ch, c);
    } else if ch.e.Add? && ch.e.c == c {
      var s := if c in b.sessions then b.sessions[c] else FreshSession(c);
      var s1 := s.(clientId := c, clear := ch.e.clear, online := true, out := s.out + [[ConnackPkt]]);
      assert InFlight(s1) == InFlight(s);
      ReplayDrawn(s1, s.offline);
      assert InFlight(Login(s, c, ch.e.clear)) == InFlight(Replay(s1, s.offline));
    } else if ch.e.ClusterLoginInfo? && ch.e.info.clientId == c {
      ReplayDrawn(b.sessions[c], ch.e.info.offline);
      assert InFlight(b'.sessions[c]) == InFlight(Replay(b.sessions[c], ch.e.info.offline));
    } else {
      DrawnOther(b, ch, b', c);
    }
  }

  lemma DrawnFanOut(b: Broker, ch: Choice, c: ClientId)
    requires Inv(b) && Valid(b, ch) && FanOutOf(b, ch.e).Some? && c in b.sessions && Drawn(b.sessions[c])
    ensures var s' := FanOutOf(b, ch.e).value.Spread(ch.o); c in s' && Drawn(s'[c])
  {
    var f := FanOutOf(b, ch.e).value;
    assert f.sessions.Keys == b.sessions.Keys;
    if f.Matches(c) {
      assert c in ch.o.pick && CanDraw(f.sessions[c], ch.o.pick[c]);
    }
    assert InFlight(f.sessions[c]) <= InFlight(b.sessions[c]) && f.sessions[c].offline == b.sessions[c].offline;
    hide Inv, Receive, InFlight;
    ReceiveDrawn(f.path, f.sessions[c], f.Copy(ch.o.pick, c), f.Lead(ch.o, c));
  }

  lemma DrawnOther(b: Broker, ch: Choice, b': Broker, c: ClientId)
    requires Step(b, ch) == Running(b') && FanOutOf(b, ch.e).None?
    requires !(ch.e.Add? && ch.e.c == c) && !(ch.e.ClusterLoginInfo? && ch.e.info.clientId == c)
    requires c in b.sessions && c in b'.sessions && Drawn(b.sessions[c])
    ensures Drawn(b'.sessions[c])
  {
    assert b'.sessions[c].offline == b.sessions[c].offline;
    assert InFlight(b'.sessions[c]) <= InFlight(b.sessions[c]);
  }

  lemma {:induction false} DrawnRun(r: Run, k: nat, c: ClientId)
    requires r.IsRun() && k < |r.states| && c in r.states[k].sessions
    requires forall j :: 0 <= j < k ==> PeersDraw(r.steps[j].e)
    ensures Drawn(r.states[k].sessions[c])
  {
    if c in r.states[k - 1].sessions {
      DrawnRun(r, k - 1, c);
    }
    InvRun(r, k - 1);
    DrawnStep(r.states[k - 1], r.steps[k - 1], r.states[k], c);
  }

  lemma {:induction false} BoundedSet(s: set<uint16>, n: nat)
    requires forall id :: id in s ==> id < n
    ensures |s| <= n
    decreases n
  {
    if n == 0 {
      assert s == {};
    } else if n - 1 < 0x1_0000 {
      BoundedSet(s - {n - 1}, n - 1);
    } else {
      BoundedSet(s, n - 1);
    }
  }

  /** A session never has more than 62 deliveries in flight, in any run. */
  lemma AtMost62InFlight(r: Run, k: nat, c: ClientId)
    requires r.IsRun() && k < |r.states| && c in r.states[k].sessions
    requires forall j :: 0 <= j < k ==> PeersDraw(r.steps[j].e)
    ensures |InFlight(r.states[k].sessions[c])| <= 62
  {
    DrawnRun(r, k, c);
    BoundedSet(InFlight(r.states[k].sessions[c]), ID_RANGE);
  }
}
