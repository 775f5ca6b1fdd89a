// Which of the packets that the dispatcher writes the standard allows, over whole runs: if the clients' own
// messages are allowed, all of them but the ones under identifier 0, which the allocator may draw.
module PacketIds {
  import opened MqttTypes
  import opened Dispatcher
  import opened Invariants
  import opened ExactlyOnce
  import opened ClientView

  // ---- a property of all packets that a session was written, or has queued ----

  predicate AllOf(P: Packet -> bool, ps: seq<Packet>) {
    forall i :: 0 <= i < |ps| ==> P(ps[i])
  }

  predicate AllWrites(view: Reading, P: Packet -> bool, out: seq<Write>) {
    forall i :: 0 <= i < |out| ==> AllOf(P, PacketsOf(view, out[i]))
  }

  predicate AllQueued(P: Packet -> bool, msgs: seq<Publish>) {
    forall i :: 0 <= i < |msgs| ==> P(PublishPkt(msgs[i]))
  }

  predicate AllPackets(view: Reading, P: Packet -> bool, s: Session) {
    AllWrites(view, P, s.out) && AllQueued(P, s.offline)
  }

  // P is about publishes only.
  ghost predicate OfPublishes(P: Packet -> bool) {
    forall p: Packet :: !p.PublishPkt? ==> P(p)
  }

  lemma AllOfOne(P: Packet -> bool, ps: seq<Packet>, p: Packet)
    ensures AllOf(P, ps + [p]) <==> AllOf(P, ps) && P(p)
    ensures AllOf(P, [p]) <==> P(p)
  {
    assert (ps + [p])[|ps|] == p && forall i :: 0 <= i < |ps| ==> (ps + [p])[i] == ps[i];
    assert [p][0] == p;
  }

  lemma AllWritesOne(view: Reading, P: Packet -> bool, out: seq<Write>, lead: Write, p: Packet)
    ensures AllWrites(view, P, out + [lead + [p]])
            <==> AllWrites(view, P, out) && P(p) && (view == AsWritten ==> AllOf(P, lead))
  {
    var w, ws := lead + [p], out + [lead + [p]];
    AllOfOne(P, lead, p);
    assert PacketsOf(view, w) == if view == AsWritten then w else [p];
    assert ws[|out|] == w && forall i :: 0 <= i < |out| ==> ws[i] == out[i];
    hide AllOf, PacketsOf;
  }

  lemma AllWritesSingle(view: Reading, P: Packet -> bool, out: seq<Write>, p: Packet)
    ensures AllWrites(view, P, out + [[p]]) <==> AllWrites(view, P, out) && P(p)
  {
    AllWritesOne(view, P, out, [], p);
    assert [] + [p] == [p] && AllOf(P, []);
  }

  lemma AllQueuedOne(P: Packet -> bool, msgs: seq<Publish>, m: Publish)
    ensures AllQueued(P, msgs + [m]) <==> AllQueued(P, msgs) && P(PublishPkt(m))
  {
    assert (msgs + [m])[|msgs|] == m && forall i :: 0 <= i < |msgs| ==> (msgs + [m])[i] == msgs[i];
  }

  lemma {:induction false} AllWritesReplay(view: Reading, P: Packet -> bool, out: seq<Write>, msgs: seq<Publish>)
    ensures AllWrites(view, P, out + Singles(msgs)) <==> AllWrites(view, P, out) && AllQueued(P, msgs)
  {
    if msgs == [] {
      assert out + Singles(msgs) == out;
    } else {
      var n := |msgs| - 1;
      var before, m := msgs[..n], msgs[n];
      AllWritesReplay(view, P, out, before);
      AllWritesSingle(view, P, out + Singles(before), PublishPkt(m));
      AllQueuedOne(P, before, m);
      assert before + [m] == msgs;
      Assoc(out, Singles(before), [[PublishPkt(m)]]);
      hide AllWrites, AllQueued;
    }
  }

  lemma {:induction false} AllOfBuffer(P: Packet -> bool, f: FanOut, pick: map<ClientId, uint16>, order: seq<ClientId>)
    ensures AllOf(P, f.Buffer(pick, order))
            <==> forall d :: d in order && f.Written(d) ==> P(PublishPkt(f.Copy(pick, d)))
  {
    if order != [] {
      var n := |order| - 1;
      var before, x := order[..n], order[n];
      AllOfBuffer(P, f, pick, before);
      AllOfOne(P, f.Buffer(pick, before), PublishPkt(f.Copy(pick, x)));
      assert forall d :: d in order <==> d in before || d == x by { assert order == before + [x]; }
      assert f.Buffer(pick, before) + [] == f.Buffer(pick, before);
      hide AllOf, FanOut.Copy, FanOut.Written;
    }
  }

  // ---- one step ----

  predicate Takes(path: Path, s: Session, m: Publish) {
    && m.topic in s.subs && !(path == FromPublish && m.qos > 1)
    && if s.online then m.qos <= 2 else m.qos != 0
  }

  lemma ReceiveAll(view: Reading, P: Packet -> bool, path: Path, s: Session, m: Publish, lead: Write)
    requires path == FromPubrel ==> m.qos == 2
    ensures AllPackets(view, P, Receive(path, s, m, lead))
            <==> && AllPackets(view, P, s)
                 && (Takes(path, s, m) ==>
                      && P(PublishPkt(m))
                      && (s.online && view == AsWritten && path == FromPublish ==> AllOf(P, lead)))
  {
    if Takes(path, s, m) {
      if s.online {
        var l := if path == FromPublish then lead else [];
        assert AllOf(P, []);
        AllWritesOne(view, P, s.out, l, PublishPkt(m));
        assert Receive(path, s, m, lead).out == s.out + [l + [PublishPkt(m)]];
      } else {
        AllQueuedOne(P, s.offline, m);
      }
    }
    hide AllWrites, AllQueued, AllOf;
  }

  // A packet without P reaches c: its own copy; as written, one of those before it in the shared buffer; or
  // a message of a hand-off.
  ghost predicate Reaches(view: Reading, P: Packet -> bool, b: Broker, ch: Choice, c: ClientId) {
    match FanOutOf(b, ch.e)
    case Some(f) =>
      && GetsCopy(b, ch.e, c)
      && (|| !P(PublishPkt(f.Copy(ch.o.pick, c)))
          || (view == AsWritten && f.path == FromPublish && b.sessions[c].online
              && exists d :: d in Before(ch.o.order, c) && f.Written(d) && !P(PublishPkt(f.Copy(ch.o.pick, d)))))
    case None =>
      ch.e.ClusterLoginInfo? && ch.e.info.clientId == c && !AllQueued(P, ch.e.info.offline)
  }

  lemma StartAll(view: Reading, P: Packet -> bool, b: Broker, e: Event, c: ClientId)
    requires OfPublishes(P) && FanOutOf(b, e).Some? && c in b.sessions
    ensures var f := FanOutOf(b, e).value;
            && c in f.sessions && f.sessions[c].online == b.sessions[c].online && f.sessions[c].subs == b.sessions[c].subs
            && (AllPackets(view, P, f.sessions[c]) <==> AllPackets(view, P, b.sessions[c]))
  {
    if e.Pubrel? && e.c == c {
      AllWritesSingle(view, P, b.sessions[c].out, PubcompPkt(e.id));
    }
    hide AllWrites, AllQueued;
  }

  lemma FanOutAll(view: Reading, P: Packet -> bool, b: Broker, ch: Choice, c: ClientId)
    requires OfPublishes(P) && Inv(b) && FanOutOf(b, ch.e).Some? && c in b.sessions
    ensures var f := FanOutOf(b, ch.e).value;
            && c in f.Spread(ch.o)
            && (AllPackets(view, P, f.Spread(ch.o)[c])
                <==> AllPackets(view, P, b.sessions[c]) && !Reaches(view, P, b, ch, c))
  {
    var f := FanOutOf(b, ch.e).value;
    FanOutKeepsInv(b, ch.e);
    StartAll(view, P, b, ch.e, c);
    AllOfBuffer(P, f, ch.o.pick, Before(ch.o.order, c));
    var s, m, lead := f.sessions[c], f.Copy(ch.o.pick, c), f.Lead(ch.o, c);
    assert f.path == FromPublish ==> lead == f.Buffer(ch.o.pick, Before(ch.o.order, c));
    assert Takes(f.path, s, m) <==> GetsCopy(b, ch.e, c);
    hide AllPackets, AllOf, FanOutOf, Takes, GetsCopy, Inv, FanOut.Buffer, FanOut.Lead, FanOut.Copy, Before;
    ReceiveAll(view, P, f.path, s, m, lead);
    hide Receive;
  }

  lemma LoginAll(view: Reading, P: Packet -> bool, s: Session, c: ClientId, clear: bool)
    requires OfPublishes(P)
    ensures AllPackets(view, P, Login(s, c, clear)) <==> AllPackets(view, P, s)
  {
    var out := s.out + [[ConnackPkt]];
    AllWritesSingle(view, P, s.out, ConnackPkt);
    AllWritesReplay(view, P, out, s.offline);
    assert Login(s, c, clear).out == out + Singles(s.offline) && AllQueued(P, []);
    hide AllWrites, AllQueued, Login, Singles;
  }

  lemma OtherAll(view: Reading, P: Packet -> bool, b: Broker, ch: Choice, b': Broker, c: ClientId)
    requires OfPublishes(P) && Step(b, ch) == Running(b') && FanOutOf(b, ch.e).None?
    requires c in b.sessions && c in b'.sessions
    ensures AllPackets(view, P, b'.sessions[c]) <==> AllPackets(view, P, b.sessions[c]) && !Reaches(view, P, b, ch, c)
  {
    var s := b.sessions[c];
    hide AllWrites, AllQueued, Singles, ReplayStatus, LastWins, Without;
    if ch.e.Add? && ch.e.c == c {
      LoginAll(view, P, s, c, ch.e.clear);
      hide AllPackets, Login;
    } else if ch.e.ClusterLoginInfo? && ch.e.info.clientId == c {
      AllWritesReplay(view, P, s.out, ch.e.info.offline);
    } else if ch.e.Pubrec? && ch.e.c == c {
      AllWritesSingle(view, P, s.out, PubrelPkt(ch.e.id));
    } else {
      ReleaseAll(view, P, s, ch.e);
      hide AllPackets;
    }
  }

  lemma ReleaseAll(view: Reading, P: Packet -> bool, s: Session, e: Event)
    requires OfPublishes(P)
    ensures e.Pubrel? ==> (AllPackets(view, P, Release(s, e.id)) <==> AllPackets(view, P, s))
    ensures forall t: Session :: t.out == s.out && t.offline == s.offline ==>
              (AllPackets(view, P, t) <==> AllPackets(view, P, s))
  {
    if e.Pubrel? {
      AllWritesSingle(view, P, s.out, PubcompPkt(e.id));
    }
    hide AllWrites, AllQueued;
  }

  /** All packets that c's session was written or has queued have a property, after a step, if and only if
      they had it before and none without it reaches c. */
  lemma AllStep(view: Reading, P: Packet -> bool, b: Broker, ch: Choice, b': Broker, c: ClientId)
    requires OfPublishes(P) && Inv(b) && Step(b, ch) == Running(b') && c in b.sessions && c in b'.sessions
    ensures AllPackets(view, P, b'.sessions[c]) <==> AllPackets(view, P, b.sessions[c]) && !Reaches(view, P, b, ch, c)
  {
    hide AllPackets, Reaches;
    if FanOutOf(b, ch.e).Some? {
      FanOutAll(view, P, b, ch, c);
      hide FanOutOf;
    } else {
      OtherAll(view, P, b, ch, b', c);
      hide Step;
    }
  }

  // ---- identifier 0 ----

  predicate NonZero(p: Packet) {
    p.PublishPkt? && p.m.qos > 0 ==> p.m.packetId != 0
  }

  predicate ZeroDrawn(o: Oracle, c: ClientId) {
    c in o.pick && o.pick[c] == 0
  }

  /** The step draws 0 for a copy to c at QoS 1 or 2, or, as written, for a copy that is in the buffer when c
      is written to; or it hands over a message that was queued under 0 elsewhere. */
  ghost predicate DrawsZero(view: Reading, b: Broker, ch: Choice, c: ClientId) {
    match FanOutOf(b, ch.e)
    case Some(f) =>
      && f.m.qos > 0 && GetsCopy(b, ch.e, c)
      && (|| ZeroDrawn(ch.o, c)
          || (view == AsWritten && f.path == FromPublish && b.sessions[c].online
              && exists d :: d in Before(ch.o.order, c) && f.Written(d) && ZeroDrawn(ch.o, d)))
    case None =>
      && ch.e.ClusterLoginInfo? && ch.e.info.clientId == c
      && var q := ch.e.info.offline; exists i :: 0 <= i < |q| && q[i].qos > 0 && q[i].packetId == 0
  }

  lemma DrawnCopy(f: FanOut, o: Oracle, c: ClientId)
    requires f.ValidOracle(o) && f.Matches(c)
    ensures NonZero(PublishPkt(f.Copy(o.pick, c))) <==> f.m.qos == 0 || !ZeroDrawn(o, c)
  {
    assert c in o.pick;
  }

  lemma ReachesZero(view: Reading, b: Broker, ch: Choice, c: ClientId)
    requires Valid(b, ch) && c in b.sessions
    ensures Reaches(view, NonZero, b, ch, c) <==> DrawsZero(view, b, ch, c)
  {
    if FanOutOf(b, ch.e).Some? {
      var f := FanOutOf(b, ch.e).value;
      StartSubs(b, ch.e, c);
      if GetsCopy(b, ch.e, c) {
        DrawnCopy(f, ch.o, c);
      }
      forall d | f.Written(d)
        ensures NonZero(PublishPkt(f.Copy(ch.o.pick, d))) <==> f.m.qos == 0 || !ZeroDrawn(ch.o, d)
      {
        DrawnCopy(f, ch.o, d);
      }
      hide FanOutOf, NonZero, ZeroDrawn, FanOut.Copy, FanOut.ValidOracle;
    }
  }

  lemma StartSubs(b: Broker, e: Event, c: ClientId)
    requires FanOutOf(b, e).Some? && c in b.sessions
    ensures GetsCopy(b, e, c) ==> FanOutOf(b, e).value.Matches(c)
  {
  }

  // Since c's session was created.
  ghost predicate DrewZero(view: Reading, r: Run, k: nat, c: ClientId)
    requires |r.states| == |r.steps| + 1 && k < |r.states|
  {
    && k != 0 && c in r.states[k].sessions && c in r.states[k - 1].sessions
    && (DrewZero(view, r, k - 1, c) || DrawsZero(view, r.states[k - 1], r.steps[k - 1], c))
  }

  lemma NewSessionAll(view: Reading, P: Packet -> bool, b: Broker, ch: Choice, b': Broker, c: ClientId)
    requires OfPublishes(P) && Step(b, ch) == Running(b') && c !in b.sessions && c in b'.sessions
    ensures AllPackets(view, P, b'.sessions[c])
  {
    KeysStep(b, ch, b');
    LoginAll(view, P, FreshSession(c), c, ch.e.clear);
    assert AllPackets(view, P, FreshSession(c));
  }

  /** In every run: a QoS 1 or 2 publish under identifier 0, which section 2.3.1 forbids, has been written to
      c or is queued for it if and only if 0 was drawn for one since its session was created. */
  lemma {:induction false} ZeroIffDrawn(view: Reading, r: Run, k: nat, c: ClientId)
    requires r.IsRun() && k < |r.states| && c in r.states[k].sessions
    ensures AllPackets(view, NonZero, r.states[k].sessions[c]) <==> !DrewZero(view, r, k, c)
  {
    var b, ch := r.states[k - 1], r.steps[k - 1];
    hide AllPackets, DrawsZero;
    if c in b.sessions {
      ZeroIffDrawn(view, r, k - 1, c);
      InvRun(r, k - 1);
      AllStep(view, NonZero, b, ch, r.states[k], c);
      ReachesZero(view, b, ch, c);
      hide Step, Valid, Inv, Reaches;
    } else {
      NewSessionAll(view, NonZero, b, ch, r.states[k], c);
    }
  }

  /** And 0 can be drawn whenever it is free: for every choice there is one that differs in that alone. */
  lemma ZeroIsADraw(view: Reading, b: Broker, ch: Choice, c: ClientId)
    requires Valid(b, ch) && GetsCopy(b, ch.e, c)
    requires var f := FanOutOf(b, ch.e).value; f.m.qos > 0 && 0 !in f.sessions[c].status
    ensures var ch' := ch.(o := ch.o.(pick := ch.o.pick[c := 0])); Valid(b, ch') && DrawsZero(view, b, ch', c)
  {
  }

  // ---- the messages of the clients ----

  predicate Proper(m: Publish) {
    Publishable(m) && Fits(PublishPkt(m))
  }

  predicate ProperPacket(p: Packet) {
    p.PublishPkt? ==> Proper(p.m)
  }

  predicate ProperEvent(e: Event) {
    match e
    case Pub(_, m) => Proper(m)
    case ClusterPub(m) => Proper(m)
    case ClusterLoginInfo(info) => AllQueued(ProperPacket, info.offline)
    case _ => true
  }

  predicate ProperCache(s: Session) {
    forall id :: id in s.cache ==> Proper(s.cache[id])
  }

  ghost predicate ProperCaches(b: Broker) {
    forall c :: c in b.sessions ==> ProperCache(b.sessions[c])
  }

  lemma ProperFanOut(b: Broker, e: Event)
    requires ProperCaches(b) && ProperEvent(e) && FanOutOf(b, e).Some?
    ensures var f := FanOutOf(b, e).value;
            && Proper(f.m) && forall c :: c in f.sessions ==> ProperCache(f.sessions[c])
  {
    hide Proper;
    assert e.Pubrel? ==> ProperCache(b.sessions[e.c]);
  }

  lemma ProperCopy(f: FanOut, pick: map<ClientId, uint16>, c: ClientId)
    requires Proper(f.m)
    ensures Proper(f.Copy(pick, c))
  {
  }

  lemma ProperCachesStep(b: Broker, ch: Choice, b': Broker)
    requires ProperCaches(b) && ProperEvent(ch.e) && Step(b, ch) == Running(b')
    ensures ProperCaches(b')
  {
    if FanOutOf(b, ch.e).Some? {
      ProperFanOut(b, ch.e);
      var f := FanOutOf(b, ch.e).value;
      hide FanOutOf, Proper, FanOut.Copy, FanOut.Lead;
      forall c | c in f.sessions ensures ProperCache(f.Spread(ch.o)[c]) {
        ProperCopy(f, ch.o.pick, c);
      }
    } else {
      OtherCaches(b, ch, b');
    }
  }

  lemma OtherCaches(b: Broker, ch: Choice, b': Broker)
    requires ProperCaches(b) && Step(b, ch) == Running(b') && FanOutOf(b, ch.e).None?
    ensures ProperCaches(b')
  {
    hide Proper, ReplayStatus, Singles, LastWins, Without;
    forall c | c in b'.sessions ensures ProperCache(b'.sessions[c]) {
    }
  }

  lemma NothingImproper(view: Reading, b: Broker, ch: Choice, c: ClientId)
    requires ProperCaches(b) && ProperEvent(ch.e)
    ensures !Reaches(view, ProperPacket, b, ch, c)
  {
    if FanOutOf(b, ch.e).Some? {
      ProperFanOut(b, ch.e);
      var f := FanOutOf(b, ch.e).value;
      forall d ensures ProperPacket(PublishPkt(f.Copy(ch.o.pick, d))) {
        ProperCopy(f, ch.o.pick, d);
      }
      hide FanOutOf, Proper, FanOut.Copy;
    }
  }

  ghost predicate ProperRun(r: Run, k: nat) {
    r.IsRun() && k < |r.states| && forall j :: 0 <= j < k ==> ProperEvent(r.steps[j].e)
  }

  /** If every message of a client, of another node and of a hand-off is one that the standard allows and that
      fits its packet, so is, but for its identifier, every message that is cached, queued or written. */
  lemma {:induction false} ProperAlways(r: Run, k: nat)
    requires ProperRun(r, k)
    ensures ProperCaches(r.states[k])
    ensures forall c :: c in r.states[k].sessions ==> AllPackets(AsWritten, ProperPacket, r.states[k].sessions[c])
  {
    if k > 0 {
      var b, ch, b' := r.states[k - 1], r.steps[k - 1], r.states[k];
      ProperAlways(r, k - 1);
      InvRun(r, k - 1);
      ProperCachesStep(b, ch, b');
      hide AllPackets, Inv, Reaches, ProperEvent, ProperCaches;
      forall c | c in b'.sessions ensures AllPackets(AsWritten, ProperPacket, b'.sessions[c]) {
        if c in b.sessions {
          NothingImproper(AsWritten, b, ch, c);
          AllStep(AsWritten, ProperPacket, b, ch, b', c);
        } else {
          NewSessionAll(AsWritten, ProperPacket, b, ch, b', c);
        }
      }
    }
  }

  // ---- what the client reads ----

  lemma {:induction false} FlatAll(P: Packet -> bool, out: seq<Write>)
    ensures AllOf(P, Packets(out)) <==> AllWrites(AsWritten, P, out)
  {
    if out != [] {
      FlatAll(P, out[1..]);
      var w, ps := out[0], Packets(out[1..]);
      assert forall i :: 0 <= i < |w| ==> (w + ps)[i] == w[i];
      assert forall i :: 0 <= i < |ps| ==> (w + ps)[|w| + i] == ps[i];
      assert out == [w] + out[1..];
      hide Packets;
    }
  }

  // Of proper messages, only identifier 0 is unlawful.
  lemma ProperReads(s: Session)
    requires AllPackets(AsWritten, ProperPacket, s)
    ensures ReadStream(StreamBytes(s.out))
            == if AllWrites(AsWritten, NonZero, s.out) then Some(AllSeen(Packets(s.out))) else None
  {
    var ps := Packets(s.out);
    FlatAll(ProperPacket, s.out);
    FlatAll(NonZero, s.out);
    assert AllFit(ps) && (AllLawful(ps) <==> AllOf(NonZero, ps)) by {
      hide Packets, AllWrites, Publishable;
    }
    hide Packets, AllOf, AllWrites, AllFit, AllLawful, ReadStream, StreamBytes, AllSeen;
    ClientReadsLawful(s.out);
  }

  /** In every run of proper messages: all that was written to a session that is online, read by a client that
      follows the standard, is exactly its packets, in order, if and only if 0 was not drawn for it; if it
      was, the client finds a packet for which it has to close the connection. */
  lemma ReadableIffNoZero(r: Run, k: nat, c: ClientId)
    requires ProperRun(r, k) && c in r.states[k].sessions && r.states[k].sessions[c].online
    ensures var out := r.states[k].sessions[c].out;
            ReadStream(StreamBytes(out))
            == if DrewZero(AsWritten, r, k, c) then None else Some(AllSeen(Packets(out)))
  {
    InvRun(r, k);
    ProperAlways(r, k);
    var s := r.states[k].sessions[c];
    assert s.offline == [];
    hide DrewZero, AllWrites, ReadStream, StreamBytes, AllSeen, Packets;
    ProperReads(s);
    ZeroIffDrawn(AsWritten, r, k, c);
    assert AllQueued(NonZero, []);
  }
}
