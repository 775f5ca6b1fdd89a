// A reference broker: what MQTT 3.1.1 asks of the program's features when it takes in, queues, delivers and
// forwards messages, without packet identifiers for outgoing messages, without acknowledgement states and
// without write buffers. The dispatcher refines it exactly as long as none of seven things happens.
module IdealBroker {
  import opened MqttTypes
  import opened Dispatcher
  import opened Invariants
  import opened ExactlyOnce
  import opened OfflineQueue

  // Messages are contents: their packet identifier is 0.
  datatype IdealSession = IdealSession(
    online: bool,
    subs: map<GoString, byte>,
    stored: map<uint16, Publish>,   // QoS 2 messages of this client that wait for its PUBREL
    queue: seq<Publish>,            // messages for this client while it is away
    delivered: seq<Publish>)        // messages handed to this client

  // `toNodes` is what the other nodes are sent, with contents for messages.
  datatype Ideal = Ideal(sessions: map<ClientId, IdealSession>, toNodes: seq<ClusterMsg>)

  const IDEAL_INIT := Ideal(map[], [])

  // The subscriber's copy: DUP and RETAIN 0 ([MQTT-3.3.1-3], [MQTT-3.3.1-9]), and at most the QoS of its
  // subscription ([MQTT-3.8.4-6]).
  function CopyFor(subs: map<GoString, byte>, m: Publish): Publish
    requires m.topic in subs
  {
    m.Plain().(qos := if m.qos > subs[m.topic] then subs[m.topic] else m.qos)
  }

  function Deliver(s: IdealSession, m: Publish): IdealSession {
    if m.topic !in s.subs then s
    else
      var x := CopyFor(s.subs, m);
      if s.online then s.(delivered := s.delivered + [x])
      else if x.qos != 0 then s.(queue := s.queue + [x])
      else s
  }

  function DeliverAll(sessions: map<ClientId, IdealSession>, m: Publish): map<ClientId, IdealSession> {
    map c | c in sessions :: Deliver(sessions[c], m)
  }

  // CONNECT: with CleanSession 1 the earlier session state is discarded (section 3.1.2.4); otherwise the
  // session goes on and gets what it missed.
  function IdealConnect(s: IdealSession, clear: bool): IdealSession {
    if clear then IdealSession(true, map[], map[], [], s.delivered)
    else s.(online := true, delivered := s.delivered + s.queue, queue := [])
  }

  // A hand-off: delivered if the client is there, queued if it is not.
  function TakeOver(s: IdealSession, info: ClientInfo): IdealSession {
    var t := s.(subs := s.subs + info.subs);
    if s.online then t.(delivered := s.delivered + Plains(info.offline))
    else t.(queue := s.queue + Plains(info.offline))
  }

  function Plains(msgs: seq<Publish>): seq<Publish> {
    seq(|msgs|, i requires 0 <= i < |msgs| => msgs[i].Plain())
  }

  const NO_SESSION := IdealSession(false, map[], map[], [], [])

  function IdealStep(i: Ideal, e: Event): Ideal {
    match e
    case Add(c, clear) =>
      var s := if c in i.sessions then i.sessions[c] else NO_SESSION;
      Ideal(i.sessions[c := IdealConnect(s, clear)], i.toNodes + [LoginMsg(c)])
    case GoOffline(c) =>
      if c in i.sessions then i.(sessions := i.sessions[c := i.sessions[c].(online := false)]) else i
    case Del(c) => i.(sessions := i.sessions - {c})
    case Sub(c, filters) =>
      if c in i.sessions then
        i.(sessions := i.sessions[c := i.sessions[c].(subs := LastWins(i.sessions[c].subs, filters))])
      else i
    case Unsub(c, topics) =>
      if c in i.sessions then
        var s := i.sessions[c];
        i.(sessions := i.sessions[c := s.(subs := map t | t in s.subs && t !in topics :: s.subs[t])])
      else i
    case Pub(c, m) =>
      if c !in i.sessions then i
      else if m.qos == 2 then
        var s := i.sessions[c];
        i.(sessions := i.sessions[c := s.(stored := s.stored[m.packetId := m.Content()])])
      else if m.qos <= 1 then i.(sessions := DeliverAll(i.sessions, m.Content()))
      else i
    case Forward(c, m) => i.(toNodes := i.toNodes + [PublicMsg(m.Content())])
    case Pubrel(c, id) =>
      if c in i.sessions && id in i.sessions[c].stored then
        var s := i.sessions[c];
        var m := s.stored[id];
        Ideal(DeliverAll(i.sessions[c := s.(stored := s.stored - {id})], m), i.toNodes + [PublicMsg(m)])
      else i
    case ClusterPub(m) => i.(sessions := DeliverAll(i.sessions, m.Content()))
    case ClusterLogin(c, from) =>
      if c in i.sessions then
        var s := i.sessions[c];
        Ideal(i.sessions - {c}, i.toNodes + [ClientInfoMsg(ClientInfo(c, s.subs, s.queue), from)])
      else i
    case ClusterLoginInfo(info) =>
      if info.clientId in i.sessions then
        i.(sessions := i.sessions[info.clientId := TakeOver(i.sessions[info.clientId], info)])
      else i
    // Acknowledgements of outgoing messages never change what is delivered.
    case _ => i
  }

  function IdealRun(steps: seq<Choice>): Ideal {
    if steps == [] then IDEAL_INIT
    else IdealStep(IdealRun(steps[..|steps| - 1]), steps[|steps| - 1].e)
  }

  // ---- the abstraction, in either reading of the writes ----

  // The messages among some packets.
  function Messages(ps: seq<Packet>): seq<Publish> {
    if ps == [] then []
    else
      var n := |ps| - 1;
      Messages(ps[..n]) + if ps[n].PublishPkt? then [ps[n].m.Content()] else []
  }

  function Delivered(view: Reading, out: seq<Write>): seq<Publish> {
    if out == [] then [] else Delivered(view, out[..|out| - 1]) + Messages(PacketsOf(view, out[|out| - 1]))
  }

  function Stored(s: Session): map<uint16, Publish> {
    map id | id in s.status && s.status[id] == WaitPubrel && id in s.cache :: s.cache[id].Content()
  }

  // All but the stored messages.
  function View(view: Reading, s: Session): IdealSession {
    IdealSession(s.online, s.subs, map[], Contents(s.offline), Delivered(view, s.out))
  }

  function Abs(view: Reading, s: Session): IdealSession {
    View(view, s).(stored := Stored(s))
  }

  function ContentMsg(x: ClusterMsg): ClusterMsg {
    match x
    case PublicMsg(m) => PublicMsg(m.Content())
    case LoginMsg(_) => x
    case ClientInfoMsg(info, to) => ClientInfoMsg(info.(offline := Contents(info.offline)), to)
  }

  function ContentMsgs(out: seq<ClusterMsg>): seq<ClusterMsg> {
    seq(|out|, i requires 0 <= i < |out| => ContentMsg(out[i]))
  }

  function AbsBroker(view: Reading, b: Broker): Ideal {
    Ideal(map c | c in b.sessions :: Abs(view, b.sessions[c]), ContentMsgs(b.clusterOut))
  }

  lemma MessagesOne(ps: seq<Packet>, p: Packet)
    ensures Messages(ps + [p]) == Messages(ps) + if p.PublishPkt? then [p.m.Content()] else []
  {
    assert (ps + [p])[..|ps|] == ps;
  }

  lemma DeliveredLast(view: Reading, out: seq<Write>, w: Write)
    ensures Delivered(view, out + [w]) == Delivered(view, out) + Messages(PacketsOf(view, w))
  {
    assert (out + [w])[..|out|] == out;
  }

  // What a write of some packets and then one more delivers.
  lemma DeliveredOne(view: Reading, out: seq<Write>, lead: Write, p: Packet)
    ensures Delivered(view, out + [lead + [p]])
            == Delivered(view, out) + (if view == AsWritten then Messages(lead) else [])
               + if p.PublishPkt? then [p.m.Content()] else []
  {
    var x := if p.PublishPkt? then [p.m.Content()] else [];
    DeliveredLast(view, out, lead + [p]);
    MessagesOne(lead, p);
    MessagesOne([], p);
    hide Delivered, Messages;
    if view == AsWritten {
      Assoc(Delivered(view, out), Messages(lead), x);
    } else {
      assert [] + [p] == [p] && [] + x == x;
      assert Delivered(view, out) + [] == Delivered(view, out);
    }
  }

  lemma DeliveredSingle(view: Reading, out: seq<Write>, p: Packet)
    ensures Delivered(view, out + [[p]]) == Delivered(view, out) + if p.PublishPkt? then [p.m.Content()] else []
  {
    DeliveredOne(view, out, [], p);
    assert [] + [p] == [p] && Delivered(view, out) + [] == Delivered(view, out);
  }

  lemma ContentMsgsOne(out: seq<ClusterMsg>, x: ClusterMsg)
    ensures ContentMsgs(out + [x]) == ContentMsgs(out) + [ContentMsg(x)]
  {
    hide ContentMsg;
  }

  lemma ContentsLast(msgs: seq<Publish>)
    requires msgs != []
    ensures Contents(msgs) == Contents(msgs[..|msgs| - 1]) + [msgs[|msgs| - 1].Content()]
  {
  }

  lemma {:induction false} LastOne(msgs: seq<Publish>)
    ensures Singles([]) == [] && Contents([]) == []
    ensures msgs != [] ==>
              var n := |msgs| - 1;
              && Singles(msgs) == Singles(msgs[..n]) + [[PublishPkt(msgs[n])]]
              && Contents(msgs) == Contents(msgs[..n]) + [msgs[n].Content()]
  {
    assert Contents([]) == [];
    hide Contents;
    if msgs != [] {
      ContentsLast(msgs);
    }
  }

  lemma {:induction false} DeliveredReplay(view: Reading, out: seq<Write>, msgs: seq<Publish>)
    ensures Delivered(view, out + Singles(msgs)) == Delivered(view, out) + Contents(msgs)
  {
    hide Delivered, Singles, Contents;
    LastOne(msgs);
    if msgs == [] {
      assert out + [] == out && Delivered(view, out) + [] == Delivered(view, out);
    } else {
      var n := |msgs| - 1;
      var p, x := Singles(msgs[..n]), PublishPkt(msgs[n]);
      DeliveredReplay(view, out, msgs[..n]);
      DeliveredSingle(view, out + p, x);
      assert out + (p + [[x]]) == (out + p) + [[x]];
      var d, cs := Delivered(view, out), Contents(msgs[..n]);
      assert d + (cs + [msgs[n].Content()]) == (d + cs) + [msgs[n].Content()];
    }
  }

  // ---- what departs from the reference ----

  // As written, the PUBLISH loop writes c other subscribers' packets as well.
  predicate GetsOthers(b: Broker, ch: Choice, c: ClientId) {
    match FanOutOf(b, ch.e)
    case None => false
    case Some(f) => f.path == FromPublish && f.Written(c) && f.Lead(ch.o, c) != []
  }

  predicate AnyFlagged(msgs: seq<Publish>) {
    exists i :: 0 <= i < |msgs| && msgs[i].Flagged()
  }

  // The copy carries the DUP or RETAIN of the packet its message came in, here or at the node it was queued.
  predicate PassesFlags(b: Broker, e: Event, c: ClientId) {
    || (GetsCopy(b, e, c) && FanOutOf(b, e).value.m.Flagged())
    || (&& e.ClusterLoginInfo? && e.info.clientId == c && c in b.sessions && b.sessions[c].online
        && AnyFlagged(e.info.offline))
  }

  // The copy has a higher QoS than the subscription was granted.
  predicate ExceedsGrant(b: Broker, e: Event, c: ClientId) {
    GetsCopy(b, e, c) && var m := FanOutOf(b, e).value.m; m.qos > b.sessions[c].subs[m.topic]
  }

  // A cluster publish with a QoS that does not exist is written to nobody, though queued for the absent.
  predicate WrongQos(b: Broker, e: Event, c: ClientId) {
    e.ClusterPub? && e.m.qos > 2 && c in b.sessions && b.sessions[c].online && e.m.topic in b.sessions[c].subs
  }

  // A hand-off arrives when the client is away again: it is written to the closed connection.
  predicate TooLate(b: Broker, e: Event, c: ClientId) {
    e.ClusterLoginInfo? && e.info.clientId == c && c in b.sessions && !b.sessions[c].online && e.info.offline != []
  }

  // CONNECT with CleanSession 1 finds a session with state, and the code goes on with it.
  predicate KeepsState(b: Broker, e: Event, c: ClientId) {
    && e.Add? && e.c == c && e.clear && c in b.sessions
    && var s := b.sessions[c];
       s.subs != map[] || s.offline != [] || Stored(s) != map[]
  }

  // In the part of c's session that its client can see.
  predicate Departs(view: Reading, b: Broker, ch: Choice, c: ClientId) {
    || (view == AsWritten && GetsOthers(b, ch, c))
    || WrongQos(b, ch.e, c)
    || PassesFlags(b, ch.e, c)
    || ExceedsGrant(b, ch.e, c)
    || TooLate(b, ch.e, c)
    || (KeepsState(b, ch.e, c) && (b.sessions[c].subs != map[] || b.sessions[c].offline != []))
  }

  // ---- the visible part of one step ----

  lemma {:induction false} BufferMessages(f: FanOut, pick: map<ClientId, uint16>, order: seq<ClientId>)
    ensures |Messages(f.Buffer(pick, order))| == |f.Buffer(pick, order)|
  {
    if order != [] {
      var n := |order| - 1;
      BufferMessages(f, pick, order[..n]);
      if f.Written(order[n]) {
        MessagesOne(f.Buffer(pick, order[..n]), PublishPkt(f.Copy(pick, order[n])));
      } else {
        assert f.Buffer(pick, order[..n]) + [] == f.Buffer(pick, order[..n]);
      }
    }
  }

  // What is delivered before the session's own copy.
  function Ahead(view: Reading, path: Path, lead: Write): seq<Publish> {
    if view == AsWritten && path == FromPublish then Messages(lead) else []
  }

  lemma QueueView(view: Reading, s: Session, x: Publish)
    ensures View(view, Enqueue(s, x)) == View(view, s).(queue := View(view, s).queue + [x.Content()])
  {
    hide Delivered;
    assert Contents(s.offline + [x]) == Contents(s.offline) + [x.Content()];
  }

  lemma SendView(view: Reading, s: Session, x: Publish, lead: Write, s': Session)
    requires s' == s.(out := s.out + [lead + [PublishPkt(x)]], status := s'.status, cache := s'.cache)
    ensures View(view, s') == View(view, s).(delivered := View(view, s).delivered
                                               + (if view == AsWritten then Messages(lead) else []) + [x.Content()])
  {
    hide Delivered, Messages, Contents;
    DeliveredOne(view, s.out, lead, PublishPkt(x));
  }

  lemma ReceiveView(view: Reading, path: Path, s: Session, x: Publish, lead: Write)
    requires path == FromPubrel ==> x.qos == 2
    ensures var v, v' := View(view, s), View(view, Receive(path, s, x, lead));
            if x.topic !in s.subs || (path == FromPublish && x.qos > 1) then v' == v
            else if !s.online then v' == if x.qos != 0 then v.(queue := v.queue + [x.Content()]) else v
            else if x.qos > 2 then v' == v
            else v' == v.(delivered := v.delivered + Ahead(view, path, lead) + [x.Content()])
  {
    var s', v := Receive(path, s, x, lead), View(view, s);
    assert v.online == s.online && v.subs == s.subs && Messages([]) == [];
    if x.topic in s.subs && !(path == FromPublish && x.qos > 1) {
      if !s.online {
        QueueView(view, s, x);
      } else if x.qos <= 2 {
        SendView(view, s, x, if path == FromPublish then lead else [], s');
      }
    }
    hide View, Messages;
  }

  // The start of a fan-out changes nothing visible.
  lemma StartView(view: Reading, b: Broker, e: Event, c: ClientId)
    requires FanOutOf(b, e).Some? && c in b.sessions
    ensures var f := FanOutOf(b, e).value;
            c in f.sessions && View(view, f.sessions[c]) == View(view, b.sessions[c])
  {
    if e.Pubrel? && e.c == c {
      DeliveredSingle(view, b.sessions[c].out, PubcompPkt(e.id));
    }
    hide Delivered;
  }

  // The client's copy of the message is the message.
  lemma CopyOf(f: FanOut, pick: map<ClientId, uint16>, c: ClientId)
    ensures var x := f.Copy(pick, c); x.Content() == f.m.Content() && x.qos == f.m.qos && x.topic == f.m.topic
  {
  }

  lemma SpreadView(view: Reading, b: Broker, ch: Choice, c: ClientId)
    requires Inv(b) && FanOutOf(b, ch.e).Some? && c in b.sessions
    ensures var f := FanOutOf(b, ch.e).value;
            && c in f.Spread(ch.o)
            && var v, v' := View(view, b.sessions[c]), View(view, f.Spread(ch.o)[c]);
               if f.m.topic !in v.subs || (f.path == FromPublish && f.m.qos > 1) then v' == v
               else if !v.online then v' == if f.m.qos != 0 then v.(queue := v.queue + [f.m.Content()]) else v
               else if f.m.qos > 2 then v' == v
               else v' == v.(delivered := v.delivered + Ahead(view, f.path, f.Lead(ch.o, c)) + [f.m.Content()])
  {
    var f := FanOutOf(b, ch.e).value;
    FanOutKeepsInv(b, ch.e);
    StartView(view, b, ch.e, c);
    CopyOf(f, ch.o.pick, c);
    var s := f.sessions[c];
    assert View(view, s).online == s.online && View(view, s).subs == s.subs;
    hide View, FanOutOf, Inv, Receive, FanOut.Lead, Ahead;
    ReceiveView(view, f.path, s, f.Copy(ch.o.pick, c), f.Lead(ch.o, c));
  }

  // Other messages are another view.
  lemma Differ(v: IdealSession, ahead: seq<Publish>, x: Publish, y: Publish)
    ensures v.(delivered := v.delivered + ahead + [x]) == v.(delivered := v.delivered + [y]) <==> ahead == [] && x == y
    ensures v != v.(delivered := v.delivered + [y])
    ensures v.(queue := v.queue + [x]) == v.(queue := v.queue + [y]) <==> x == y
    ensures v.(queue := v.queue + [x]) != v
  {
    var d, d' := v.delivered + ahead + [x], v.delivered + [y];
    var n := |v.delivered|;
    assert |d| == n + |ahead| + 1 && |d'| == n + 1 && d[n + |ahead|] == x && d'[n] == y;
    assert (v.queue + [x])[|v.queue|] == x && (v.queue + [y])[|v.queue|] == y;
    if ahead == [] {
      assert v.delivered + ahead == v.delivered;
    }
  }

  lemma FanOutView(view: Reading, b: Broker, ch: Choice, c: ClientId)
    requires Inv(b) && FanOutOf(b, ch.e).Some? && c in b.sessions
    ensures var f := FanOutOf(b, ch.e).value;
            var v := View(view, b.sessions[c]);
            && c in f.Spread(ch.o)
            && (View(view, f.Spread(ch.o)[c])
                == (if f.path == FromPublish && f.m.qos > 1 then v else Deliver(v, f.m.Content()))
                <==> !Departs(view, b, ch, c))
  {
    var f := FanOutOf(b, ch.e).value;
    var v, lead := View(view, b.sessions[c]), f.Lead(ch.o, c);
    assert v.online == b.sessions[c].online && v.subs == b.sessions[c].subs;
    StartFields(b, ch.e, c);
    BufferMessages(f, ch.o.pick, Before(ch.o.order, c));
    assert f.path == FromPublish ==> |Messages(lead)| == |lead|;
    hide View, FanOutOf, Inv, Before, FanOut.Buffer, FanOut.Lead, FanOut.Spread, Departs, Messages, Ahead;
    SpreadView(view, b, ch, c);
    FanOutDeparts(view, b, ch, c, lead);
    var m := f.m.Content();
    if m.topic in v.subs {
      Differ(v, Ahead(view, f.path, lead), m, CopyFor(v.subs, m));
    }
  }

  lemma StartFields(b: Broker, e: Event, c: ClientId)
    requires Inv(b) && FanOutOf(b, e).Some? && c in b.sessions
    ensures var f := FanOutOf(b, e).value;
            && c in f.sessions && f.sessions[c].online == b.sessions[c].online && f.sessions[c].subs == b.sessions[c].subs
            && (f.path == FromPubrel ==> f.m.qos == 2)
  {
    FanOutKeepsInv(b, e);
  }

  // When the step departs, from the message and what comes ahead of it.
  lemma FanOutDeparts(view: Reading, b: Broker, ch: Choice, c: ClientId, lead: Write)
    requires FanOutOf(b, ch.e).Some? && c in b.sessions
    requires var f := FanOutOf(b, ch.e).value;
             && lead == f.Lead(ch.o, c) && (f.path == FromPublish ==> |Messages(lead)| == |lead|)
             && c in f.sessions && f.sessions[c].online == b.sessions[c].online && f.sessions[c].subs == b.sessions[c].subs
             && (f.path == FromPubrel ==> f.m.qos == 2)
    ensures var f, s := FanOutOf(b, ch.e).value, b.sessions[c];
            Departs(view, b, ch, c) <==>
              && f.m.topic in s.subs && !(f.path == FromPublish && f.m.qos > 1)
              && if s.online then f.m.qos > 2 || Ahead(view, f.path, lead) != [] || CopyFor(s.subs, f.m.Content()) != f.m.Content()
                 else f.m.qos != 0 && CopyFor(s.subs, f.m.Content()) != f.m.Content()
  {
    hide FanOut.Lead, Messages;
  }

  lemma LoginView(view: Reading, s: Session, c: ClientId, clear: bool)
    ensures View(view, Login(s, c, clear)) == IdealConnect(View(view, s), false)
  {
    hide Delivered, Singles, ReplayStatus;
    var out := s.out + [[ConnackPkt]];
    DeliveredSingle(view, s.out, ConnackPkt);
    assert Delivered(view, out) == Delivered(view, s.out);
    DeliveredReplay(view, out, s.offline);
    assert Login(s, c, clear).out == out + Singles(s.offline);
    assert Contents([]) == [];
    hide Delivered, Singles, ReplayStatus;
  }

  lemma HandOffView(view: Reading, s: Session, info: ClientInfo)
    ensures View(view, Replay(s, info.offline).(subs := s.subs + info.subs))
            == View(view, s).(delivered := View(view, s).delivered + Contents(info.offline), subs := s.subs + info.subs)
  {
    DeliveredReplay(view, s.out, info.offline);
  }

  // The visible part of a session after an event without a fan-out.
  function OtherView(s: IdealSession, e: Event, c: ClientId): IdealSession {
    match e
    case GoOffline(d) => if d == c then s.(online := false) else s
    case Sub(d, filters) => if d == c then s.(subs := LastWins(s.subs, filters)) else s
    case Unsub(d, topics) => if d == c then s.(subs := map t | t in s.subs && t !in topics :: s.subs[t]) else s
    case Add(d, clear) => if d == c then IdealConnect(s, clear) else s
    case ClusterLoginInfo(info) => if info.clientId == c then TakeOver(s, info) else s
    case _ => s
  }

  lemma OtherViewStep(view: Reading, b: Broker, ch: Choice, b': Broker, c: ClientId)
    requires Inv(b) && Step(b, ch) == Running(b') && FanOutOf(b, ch.e).None?
    requires !ch.e.Add? && !ch.e.ClusterLoginInfo? && c in b.sessions && c in b'.sessions
    ensures View(view, b'.sessions[c]) == OtherView(View(view, b.sessions[c]), ch.e, c)
  {
    hide Delivered, Contents, ReplayStatus, Singles, LastWins, Without;
    var s, s' := b.sessions[c], b'.sessions[c];
    if ch.e.Pubrec? && ch.e.c == c {
      DeliveredSingle(view, s.out, PubrelPkt(ch.e.id));
    } else {
      assert s'.out == s.out && s'.offline == s.offline;
      OtherFields(b, ch, b', c);
    }
    hide FanOutOf;
  }

  lemma OtherFields(b: Broker, ch: Choice, b': Broker, c: ClientId)
    requires Inv(b) && Step(b, ch) == Running(b') && FanOutOf(b, ch.e).None?
    requires !ch.e.Add? && !ch.e.ClusterLoginInfo? && c in b.sessions && c in b'.sessions
    ensures var s, s' := b.sessions[c], b'.sessions[c];
            && s'.online == (if ch.e == GoOffline(c) then false else s.online)
            && s'.subs == (if ch.e.Sub? && ch.e.c == c then LastWins(s.subs, ch.e.filters)
                           else if ch.e.Unsub? && ch.e.c == c then map t | t in s.subs && t !in ch.e.topics :: s.subs[t]
                           else s.subs)
  {
    hide ReplayStatus, Singles, LastWins, Waits;
    var s, s' := b.sessions[c], b'.sessions[c];
    assert ch.e.Unsub? && ch.e.c == c ==> s'.subs == map t | t in s.subs && t !in ch.e.topics :: s.subs[t];
  }

  // CONNECT: the reference and the code agree unless a clean one finds something to discard.
  lemma ConnectDeparts(v: IdealSession, clear: bool)
    requires v.stored == map[]
    ensures IdealConnect(v, false) == IdealConnect(v, clear) <==> !(clear && (v.subs != map[] || v.queue != []))
  {
    if clear && v.queue != [] {
      assert |v.delivered + v.queue| > |v.delivered|;
    } else if clear && v.subs == map[] {
      assert v.delivered + v.queue == v.delivered;
    }
  }

  lemma PlainsDiffer(msgs: seq<Publish>)
    ensures Contents(msgs) == Plains(msgs) <==> !AnyFlagged(msgs)
  {
    assert forall i :: 0 <= i < |msgs| ==> (Contents(msgs)[i] == Plains(msgs)[i] <==> !msgs[i].Flagged());
    if Contents(msgs) != Plains(msgs) {
      var i :| 0 <= i < |msgs| && Contents(msgs)[i] != Plains(msgs)[i];
      assert msgs[i].Flagged();
    }
  }

  // A hand-off: they agree unless there is something to queue or a flag to drop.
  lemma TakeOverDeparts(v: IdealSession, info: ClientInfo)
    ensures v.(delivered := v.delivered + Contents(info.offline), subs := v.subs + info.subs) == TakeOver(v, info)
            <==> if v.online then !AnyFlagged(info.offline) else info.offline == []
  {
    var cs, ps := Contents(info.offline), Plains(info.offline);
    PlainsDiffer(info.offline);
    assert |cs| == |ps| == |info.offline|;
    assert |v.queue + ps| == |v.queue| + |ps|;
    assert (v.delivered + cs)[|v.delivered|..] == cs && (v.delivered + ps)[|v.delivered|..] == ps;
    if info.offline == [] {
      assert v.delivered + cs == v.delivered && v.queue + ps == v.queue;
    }
    hide Contents, Plains, AnyFlagged;
  }

  // ---- the stored part of one step ----

  // The stored message under one identifier, as the reference broker sees it.
  function Kept(s: IdealSession, id: uint16): Option<Publish> {
    if id in s.stored then Some(s.stored[id]) else None
  }

  function ContentOf(m: Option<Publish>): Option<Publish> {
    if m.Some? then Some(m.value.Content()) else None
  }

  lemma KeptIsInbound(view: Reading, b: Broker, c: ClientId, id: uint16)
    requires c in b.sessions
    ensures Kept(Abs(view, b.sessions[c]), id) == ContentOf(Inbound(b, c, id))
  {
    hide View;
  }

  lemma DeliverKeeps(s: IdealSession, m: Publish, id: uint16)
    ensures Kept(Deliver(s, m), id) == Kept(s, id)
  {
  }

  lemma IdealKeepsPub(view: Reading, b: Broker, d: ClientId, m: Publish, c: ClientId, id: uint16)
    requires c in b.sessions
    ensures var i := IdealStep(AbsBroker(view, b), Pub(d, m));
            c in i.sessions && Kept(i.sessions[c], id) == ContentOf(InboundAfter(b, Pub(d, m), c, id))
  {
    KeptIsInbound(view, b, c, id);
    DeliverKeeps(Abs(view, b.sessions[c]), m.Content(), id);
    hide Deliver, View, Stored;
  }

  // What a PUBREL of client d does to the session of c.
  function AfterPubrel(i: Ideal, d: ClientId, id: uint16, c: ClientId): IdealSession
    requires c in i.sessions
  {
    var s := i.sessions[c];
    if d in i.sessions && id in i.sessions[d].stored then
      Deliver(if d == c then s.(stored := s.stored - {id}) else s, i.sessions[d].stored[id])
    else s
  }

  lemma PubrelSession(i: Ideal, d: ClientId, id: uint16, c: ClientId)
    requires c in i.sessions
    ensures var i' := IdealStep(i, Pubrel(d, id)); c in i'.sessions && i'.sessions[c] == AfterPubrel(i, d, id, c)
  {
    hide Deliver;
  }

  lemma IdealKeepsPubrel(view: Reading, b: Broker, d: ClientId, i: uint16, c: ClientId, id: uint16)
    requires c in b.sessions
    ensures var i' := IdealStep(AbsBroker(view, b), Pubrel(d, i));
            c in i'.sessions && Kept(i'.sessions[c], id) == ContentOf(InboundAfter(b, Pubrel(d, i), c, id))
  {
    var r := AbsBroker(view, b);
    PubrelSession(r, d, i, c);
    KeptIsInbound(view, b, c, id);
    hide IdealStep, Deliver, View;
    if d in r.sessions && i in r.sessions[d].stored {
      var s := r.sessions[c];
      DeliverKeeps(if d == c then s.(stored := s.stored - {i}) else s, r.sessions[d].stored[i], id);
    }
  }

  // What an event does to one stored message in the reference broker.
  lemma IdealKeeps(view: Reading, b: Broker, e: Event, c: ClientId, id: uint16)
    requires c in b.sessions && c in IdealStep(AbsBroker(view, b), e).sessions
    requires !(e.Add? && e.c == c && e.clear)
    ensures Kept(IdealStep(AbsBroker(view, b), e).sessions[c], id) == ContentOf(InboundAfter(b, e, c, id))
  {
    hide View, Stored, Contents, LastWins, Without;
    match e {
      case Pub(d, m) => IdealKeepsPub(view, b, d, m, c, id);
      case Pubrel(d, i) => IdealKeepsPubrel(view, b, d, i, c, id);
      case ClusterPub(m) =>
        KeptIsInbound(view, b, c, id);
        DeliverKeeps(Abs(view, b.sessions[c]), m.Content(), id);
      case _ =>
        KeptIsInbound(view, b, c, id);
        hide View, Stored, Contents, ContentMsgs, Deliver, Plains, Inbound;
    }
    hide View, Stored, Contents, ContentMsgs, Deliver, Plains, Inbound, FanOutOf, IdealStep;
  }

  // ---- one step ----

  function Visible(s: IdealSession): IdealSession {
    s.(stored := map[])
  }

  // The message a reference step distributes.
  function Distributed(i: Ideal, e: Event): Option<Publish> {
    match e
    case Pub(c, m) => if c in i.sessions && m.qos <= 1 then Some(m.Content()) else None
    case Pubrel(c, id) => if c in i.sessions then Kept(i.sessions[c], id) else None
    case ClusterPub(m) => Some(m.Content())
    case _ => None
  }

  // The visible part of one session after a reference step.
  lemma IdealVisible(i: Ideal, e: Event, c: ClientId)
    requires c in i.sessions && c in IdealStep(i, e).sessions
    ensures var v := Visible(i.sessions[c]);
            Visible(IdealStep(i, e).sessions[c])
            == match Distributed(i, e)
               case Some(m) => Deliver(v, m)
               case None => OtherView(v, e, c)
  {
  }

  // Both brokers distribute the same message.
  lemma DistributedAgree(view: Reading, b: Broker, e: Event)
    requires Inv(b)
    ensures Distributed(AbsBroker(view, b), e) ==
            match FanOutOf(b, e)
            case Some(f) => if f.path == FromPublish && f.m.qos > 1 then None else Some(f.m.Content())
            case None => None
  {
    if e.Pubrel? {
      KeptIsInboundOf(view, b, e.c, e.id);
    }
    hide View;
  }

  lemma KeptIsInboundOf(view: Reading, b: Broker, d: ClientId, id: uint16)
    requires Inv(b)
    ensures d in b.sessions ==> Kept(Abs(view, b.sessions[d]), id) == ContentOf(Inbound(b, d, id))
    ensures FanOutOf(b, Pubrel(d, id)).Some? <==> Inbound(b, d, id).Some?
    ensures FanOutOf(b, Pubrel(d, id)).Some? ==> FanOutOf(b, Pubrel(d, id)).value.m == Inbound(b, d, id).value
  {
    hide View;
  }

  // A new session looks as it should.
  lemma NewSessionView(view: Reading, b: Broker, ch: Choice, b': Broker, c: ClientId)
    requires Step(b, ch) == Running(b') && c !in b.sessions && c in b'.sessions
    ensures ch.e.Add? && ch.e.c == c
    ensures Abs(view, b'.sessions[c]) == IdealConnect(NO_SESSION, ch.e.clear)
  {
    KeysStep(b, ch, b');
    var s := Login(FreshSession(c), c, ch.e.clear);
    LoginView(view, FreshSession(c), c, ch.e.clear);
    assert Contents([]) == [] && Stored(s) == map[] by { assert s.status == map[]; }
  }

  /** What the client can see of its session is as the reference has it if and only if the step does not
      depart there. */
  lemma ViewStep(view: Reading, b: Broker, ch: Choice, b': Broker, c: ClientId)
    requires Inv(b) && Step(b, ch) == Running(b') && c in b.sessions && c in b'.sessions
    ensures var i' := IdealStep(AbsBroker(view, b), ch.e);
            c in i'.sessions && (Visible(i'.sessions[c]) == View(view, b'.sessions[c]) <==> !Departs(view, b, ch, c))
  {
    KeysStep(b, ch, b');
    IdealKeys(view, b, ch.e);
    IdealVisible(AbsBroker(view, b), ch.e, c);
    DistributedAgree(view, b, ch.e);
    assert Visible(AbsBroker(view, b).sessions[c]) == View(view, b.sessions[c]) by {
      hide View;
      VisibleView(view, b.sessions[c]);
    }
    hide IdealStep, AbsBroker, View, Departs, Visible, OtherView, Distributed, Deliver;
    if FanOutOf(b, ch.e).Some? {
      FanOutView(view, b, ch, c);
      hide FanOutOf, FanOut.Spread;
    } else {
      ViewStepOther(view, b, ch, b', c);
      hide FanOutOf;
    }
  }

  lemma VisibleView(view: Reading, s: Session)
    ensures Visible(Abs(view, s)) == View(view, s) && View(view, s).stored == map[]
  {
  }

  lemma ConnectView(view: Reading, b: Broker, ch: Choice, b': Broker, c: ClientId)
    requires Step(b, ch) == Running(b') && c in b.sessions && ch.e.Add? && ch.e.c == c
    ensures c in b'.sessions
    ensures IdealConnect(View(view, b.sessions[c]), ch.e.clear) == View(view, b'.sessions[c]) <==> !Departs(view, b, ch, c)
  {
    var s, v := b.sessions[c], View(view, b.sessions[c]);
    VisibleView(view, s);
    assert v.subs == s.subs && (v.queue == [] <==> s.offline == []);
    assert b'.sessions[c] == Login(s, c, ch.e.clear);
    hide View, IdealConnect, Step, Login, Stored;
    LoginView(view, s, c, ch.e.clear);
    ConnectDeparts(v, ch.e.clear);
  }

  lemma TakeOverView(view: Reading, b: Broker, ch: Choice, b': Broker, c: ClientId)
    requires Step(b, ch) == Running(b') && c in b.sessions && ch.e.ClusterLoginInfo? && ch.e.info.clientId == c
    ensures c in b'.sessions
    ensures TakeOver(View(view, b.sessions[c]), ch.e.info) == View(view, b'.sessions[c]) <==> !Departs(view, b, ch, c)
  {
    var s, v := b.sessions[c], View(view, b.sessions[c]);
    assert v.online == s.online;
    assert b'.sessions[c] == Replay(s, ch.e.info.offline).(subs := s.subs + ch.e.info.subs);
    hide View, TakeOver, Step, Replay;
    HandOffView(view, s, ch.e.info);
    TakeOverDeparts(v, ch.e.info);
  }

  lemma ViewStepOther(view: Reading, b: Broker, ch: Choice, b': Broker, c: ClientId)
    requires Inv(b) && Step(b, ch) == Running(b') && FanOutOf(b, ch.e).None?
    requires c in b.sessions && c in b'.sessions
    ensures OtherView(View(view, b.sessions[c]), ch.e, c) == View(view, b'.sessions[c]) <==> !Departs(view, b, ch, c)
  {
    hide View, TakeOver, IdealConnect, Inv, Stored;
    if ch.e.Add? && ch.e.c == c {
      ConnectView(view, b, ch, b', c);
      hide Step, Departs;
    } else if ch.e.ClusterLoginInfo? && ch.e.info.clientId == c {
      TakeOverView(view, b, ch, b', c);
      hide Step, Departs;
    } else if ch.e.Add? || ch.e.ClusterLoginInfo? {
      assert b'.sessions[c] == b.sessions[c];
      hide Step;
    } else {
      OtherViewStep(view, b, ch, b', c);
      hide Step, OtherView;
    }
  }

  lemma IdealKeys(view: Reading, b: Broker, e: Event)
    ensures IdealStep(AbsBroker(view, b), e).sessions.Keys ==
            match e
            case Add(c, _) => b.sessions.Keys + {c}
            case Del(c) => b.sessions.Keys - {c}
            case ClusterLogin(c, _) => b.sessions.Keys - {c}
            case _ => b.sessions.Keys
  {
    hide Abs;
    assert AbsBroker(view, b).sessions.Keys == b.sessions.Keys;
  }

  // What an event hands to the other nodes.
  function Forwards(b: Broker, e: Event): seq<ClusterMsg> {
    match e
    case Add(c, _) => [LoginMsg(c)]
    case Forward(_, m) => [PublicMsg(m.Content())]
    case Pubrel(_, _) => if FanOutOf(b, e).Some? then [PublicMsg(FanOutOf(b, e).value.m.Content())] else []
    case ClusterLogin(c, from) =>
      if c in b.sessions then
        [ClientInfoMsg(ClientInfo(c, b.sessions[c].subs, Contents(b.sessions[c].offline)), from)]
      else []
    case _ => []
  }

  lemma IdealForwards(view: Reading, b: Broker, e: Event)
    requires Inv(b)
    ensures IdealStep(AbsBroker(view, b), e).toNodes == ContentMsgs(b.clusterOut) + Forwards(b, e)
  {
    if e.Pubrel? {
      KeptIsInboundOf(view, b, e.c, e.id);
    } else if e.ClusterLogin? && e.c in b.sessions {
      VisibleView(view, b.sessions[e.c]);
    }
    hide View, DeliverAll, TakeOver, IdealConnect, LastWins, Without, Stored, FanOutOf, Contents, ContentMsgs;
  }

  lemma FanOutForwards(b: Broker, ch: Choice)
    requires FanOutOf(b, ch.e).Some?
    ensures ContentMsgs(Step(b, ch).b.clusterOut) == ContentMsgs(b.clusterOut) + Forwards(b, ch.e)
  {
    var f := FanOutOf(b, ch.e).value;
    hide FanOut.Spread, FanOut.LastCopy, ContentMsgs;
    if ch.e.Pubrel? {
      LastCopySame(f, ch.o.pick, ch.o.order);
      ContentMsgsOne(b.clusterOut, PublicMsg(f.LastCopy(ch.o.pick, ch.o.order)));
    }
  }

  lemma OtherForwards(b: Broker, ch: Choice, b': Broker)
    requires Step(b, ch) == Running(b') && FanOutOf(b, ch.e).None?
    ensures ContentMsgs(b'.clusterOut) == ContentMsgs(b.clusterOut) + Forwards(b, ch.e)
  {
    hide ContentMsgs, Login, Replay, LastWins, Without, Waits, Contents;
    match ch.e {
      case Add(c, _) => ContentMsgsOne(b.clusterOut, LoginMsg(c));
      case Forward(_, m) => ContentMsgsOne(b.clusterOut, PublicMsg(m));
      case ClusterLogin(c, node) =>
        if c in b.sessions {
          ContentMsgsOne(b.clusterOut, ClientInfoMsg(ClientInfo(c, b.sessions[c].subs, b.sessions[c].offline), node));
        }
      case _ =>
    }
  }

  lemma ToNodesStep(view: Reading, b: Broker, ch: Choice, b': Broker)
    requires Inv(b) && Step(b, ch) == Running(b')
    ensures ContentMsgs(b'.clusterOut) == IdealStep(AbsBroker(view, b), ch.e).toNodes
  {
    hide AbsBroker, IdealStep, ContentMsgs, Forwards;
    IdealForwards(view, b, ch.e);
    if FanOutOf(b, ch.e).Some? {
      FanOutForwards(b, ch);
    } else {
      OtherForwards(b, ch, b');
    }
    hide Step, FanOutOf;
  }

  // ---- exactly when the dispatcher makes the reference's step ----

  // For session c: another subscriber's packet, a QoS that does not exist, a copy with the flags of another
  // packet or above the granted QoS, a hand-off too late, a clean CONNECT over state, or a replay that takes
  // the identifier of a stored message.
  ghost predicate DepartsAt(view: Reading, b: Broker, ch: Choice, c: ClientId) {
    Departs(view, b, ch, c) || KeepsState(b, ch.e, c) || exists id :: Clash(b, ch.e, c, id)
  }

  ghost predicate Conforms(view: Reading, b: Broker, ch: Choice) {
    forall c :: !DepartsAt(view, b, ch, c)
  }

  lemma SameStored(s: IdealSession, t: IdealSession)
    ensures s.stored == t.stored <==> forall id :: Kept(s, id) == Kept(t, id)
  {
    if forall id :: Kept(s, id) == Kept(t, id) {
      assert forall id :: id in s.stored <==> Kept(s, id).Some?;
      assert forall id :: id in t.stored <==> Kept(t, id).Some?;
      assert s.stored.Keys == t.stored.Keys;
      forall id | id in s.stored ensures s.stored[id] == t.stored[id] {
        assert Kept(s, id) == Kept(t, id);
      }
    }
  }

  // The stored messages of session c agree with the reference broker if and only if nothing clashes.
  lemma StoredStep(view: Reading, b: Broker, ch: Choice, b': Broker, c: ClientId)
    requires Inv(b) && Valid(b, ch) && Step(b, ch) == Running(b') && c in b.sessions && c in b'.sessions
    requires c in IdealStep(AbsBroker(view, b), ch.e).sessions
    requires !(ch.e.Add? && ch.e.c == c && ch.e.clear)
    ensures Stored(b'.sessions[c]) == IdealStep(AbsBroker(view, b), ch.e).sessions[c].stored
            <==> forall id :: !Clash(b, ch.e, c, id)
  {
    var a := IdealStep(AbsBroker(view, b), ch.e).sessions[c];
    hide IdealStep, AbsBroker, View, Step, Valid, Inv;
    forall id ensures Kept(Abs(view, b'.sessions[c]), id) == Kept(a, id) <==> !Clash(b, ch.e, c, id) {
      InboundStep(b, ch, b', c, id);
      KeptIsInbound(view, b', c, id);
      IdealKeeps(view, b, ch.e, c, id);
      hide Kept, Clash, Inbound, InboundAfter;
      ContentsAgree(b, ch.e, b', c, id);
    }
    SameStored(Abs(view, b'.sessions[c]), a);
    hide Kept, Clash, Stored;
  }

  // If something clashes the stored message is gone, so its content is missing too.
  lemma ContentsAgree(b: Broker, e: Event, b': Broker, c: ClientId, id: uint16)
    requires Inbound(b', c, id) == InboundAfter(b, e, c, id) <==> !Clash(b, e, c, id)
    requires Clash(b, e, c, id) ==> Inbound(b', c, id) == None
    ensures ContentOf(Inbound(b', c, id)) == ContentOf(InboundAfter(b, e, c, id)) <==> !Clash(b, e, c, id)
  {
    hide Clash, Inbound, InboundAfter;
  }

  // A clean CONNECT over an empty queue stores what it stored before.
  lemma CleanStored(b: Broker, ch: Choice, b': Broker, c: ClientId)
    requires Step(b, ch) == Running(b') && ch.e.Add? && ch.e.c == c && c in b.sessions && b.sessions[c].offline == []
    ensures c in b'.sessions && Stored(b'.sessions[c]) == Stored(b.sessions[c])
    ensures forall id :: !Clash(b, ch.e, c, id)
  {
    assert b'.sessions[c].status == b.sessions[c].status;
  }

  lemma Parts(s: IdealSession, t: IdealSession)
    ensures s == t <==> Visible(s) == Visible(t) && s.stored == t.stored
  {
  }

  lemma SessionRefines(view: Reading, b: Broker, ch: Choice, b': Broker, c: ClientId)
    requires Inv(b) && Valid(b, ch) && Step(b, ch) == Running(b') && c in b'.sessions
    ensures var i' := IdealStep(AbsBroker(view, b), ch.e);
            c in i'.sessions && (Abs(view, b'.sessions[c]) == i'.sessions[c] <==> !DepartsAt(view, b, ch, c))
  {
    var i' := IdealStep(AbsBroker(view, b), ch.e);
    KeysAgree(view, b, ch, b');
    if c !in b.sessions {
      NewSessionView(view, b, ch, b', c);
      NewAgrees(view, b, ch.e, c);
    } else {
      ViewStep(view, b, ch, b', c);
      VisibleView(view, b'.sessions[c]);
      Parts(Abs(view, b'.sessions[c]), i'.sessions[c]);
      if ch.e.Add? && ch.e.c == c && ch.e.clear {
        CleanRefines(view, b, ch, b', c);
      } else {
        StoredStep(view, b, ch, b', c);
        assert Abs(view, b'.sessions[c]).stored == Stored(b'.sessions[c]);
        hide IdealStep, AbsBroker, View, Abs, Step, Valid, Inv, Departs, Stored, Visible, Clash;
      }
    }
  }

  // The reference has the new session, and nothing departs.
  lemma NewAgrees(view: Reading, b: Broker, e: Event, c: ClientId)
    requires e.Add? && e.c == c && c !in b.sessions
    ensures var i' := IdealStep(AbsBroker(view, b), e);
            c in i'.sessions && i'.sessions[c] == IdealConnect(NO_SESSION, e.clear)
    ensures forall o :: !DepartsAt(view, b, Choice(e, o), c)
  {
    hide Abs;
  }

  lemma CleanRefines(view: Reading, b: Broker, ch: Choice, b': Broker, c: ClientId)
    requires Inv(b) && Step(b, ch) == Running(b') && c in b.sessions && c in b'.sessions
    requires ch.e.Add? && ch.e.c == c && ch.e.clear
    requires c in IdealStep(AbsBroker(view, b), ch.e).sessions
    ensures !Departs(view, b, ch, c) ==>
              (Abs(view, b'.sessions[c]).stored == IdealStep(AbsBroker(view, b), ch.e).sessions[c].stored
               <==> !DepartsAt(view, b, ch, c))
  {
    assert IdealStep(AbsBroker(view, b), ch.e).sessions[c].stored == map[] by { hide View; }
    if b.sessions[c].offline == [] {
      CleanStored(b, ch, b', c);
    }
    hide IdealStep, AbsBroker, View, Step, Inv, Clash;
  }

  lemma KeysAgree(view: Reading, b: Broker, ch: Choice, b': Broker)
    requires Step(b, ch) == Running(b')
    ensures AbsBroker(view, b').sessions.Keys == IdealStep(AbsBroker(view, b), ch.e).sessions.Keys == b'.sessions.Keys
  {
    hide Step, IdealStep, Abs;
    KeysStep(b, ch, b');
    IdealKeys(view, b, ch.e);
  }

  lemma SessionsRefine(view: Reading, b: Broker, ch: Choice, b': Broker, i': Ideal)
    requires Inv(b) && Valid(b, ch) && Step(b, ch) == Running(b')
    requires i' == IdealStep(AbsBroker(view, b), ch.e)
    ensures forall c :: c in b'.sessions ==>
              c in i'.sessions && (Abs(view, b'.sessions[c]) == i'.sessions[c] <==> !DepartsAt(view, b, ch, c))
  {
    hide IdealStep, AbsBroker, Abs, Step, Valid, Inv, DepartsAt;
    forall c | c in b'.sessions
      ensures c in i'.sessions && (Abs(view, b'.sessions[c]) == i'.sessions[c] <==> !DepartsAt(view, b, ch, c))
    {
      SessionRefines(view, b, ch, b', c);
    }
  }

  lemma DepartsPresent(view: Reading, b: Broker, ch: Choice, b': Broker, c: ClientId)
    requires Step(b, ch) == Running(b') && DepartsAt(view, b, ch, c)
    ensures c in b'.sessions
  {
    KeysStep(b, ch, b');
    hide Step, FanOut.Lead;
  }

  // Equality with a reference state, session by session.
  lemma EqualIff(view: Reading, b: Broker, ch: Choice, b': Broker, i': Ideal)
    requires b'.sessions.Keys == i'.sessions.Keys && ContentMsgs(b'.clusterOut) == i'.toNodes
    requires forall c :: c in b'.sessions ==> (Abs(view, b'.sessions[c]) == i'.sessions[c] <==> !DepartsAt(view, b, ch, c))
    requires forall c :: DepartsAt(view, b, ch, c) ==> c in b'.sessions
    ensures AbsBroker(view, b') == i' <==> Conforms(view, b, ch)
  {
    hide Abs, DepartsAt, ContentMsgs;
    var i := AbsBroker(view, b');
    if Conforms(view, b, ch) {
      assert i.sessions == i'.sessions;
    } else {
      var c :| DepartsAt(view, b, ch, c);
      assert i.sessions[c] != i'.sessions[c];
    }
  }

  /** One step of the dispatcher is one step of the reference broker if and only if none of the seven
      departures happens to any session; as intended (each write is its client's own packet) the first of
      them, the shared buffer, does not count. */
  lemma StepRefines(view: Reading, b: Broker, ch: Choice, b': Broker)
    requires Inv(b) && Valid(b, ch) && Step(b, ch) == Running(b')
    ensures AbsBroker(view, b') == IdealStep(AbsBroker(view, b), ch.e) <==> Conforms(view, b, ch)
  {
    var i' := IdealStep(AbsBroker(view, b), ch.e);
    KeysAgree(view, b, ch, b');
    ToNodesStep(view, b, ch, b');
    SessionsRefine(view, b, ch, b', i');
    forall c | DepartsAt(view, b, ch, c) ensures c in b'.sessions {
      DepartsPresent(view, b, ch, b', c);
    }
    hide IdealStep, AbsBroker, Abs, Step, Valid, Inv, DepartsAt, ContentMsgs, Conforms;
    EqualIff(view, b, ch, b', i');
  }

  /** Refinement: every run without such a departure delivers, queues, stores and forwards exactly what the
      reference broker does on the same events. */
  lemma {:induction false} RunRefines(view: Reading, r: Run, k: nat)
    requires r.IsRun() && k < |r.states|
    requires forall j :: 0 <= j < k ==> Conforms(view, r.states[j], r.steps[j])
    ensures AbsBroker(view, r.states[k]) == IdealRun(r.steps[..k])
  {
    if k == 0 {
      assert AbsBroker(view, INIT).sessions == map[];
    } else {
      RunRefines(view, r, k - 1);
      InvRun(r, k - 1);
      assert r.steps[..k][..k - 1] == r.steps[..k - 1];
      hide Step, Valid, Inv, AbsBroker, IdealStep, Conforms;
      StepRefines(view, r.states[k - 1], r.steps[k - 1], r.states[k]);
    }
  }
}
