// What every step of the dispatcher keeps, and how one packet identifier of one session evolves.
module Invariants {
  import opened MqttTypes
  import opened Dispatcher

  ghost predicate SessionInv(c: ClientId, s: Session) {
    && s.clientId == c
    && (s.online ==> s.offline == [])
    && (forall id :: id in s.cache ==> s.cache[id].qos == 2 && s.cache[id].packetId == id)
    && (forall id :: id in s.status && s.status[id] == WaitPubrel ==> id in s.cache)
  }

  ghost predicate Inv(b: Broker) {
    forall c :: c in b.sessions ==> SessionInv(c, b.sessions[c])
  }

  // A QoS 2 message with this identifier is among the replayed ones.
  predicate HasQos2(msgs: seq<Publish>, id: uint16) {
    exists i :: 0 <= i < |msgs| && msgs[i].qos == 2 && msgs[i].packetId == id
  }

  lemma {:induction false} ReplayStatusExactly(status: map<uint16, Status>, msgs: seq<Publish>, id: uint16)
    ensures HasQos2(msgs, id) ==>
              id in ReplayStatus(status, msgs) && ReplayStatus(status, msgs)[id] == WaitPubrec
    ensures !HasQos2(msgs, id) ==>
              && (id in status <==> id in ReplayStatus(status, msgs))
              && (id in status ==> ReplayStatus(status, msgs)[id] == status[id])
  {
    if msgs != [] {
      var n := |msgs| - 1;
      ReplayStatusExactly(status, msgs[..n], id);
      HasQos2Last(msgs, id);
    }
  }

  lemma HasQos2Last(msgs: seq<Publish>, id: uint16)
    requires msgs != []
    ensures var n := |msgs| - 1;
            HasQos2(msgs, id) <==> HasQos2(msgs[..n], id) || (msgs[n].qos == 2 && msgs[n].packetId == id)
  {
    var n := |msgs| - 1;
    assert forall i :: 0 <= i < n ==> msgs[..n][i] == msgs[i];
    if HasQos2(msgs, id) {
      var i :| 0 <= i < |msgs| && msgs[i].qos == 2 && msgs[i].packetId == id;
      if i < n {
        assert msgs[..n][i] == msgs[i];
      }
    }
  }

  lemma ReplayKeepsInv(c: ClientId, s: Session, msgs: seq<Publish>)
    requires SessionInv(c, s)
    ensures SessionInv(c, Replay(s, msgs))
  {
    forall id ensures id in ReplayStatus(s.status, msgs) && ReplayStatus(s.status, msgs)[id] == WaitPubrel ==> id in s.cache {
      ReplayStatusExactly(s.status, msgs, id);
    }
  }

  lemma ReceiveKeepsInv(path: Path, c: ClientId, s: Session, m: Publish, lead: Write)
    requires SessionInv(c, s)
    requires path == FromPubrel ==> m.qos == 2
    ensures SessionInv(c, Receive(path, s, m, lead))
  {
  }

  // The sessions a fan-out starts from, and its message, are as the fan-out needs them.
  lemma FanOutKeepsInv(b: Broker, e: Event)
    requires Inv(b)
    ensures FanOutOf(b, e).Some? ==>
              var f := FanOutOf(b, e).value;
              && (forall c :: c in f.sessions ==> SessionInv(c, f.sessions[c]))
              && (f.path == FromPubrel ==> f.m.qos == 2)
              && f.sessions.Keys == b.sessions.Keys
  {
  }

  /** The invariant is kept by every step, whatever the event, the identifiers drawn and the map order. */
  lemma InvStep(b: Broker, ch: Choice, b': Broker)
    requires Inv(b) && Step(b, ch) == Running(b')
    ensures Inv(b')
  {
    if FanOutOf(b, ch.e).Some? {
      FanOutInv(b, ch);
    } else {
      OtherInv(b, ch, b');
    }
  }

  lemma FanOutInv(b: Broker, ch: Choice)
    requires Inv(b) && FanOutOf(b, ch.e).Some?
    ensures var s' := FanOutOf(b, ch.e).value.Spread(ch.o); forall c :: c in s' ==> SessionInv(c, s'[c])
  {
    FanOutKeepsInv(b, ch.e);
    var f := FanOutOf(b, ch.e).value;
    hide FanOutOf, SessionInv, Receive, FanOut.Lead;
    forall c | c in f.sessions ensures SessionInv(c, f.Spread(ch.o)[c]) {
      ReceiveKeepsInv(f.path, c, f.sessions[c], f.Copy(ch.o.pick, c), f.Lead(ch.o, c));
    }
  }

  lemma OtherInv(b: Broker, ch: Choice, b': Broker)
    requires Inv(b) && FanOutOf(b, ch.e).None? && Step(b, ch) == Running(b')
    ensures Inv(b')
  {
    hide ReplayStatus, Singles, LastWins, Without;
    match ch.e {
      case Add(c, clear) =>
        var s := if c in b.sessions then b.sessions[c] else FreshSession(c);
        ReplayKeepsInv(c, s, s.offline);
      case ClusterLoginInfo(info) =>
        if info.clientId in b.sessions {
          ReplayKeepsInv(info.clientId, b.sessions[info.clientId], info.offline);
        }
      case _ =>
    }
  }

  lemma {:induction false} InvRun(r: Run, k: nat)
    requires r.IsRun() && k < |r.states|
    ensures Inv(r.states[k])
  {
    if k > 0 {
      InvRun(r, k - 1);
      InvStep(r.states[k - 1], r.steps[k - 1], r.states[k]);
    }
  }

  /** The "not find client msg" branch is unreachable: a PUBREL that is accepted finds its message. */
  lemma PubrelFindsMessage(r: Run, k: nat, c: ClientId, id: uint16)
    requires r.IsRun() && k < |r.states|
    requires Waits(r.states[k], c, id, WaitPubrel)
    ensures FanOutOf(r.states[k], Pubrel(c, id)).Some?
    ensures var m := FanOutOf(r.states[k], Pubrel(c, id)).value.m; m.qos == 2 && m.packetId == id
  {
    InvRun(r, k);
  }

  /** The program dies on exactly one event: a PUBCOMP from a client without a session. */
  lemma CrashesIffPubcompWithoutSession(b: Broker, ch: Choice)
    ensures Step(b, ch).Crashed? <==> ch.e.Pubcomp? && ch.e.c !in b.sessions
  {
  }

  // ---- one packet identifier of one session ----

  function StatusOf(b: Broker, c: ClientId, id: uint16): Option<Status> {
    if c in b.sessions && id in b.sessions[c].status then Some(b.sessions[c].status[id]) else None
  }

  // The message a step queues or writes to client c, if c takes part in its fan-out.
  ghost predicate Allocates(b: Broker, ch: Choice, c: ClientId, id: uint16) {
    var f := FanOutOf(b, ch.e);
    && f.Some? && f.value.Matches(c) && f.value.sessions[c].online
    && c in ch.o.pick && ch.o.pick[c] == id
  }

  // A queued message of QoS 2 is written to client c under identifier id.
  predicate Replays(b: Broker, e: Event, c: ClientId, id: uint16) {
    && c in b.sessions
    && match e
       case Add(d, _) => d == c && HasQos2(b.sessions[c].offline, id)
       case ClusterLoginInfo(info) => info.clientId == c && HasQos2(info.offline, id)
       case _ => false
  }

  /** How a step moves one identifier of a session that survives the step: the whole table. */
  ghost predicate Moves(b: Broker, ch: Choice, c: ClientId, id: uint16, x: Option<Status>, y: Option<Status>) {
    if Replays(b, ch.e, c, id) then y == Some(WaitPubrec)
    else if ch.e.Pub? && ch.e.c == c && ch.e.m.qos == 2 && ch.e.m.packetId == id then y == Some(WaitPubrel)
    else if ch.e == Pubrel(c, id) && x == Some(WaitPubrel) then
      y == if Allocates(b, ch, c, id) then Some(WaitPubrec) else None
    else if ch.e == Puback(c, id) && x == Some(WaitPuback) then y == None
    else if ch.e == Pubrec(c, id) && x == Some(WaitPubrec) then y == Some(WaitPubcomp)
    else if ch.e == Pubcomp(c, id) && x == Some(WaitPubcomp) then y == None
    else if Allocates(b, ch, c, id) && FanOutOf(b, ch.e).value.path != FromPublish && FanOutOf(b, ch.e).value.m.qos == 2 then
      x == None && y == Some(WaitPubrec)
    else if Allocates(b, ch, c, id) && FanOutOf(b, ch.e).value.m.qos == 1 then x == None && y == Some(WaitPuback)
    else y == x
  }

  function Lookup(status: map<uint16, Status>, id: uint16): Option<Status> {
    if id in status then Some(status[id]) else None
  }

  // What a send leaves in PubStatus, if anything.
  function Tracks(path: Path, qos: byte): Option<Status> {
    if path == FromPubrel || (path == FromCluster && qos == 2) then Some(WaitPubrec)
    else if qos == 1 then Some(WaitPuback)
    else None
  }

  lemma ReceiveStatus(path: Path, s: Session, m: Publish, lead: Write, id: uint16)
    ensures Lookup(Receive(path, s, m, lead).status, id) ==
            if m.topic in s.subs && s.online && m.packetId == id && Tracks(path, m.qos).Some?
            then Tracks(path, m.qos) else Lookup(s.status, id)
  {
  }

  lemma SpreadStatus(f: FanOut, o: Oracle, c: ClientId, id: uint16)
    requires c in f.sessions && f.ValidOracle(o)
    ensures Lookup(f.Spread(o)[c].status, id) ==
            if f.Matches(c) && f.sessions[c].online && o.pick[c] == id && Tracks(f.path, f.m.qos).Some?
            then Tracks(f.path, f.m.qos) else Lookup(f.sessions[c].status, id)
    ensures f.Matches(c) && o.pick[c] == id ==> Lookup(f.sessions[c].status, id) == None
  {
    ReceiveStatus(f.path, f.sessions[c], f.Copy(o.pick, c), f.Lead(o, c), id);
    if f.Matches(c) {
      assert c in o.pick && CanDraw(f.sessions[c], o.pick[c]);
    }
  }

  // The table, from what the fan-out's starting sessions and one send do to the identifier.
  lemma FanOutMoves(b: Broker, ch: Choice, c: ClientId, id: uint16, y: Option<Status>)
    requires Inv(b) && c in b.sessions && FanOutOf(b, ch.e).Some?
    requires var f := FanOutOf(b, ch.e).value;
             && (y == if Allocates(b, ch, c, id) && Tracks(f.path, f.m.qos).Some?
                      then Tracks(f.path, f.m.qos) else Lookup(f.sessions[c].status, id))
             && (Allocates(b, ch, c, id) ==> Lookup(f.sessions[c].status, id) == None)
    ensures Moves(b, ch, c, id, StatusOf(b, c, id), y)
  {
    match ch.e {
      case Pub(d, m) =>
      case Pubrel(d, i) => assert FanOutOf(b, ch.e).value.m.qos == 2;
      case ClusterPub(m) =>
    }
  }

  lemma FanOutLifecycle(b: Broker, ch: Choice, b': Broker, c: ClientId, id: uint16)
    requires Inv(b) && Valid(b, ch) && Step(b, ch) == Running(b')
    requires FanOutOf(b, ch.e).Some? && c in b.sessions
    ensures Moves(b, ch, c, id, StatusOf(b, c, id), StatusOf(b', c, id))
  {
    var f := FanOutOf(b, ch.e).value;
    assert c in f.sessions;
    SpreadStatus(f, ch.o, c, id);
    assert StatusOf(b', c, id) == Lookup(f.Spread(ch.o)[c].status, id);
    assert f.Matches(c) ==> c in ch.o.pick;
    FanOutMoves(b, ch, c, id, StatusOf(b', c, id));
  }

  lemma ReplayLifecycle(b: Broker, ch: Choice, b': Broker, c: ClientId, id: uint16)
    requires ch.e.Add? || ch.e.ClusterLoginInfo?
    requires Step(b, ch) == Running(b') && c in b.sessions
    ensures Moves(b, ch, c, id, StatusOf(b, c, id), StatusOf(b', c, id))
  {
    if ch.e.Add? {
      ReplayStatusExactly(b.sessions[c].status, b.sessions[c].offline, id);
    } else {
      ReplayStatusExactly(b.sessions[c].status, ch.e.info.offline, id);
    }
  }

  lemma AckLifecycle(b: Broker, ch: Choice, b': Broker, c: ClientId, id: uint16)
    requires ch.e.Puback? || ch.e.Pubrec? || ch.e.Pubrel? || ch.e.Pubcomp?
    requires FanOutOf(b, ch.e).None? && Step(b, ch) == Running(b') && Inv(b) && c in b.sessions
    ensures Moves(b, ch, c, id, StatusOf(b, c, id), StatusOf(b', c, id))
  {
    match ch.e {
      case Puback(d, i) =>
      case Pubrec(d, i) =>
      case Pubrel(d, i) =>
        assert !Waits(b, d, i, WaitPubrel);
        assert b' == b;
      case Pubcomp(d, i) =>
    }
  }

  /** The life of one packet identifier, over every step that keeps the session. */
  lemma Lifecycle(b: Broker, ch: Choice, b': Broker, c: ClientId, id: uint16)
    requires Inv(b) && Valid(b, ch) && Step(b, ch) == Running(b')
    requires c in b.sessions && c in b'.sessions
    ensures Moves(b, ch, c, id, StatusOf(b, c, id), StatusOf(b', c, id))
  {
    if FanOutOf(b, ch.e).Some? {
      FanOutLifecycle(b, ch, b', c, id);
    } else if ch.e.Add? || ch.e.ClusterLoginInfo? {
      ReplayLifecycle(b, ch, b', c, id);
    } else if ch.e.Puback? || ch.e.Pubrec? || ch.e.Pubrel? || ch.e.Pubcomp? {
      AckLifecycle(b, ch, b', c, id);
    } else {
      assert StatusOf(b', c, id) == StatusOf(b, c, id);
    }
  }

  // ---- who gets a copy ----

  // The event writes or queues c a copy of its message.
  predicate GetsCopy(b: Broker, e: Event, c: ClientId) {
    match FanOutOf(b, e)
    case None => false
    case Some(f) =>
      && c in b.sessions && f.m.topic in b.sessions[c].subs && !(f.path == FromPublish && f.m.qos > 1)
      && if b.sessions[c].online then f.m.qos <= 2 else f.m.qos != 0
  }
}
