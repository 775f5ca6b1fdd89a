// The offline queue: what a client missed while it was away, in order, once each.
module OfflineQueue {
  import opened MqttTypes
  import opened Dispatcher
  import opened Invariants
  import opened ExactlyOnce

  // The message that an event completes and that an absent subscriber has to get later.
  function Completed(b: Broker, e: Event): Option<Publish> {
    match e
    case Pub(c, m) => if c in b.sessions && m.qos == 1 then Some(m) else None
    case Pubrel(c, id) => Inbound(b, c, id)
    case ClusterPub(m) => if m.qos != 0 then Some(m) else None
    case _ => None
  }

  // What client c misses in one step.
  function Missed(b: Broker, e: Event, c: ClientId): seq<Publish> {
    match Completed(b, e)
    case Some(m) => if c in b.sessions && m.topic in b.sessions[c].subs then [m.Content()] else []
    case None => []
  }

  // What client c misses in steps lo..hi of a run.
  function MissedOver(r: Run, lo: nat, hi: nat, c: ClientId): seq<Publish>
    requires lo <= hi <= |r.steps| && |r.states| == |r.steps| + 1
  {
    if lo == hi then [] else MissedOver(r, lo, hi - 1, c) + Missed(r.states[hi - 1], r.steps[hi - 1].e, c)
  }

  // What a hand-off brings to an absent client: the code writes it to the closed connection.
  function LostHandOff(b: Broker, e: Event, c: ClientId): seq<Publish> {
    if e.ClusterLoginInfo? && e.info.clientId == c && c in b.sessions && !b.sessions[c].online
    then Contents(e.info.offline) else []
  }

  // What client c should get on its return: what it misses, and what is handed over for it meanwhile.
  function DueOver(r: Run, lo: nat, hi: nat, c: ClientId): seq<Publish>
    requires lo <= hi <= |r.steps| && |r.states| == |r.steps| + 1
  {
    if lo == hi then []
    else
      var b, e := r.states[hi - 1], r.steps[hi - 1].e;
      DueOver(r, lo, hi - 1, c) + Missed(b, e, c) + LostHandOff(b, e, c)
  }

  function Contents(msgs: seq<Publish>): seq<Publish> {
    seq(|msgs|, i requires 0 <= i < |msgs| => msgs[i].Content())
  }

  predicate LeavesAway(e: Event, c: ClientId) {
    match e
    case Add(d, _) => d != c
    case Del(d) => d != c
    case ClusterLogin(d, _) => d != c
    case _ => true
  }

  // An event with a fan-out completes its message, except at QoS 0 and at a QoS 2 PUBLISH.
  lemma CompletedByFanOut(b: Broker, e: Event)
    requires FanOutOf(b, e).Some?
    ensures var f := FanOutOf(b, e).value;
            Completed(b, e) == if f.path == FromPublish && f.m.qos != 1 then None
                               else if f.path == FromCluster && f.m.qos == 0 then None
                               else Some(f.m)
  {
  }

  lemma ReceiveAway(path: Path, s: Session, x: Publish, lead: Write)
    requires !s.online
    ensures var s' := Receive(path, s, x, lead);
            && !s'.online
            && Contents(s'.offline) == Contents(s.offline)
                 + if x.topic !in s.subs || (path == FromPublish && x.qos != 1) || (path == FromCluster && x.qos == 0)
                   then [] else [x.Content()]
  {
    assert Contents(s.offline + [x]) == Contents(s.offline) + [x.Content()];
  }

  lemma AwayFanOut(b: Broker, ch: Choice, c: ClientId)
    requires FanOutOf(b, ch.e).Some? && c in b.sessions && !b.sessions[c].online
    ensures var s' := FanOutOf(b, ch.e).value.Spread(ch.o);
            c in s' && !s'[c].online && Contents(s'[c].offline) == Contents(b.sessions[c].offline) + Missed(b, ch.e, c)
  {
    var f := FanOutOf(b, ch.e).value;
    var s, x := f.sessions[c], f.Copy(ch.o.pick, c);
    assert s.subs == b.sessions[c].subs && s.offline == b.sessions[c].offline && !s.online;
    assert x.Content() == f.m.Content() && x.qos == f.m.qos && x.topic == f.m.topic;
    CompletedByFanOut(b, ch.e);
    ReceiveAway(f.path, s, x, f.Lead(ch.o, c));
  }

  lemma AwayOther(b: Broker, ch: Choice, b': Broker, c: ClientId)
    requires Step(b, ch) == Running(b') && FanOutOf(b, ch.e).None? && Inv(b)
    requires c in b.sessions && !b.sessions[c].online && LeavesAway(ch.e, c)
    ensures c in b'.sessions && !b'.sessions[c].online && b'.sessions[c].offline == b.sessions[c].offline
    ensures Missed(b, ch.e, c) == []
  {
  }

  lemma AwayStep(b: Broker, ch: Choice, b': Broker, c: ClientId)
    requires Inv(b) && Step(b, ch) == Running(b')
    requires c in b.sessions && !b.sessions[c].online && LeavesAway(ch.e, c)
    ensures c in b'.sessions && !b'.sessions[c].online
    ensures Contents(b'.sessions[c].offline) == Contents(b.sessions[c].offline) + Missed(b, ch.e, c)
  {
    if FanOutOf(b, ch.e).Some? {
      AwayFanOut(b, ch, c);
    } else {
      AwayOther(b, ch, b', c);
    }
  }

  lemma {:induction false} AwayRun(r: Run, lo: nat, hi: nat, c: ClientId)
    requires r.IsRun() && lo <= hi <= |r.steps|
    requires c in r.states[lo].sessions && !r.states[lo].sessions[c].online
    requires forall j :: lo <= j < hi ==> LeavesAway(r.steps[j].e, c)
    ensures c in r.states[hi].sessions && !r.states[hi].sessions[c].online
    ensures Contents(r.states[hi].sessions[c].offline)
            == Contents(r.states[lo].sessions[c].offline) + MissedOver(r, lo, hi, c)
    decreases hi
  {
    if lo < hi {
      AwayRun(r, lo, hi - 1, c);
      InvRun(r, hi - 1);
      hide Step, Valid, Contents, Missed, Inv;
      AwayStep(r.states[hi - 1], r.steps[hi - 1], r.states[hi], c);
    }
  }

  // Every connection write of a replay is one publish of the queue.
  lemma {:induction false} SinglesAre(msgs: seq<Publish>)
    ensures |Singles(msgs)| == |msgs|
    ensures forall i :: 0 <= i < |msgs| ==> Singles(msgs)[i] == [PublishPkt(msgs[i])]
  {
    if msgs != [] {
      SinglesAre(msgs[..|msgs| - 1]);
    }
  }

  lemma {:induction false} MissedNotQos0(r: Run, lo: nat, hi: nat, c: ClientId)
    requires r.IsRun() && lo <= hi <= |r.steps|
    ensures forall j :: 0 <= j < |MissedOver(r, lo, hi, c)| ==> MissedOver(r, lo, hi, c)[j].qos != 0
    decreases hi
  {
    if lo < hi {
      MissedNotQos0(r, lo, hi - 1, c);
      InvRun(r, hi - 1);
    }
  }

  lemma OfflineStep(b: Broker, ch: Choice, b': Broker, c: ClientId)
    requires Inv(b) && Step(b, ch) == Running(b') && ch.e == GoOffline(c)
    requires c in b.sessions && b.sessions[c].online
    ensures c in b'.sessions && !b'.sessions[c].online && b'.sessions[c].offline == []
  {
  }

  // What a login writes and leaves.
  lemma LoginStep(b: Broker, ch: Choice, b': Broker, c: ClientId)
    requires Step(b, ch) == Running(b') && ch.e.Add? && ch.e.c == c && c in b.sessions
    ensures c in b'.sessions && b'.sessions[c].online && b'.sessions[c].offline == []
    ensures b'.sessions[c].out == b.sessions[c].out + [[ConnackPkt]] + Singles(b.sessions[c].offline)
  {
  }

  predicate NoneLost(r: Run, lo: nat, hi: nat, c: ClientId)
    requires lo <= hi <= |r.steps| && |r.states| == |r.steps| + 1
  {
    forall j :: lo <= j < hi ==> LostHandOff(r.states[j], r.steps[j].e, c) == []
  }

  lemma {:induction false} DueIffNoneLost(r: Run, lo: nat, hi: nat, c: ClientId)
    requires lo <= hi <= |r.steps| && |r.states| == |r.steps| + 1
    ensures |DueOver(r, lo, hi, c)| >= |MissedOver(r, lo, hi, c)|
    ensures MissedOver(r, lo, hi, c) == DueOver(r, lo, hi, c) <==> NoneLost(r, lo, hi, c)
    ensures |MissedOver(r, lo, hi, c)| == |DueOver(r, lo, hi, c)| <==> NoneLost(r, lo, hi, c)
    decreases hi
  {
    hide Missed, LostHandOff;
    if lo < hi {
      DueIffNoneLost(r, lo, hi - 1, c);
      var b, e := r.states[hi - 1], r.steps[hi - 1].e;
      if LostHandOff(b, e, c) == [] {
        assert DueOver(r, lo, hi, c) == DueOver(r, lo, hi - 1, c) + Missed(b, e, c);
      }
    }
  }

  /** Between going offline and the next CONNECT: the login writes CONNACK and then, one write each and in
      order, exactly the QoS 1 and 2 messages on the client's topics completed meanwhile (QoS 1 at PUBLISH,
      QoS 2 at PUBREL, remote ones at the cluster publish). That is all the client should get if and only
      if no non-empty hand-off arrived for it meanwhile. */
  lemma ReconnectReplaysMissed(r: Run, i: nat, k: nat, c: ClientId) returns (q: seq<Publish>)
    requires r.IsRun() && i < k < |r.steps|
    requires r.steps[i].e == GoOffline(c) && c in r.states[i].sessions && r.states[i].sessions[c].online
    requires r.steps[k].e.Add? && r.steps[k].e.c == c
    requires forall j :: i < j < k ==> LeavesAway(r.steps[j].e, c)
    ensures c in r.states[k].sessions && c in r.states[k + 1].sessions
    ensures Contents(q) == MissedOver(r, i + 1, k, c)
    ensures Contents(q) == DueOver(r, i + 1, k, c) <==> NoneLost(r, i + 1, k, c)
    ensures forall j :: 0 <= j < |q| ==> q[j].qos != 0
    ensures var s, s' := r.states[k].sessions[c], r.states[k + 1].sessions[c];
            && |s'.out| == |s.out| + 1 + |q| && s.out <= s'.out && s'.out[|s.out|] == [ConnackPkt]
            && (forall j :: 0 <= j < |q| ==> s'.out[|s.out| + 1 + j] == [PublishPkt(q[j])])
            && s'.online && s'.offline == []
  {
    InvRun(r, i);
    assert Contents([]) == [];
    hide Step, Valid, Inv, Contents, MissedOver, DueOver, NoneLost, Singles;
    OfflineStep(r.states[i], r.steps[i], r.states[i + 1], c);
    AwayRun(r, i + 1, k, c);
    DueIffNoneLost(r, i + 1, k, c);
    q := r.states[k].sessions[c].offline;
    LoginStep(r.states[k], r.steps[k], r.states[k + 1], c);
    LoginWrites(r.states[k].sessions[c].out, r.states[k + 1].sessions[c].out, q);
    MissedNotQos0(r, i + 1, k, c);
    assert [] + MissedOver(r, i + 1, k, c) == MissedOver(r, i + 1, k, c);
    SameQos(q, MissedOver(r, i + 1, k, c));
  }

  // The writes of a login, one by one.
  lemma LoginWrites(out: seq<Write>, out': seq<Write>, q: seq<Publish>)
    requires out' == out + [[ConnackPkt]] + Singles(q)
    ensures |out'| == |out| + 1 + |q| && out <= out' && out'[|out|] == [ConnackPkt]
    ensures forall j :: 0 <= j < |q| ==> out'[|out| + 1 + j] == [PublishPkt(q[j])]
  {
    hide Singles;
    SinglesAre(q);
    Around(out, [ConnackPkt], Singles(q));
  }

  lemma SameQos(q: seq<Publish>, contents: seq<Publish>)
    requires Contents(q) == contents && forall j :: 0 <= j < |contents| ==> contents[j].qos != 0
    ensures forall j :: 0 <= j < |q| ==> q[j].qos != 0
  {
    forall j | 0 <= j < |q| ensures q[j].qos != 0 {
      assert contents[j] == q[j].Content();
    }
  }

  // ---- a hand-off that comes too late ----

  // One session, offline, and after a hand-off of m to it.
  function LoneOffline(c: ClientId): Session {
    Login(FreshSession(c), c, false).(online := false)
  }

  function LoneHanded(c: ClientId, m: Publish): Session {
    var s := Replay(LoneOffline(c), [m]);
    s.(subs := s.subs + map[])
  }

  function Lone(c: ClientId, s: Session, logins: seq<ClusterMsg>): Broker {
    Broker(map[c := s], logins)
  }

  lemma LoneSteps(c: ClientId, m: Publish, o: Oracle)
    ensures Step(INIT, Choice(Add(c, false), o)) == Running(Lone(c, LoneOffline(c).(online := true), [LoginMsg(c)]))
    ensures Step(Lone(c, LoneOffline(c).(online := true), [LoginMsg(c)]), Choice(GoOffline(c), o))
            == Running(Lone(c, LoneOffline(c), [LoginMsg(c)]))
    ensures Step(Lone(c, LoneOffline(c), [LoginMsg(c)]), Choice(ClusterLoginInfo(ClientInfo(c, map[], [m])), o))
            == Running(Lone(c, LoneHanded(c, m), [LoginMsg(c)]))
    ensures Step(Lone(c, LoneHanded(c, m), [LoginMsg(c)]), Choice(Add(c, false), o))
            == Running(Lone(c, Login(LoneHanded(c, m), c, false), [LoginMsg(c), LoginMsg(c)]))
  {
    hide Login, Replay;
    LoneLogin(c, o);
    assert LoneOffline(c).(online := true) == Login(FreshSession(c), c, false) by { LoginOnline(c); }
  }

  lemma LoginOnline(c: ClientId)
    ensures Login(FreshSession(c), c, false).online
  {
  }

  /** The hand-off that comes too late: c logs in, its connection ends, and only then a message queued at
      its old node arrives. It is written to the closed connection, and the next login replays nothing. */
  lemma LateHandOffIsLost(c: ClientId, m: Publish) returns (r: Run)
    ensures r.IsRun() && |r.steps| == 4
    ensures r.steps[1].e == GoOffline(c) && r.steps[3].e == Add(c, false)
    ensures r.steps[2].e == ClusterLoginInfo(ClientInfo(c, map[], [m]))
    ensures DueOver(r, 2, 3, c) == [m.Content()]
    ensures c in r.states[3].sessions && c in r.states[4].sessions
    ensures r.states[4].sessions[c].out == r.states[3].sessions[c].out + [[ConnackPkt]]
  {
    var o := Oracle(map[], [c]);
    var b1 := Lone(c, LoneOffline(c).(online := true), [LoginMsg(c)]);
    var b2, b3 := Lone(c, LoneOffline(c), [LoginMsg(c)]), Lone(c, LoneHanded(c, m), [LoginMsg(c)]);
    var b4 := Lone(c, Login(LoneHanded(c, m), c, false), [LoginMsg(c), LoginMsg(c)]);
    LoneSteps(c, m, o);
    LateLogin(c, m);
    hide Step, Login, Replay;
    var s1, s2 := Choice(Add(c, false), o), Choice(GoOffline(c), o);
    var s3 := Choice(ClusterLoginInfo(ClientInfo(c, map[], [m])), o);
    r := Run([INIT, b1, b2, b3, b4], [s1, s2, s3, s1]);
    assert Missed(b2, s3.e, c) == [] && LostHandOff(b2, s3.e, c) == Contents([m]) == [m.Content()];
    assert DueOver(r, 2, 2, c) == [];
  }

  lemma LateLogin(c: ClientId, m: Publish)
    ensures var s := LoneHanded(c, m);
            !LoneOffline(c).online && s.offline == [] && Login(s, c, false).out == s.out + [[ConnackPkt]]
  {
    assert Singles([]) == [];
  }

  // ---- the exit handler ----

  // The clean-session flag of c's latest CONNECT.
  predicate LatestClear(steps: seq<Choice>, c: ClientId) {
    if steps == [] then false
    else
      var n := |steps| - 1;
      if steps[n].e.Add? && steps[n].e.c == c then steps[n].e.clear else LatestClear(steps[..n], c)
  }

  lemma ClearFanOut(b: Broker, ch: Choice, c: ClientId)
    requires FanOutOf(b, ch.e).Some? && c in b.sessions
    ensures var s' := FanOutOf(b, ch.e).value.Spread(ch.o); c in s' && s'[c].clear == b.sessions[c].clear
  {
    var f := FanOutOf(b, ch.e).value;
    assert c in f.sessions && f.sessions[c].clear == b.sessions[c].clear;
    hide FanOutOf, FanOut.Lead;
  }

  lemma ClearStep(b: Broker, ch: Choice, b': Broker, c: ClientId)
    requires Step(b, ch) == Running(b') && c in b'.sessions
    ensures b'.sessions[c].clear == if ch.e.Add? && ch.e.c == c then ch.e.clear else c in b.sessions && b.sessions[c].clear
  {
    KeysStep(b, ch, b');
    hide ReplayStatus, Singles, LastWins, Without, Waits, FanOut.Spread;
    if FanOutOf(b, ch.e).Some? {
      ClearFanOut(b, ch, c);
    } else {
      hide FanOutOf;
    }
  }

  /** What the exit handler finds: the session's flag is that of the client's latest CONNECT, so a
      connection's end removes the session exactly if that CONNECT asked for a clean one. */
  lemma {:induction false} ClearIsLatest(r: Run, k: nat, c: ClientId)
    requires r.IsRun() && k < |r.states| && c in r.states[k].sessions
    ensures r.states[k].sessions[c].clear == LatestClear(r.steps[..k], c)
  {
    KeysStep(r.states[k - 1], r.steps[k - 1], r.states[k]);
    ClearStep(r.states[k - 1], r.steps[k - 1], r.states[k], c);
    hide Step, Valid;
    assert r.steps[..k][..k - 1] == r.steps[..k - 1];
    if c in r.states[k - 1].sessions {
      ClearIsLatest(r, k - 1, c);
    }
  }
}
