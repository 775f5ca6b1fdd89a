// What each event does to a session, spelled out event by event: what is written to its client, what else of
// the session changes, and from where a fan-out starts. (How PubStatus moves is in module Invariants, and what
// a fan-out then does in module FanOuts.)
module Effects {
  import opened MqttTypes
  import opened Dispatcher
  import opened Invariants

  lemma {:induction false} SinglesAre(msgs: seq<Publish>)
    ensures Singles(msgs) == seq(|msgs|, i requires 0 <= i < |msgs| => [PublishPkt(msgs[i])])
  {
    if msgs != [] {
      SinglesAre(msgs[..|msgs| - 1]);
    }
  }

  /** Which sessions there are: a login makes one, which starts with nothing but its CONNACK, unless there is
      one; the removal of a clean session and a login elsewhere take it away; no other event makes or removes
      one. */
  lemma EventSessions(b: Broker, ch: Choice, b': Broker)
    requires Step(b, ch) == Running(b')
    ensures forall c :: c in b'.sessions <==>
              (c in b.sessions && ch.e != Del(c) && !(ch.e.ClusterLogin? && ch.e.c == c)) || (ch.e.Add? && ch.e.c == c)
    ensures forall c :: c in b'.sessions && c !in b.sessions ==>
              b'.sessions[c] == Session(c, ch.e.clear, true, map[], map[], [], map[], [[ConnackPkt]])
  {
    assert Singles([]) == [];
  }

  /** What every event without a fan-out writes to a client: CONNACK and then each queued message by itself on
      its login, PUBREL for an accepted PUBREC, each message of a hand-off by itself, and nothing otherwise. */
  lemma EventWrites(b: Broker, ch: Choice, b': Broker, c: ClientId)
    requires Inv(b) && Step(b, ch) == Running(b') && FanOutOf(b, ch.e).None? && c in b.sessions && c in b'.sessions
    ensures var s, out' := b.sessions[c], b'.sessions[c].out;
            match ch.e
            case Add(d, _) =>
              var q := s.offline;
              out' == s.out
                      + if d == c then [[ConnackPkt]] + seq(|q|, i requires 0 <= i < |q| => [PublishPkt(q[i])]) else []
            case ClusterLoginInfo(info) =>
              var q := info.offline;
              out' == s.out + if info.clientId == c then seq(|q|, i requires 0 <= i < |q| => [PublishPkt(q[i])]) else []
            case Pubrec(d, id) =>
              out' == s.out + if d == c && id in s.status && s.status[id] == WaitPubrec then [[PubrelPkt(id)]] else []
            case _ => out' == s.out
  {
    var s := b.sessions[c];
    assert s.out + [] == s.out;
    match ch.e {
      case Add(d, _) =>
        SinglesAre(s.offline);
        hide Singles, ReplayStatus;
        Assoc(s.out, [[ConnackPkt]], Singles(s.offline));
      case ClusterLoginInfo(info) =>
        SinglesAre(info.offline);
        hide Singles, ReplayStatus;
      case Pubrel(d, id) => assert !Waits(b, d, id, WaitPubrel);
      case _ =>
    }
  }

  /** What else such an event changes: the connection state with a login or its end, the clean flag with a
      login, the queue with a login, and the cache with an accepted PUBCOMP. */
  lemma EventKeeps(b: Broker, ch: Choice, b': Broker, c: ClientId)
    requires Inv(b) && Step(b, ch) == Running(b') && FanOutOf(b, ch.e).None? && c in b.sessions && c in b'.sessions
    ensures var s, s', e := b.sessions[c], b'.sessions[c], ch.e;
            && s'.clientId == c
            && s'.online == (if e.Add? && e.c == c then true else if e == GoOffline(c) then false else s.online)
            && s'.clear == (if e.Add? && e.c == c then e.clear else s.clear)
            && s'.offline == (if e.Add? && e.c == c then [] else s.offline)
            && s'.cache == (if e.Pubcomp? && e.c == c && e.id in s.status && s.status[e.id] == WaitPubcomp
                            then s.cache - {e.id} else s.cache)
  {
    hide Singles, ReplayStatus, LastWins, Without;
    if ch.e.Pubrel? {
      assert !Waits(b, ch.e.c, ch.e.id, WaitPubrel);
    }
  }

  /** And the subscriptions: a list adds to them, a removal takes exactly its topics away, a hand-off merges
      its own into them, and no other such event touches them. */
  lemma EventSubs(b: Broker, ch: Choice, b': Broker, c: ClientId)
    requires Inv(b) && Step(b, ch) == Running(b') && FanOutOf(b, ch.e).None? && c in b.sessions && c in b'.sessions
    ensures var s, s', e := b.sessions[c].subs, b'.sessions[c].subs, ch.e;
            match e
            case Sub(d, filters) => s' == if d == c then LastWins(s, filters) else s
            case Unsub(d, topics) =>
              && (forall t :: t in s' <==> t in s && !(d == c && t in topics))
              && (forall t :: t in s' ==> s'[t] == s[t])
            case ClusterLoginInfo(info) =>
              && (forall t :: t in s' <==> t in s || (info.clientId == c && t in info.subs))
              && (forall t :: t in s' ==> s'[t] == if info.clientId == c && t in info.subs then info.subs[t] else s[t])
            case _ => s' == s
  {
    hide Singles, ReplayStatus, LastWins;
    if ch.e.Pubrel? {
      assert !Waits(b, ch.e.c, ch.e.id, WaitPubrel);
    }
  }

  /** From where a fan-out starts: a PUBLISH of a client with a session, stored at QoS 2; an accepted PUBREL,
      which frees its identifier and is answered with PUBCOMP, for the stored message; and any publish of
      another node. */
  lemma FanOutStarts(b: Broker, e: Event)
    ensures FanOutOf(b, e).Some? <==>
              match e
              case Pub(d, _) => d in b.sessions
              case Pubrel(d, id) =>
                && d in b.sessions && id in b.sessions[d].status && b.sessions[d].status[id] == WaitPubrel
                && id in b.sessions[d].cache
              case ClusterPub(_) => true
              case _ => false
    ensures FanOutOf(b, e).Some? ==>
              var f := FanOutOf(b, e).value;
              && f.sessions.Keys == b.sessions.Keys
              && match e
                 case Pub(d, m) =>
                   && f.m == m && f.path == FromPublish
                   && forall c :: c in b.sessions ==>
                        var s := b.sessions[c];
                        f.sessions[c] == if c == d && m.qos == 2
                                         then s.(status := s.status[m.packetId := WaitPubrel],
                                                 cache := s.cache[m.packetId := m])
                                         else s
                 case Pubrel(d, id) =>
                   && f.m == b.sessions[d].cache[id] && f.path == FromPubrel
                   && forall c :: c in b.sessions ==>
                        var s := b.sessions[c];
                        f.sessions[c] == if c == d then s.(status := s.status - {id}, out := s.out + [[PubcompPkt(id)]])
                                         else s
                 case ClusterPub(m) => f.m == m && f.path == FromCluster && f.sessions == b.sessions
  {
  }
}
