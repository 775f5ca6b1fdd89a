// The loops over the clients map: what each session gets, that the map order does not matter,
// and when the PUBLISH loop's shared write buffer shows.
module FanOuts {
  import opened MqttTypes
  import opened Dispatcher

  // ---- order ----

  // Each write without what the buffer held before.
  function OwnWrites(out: seq<Write>): seq<Write> {
    seq(|out|, i requires 0 <= i < |out| => PacketsOf(AsIntended, out[i]))
  }

  function Stripped(s: Session): Session {
    s.(out := OwnWrites(s.out))
  }

  lemma OwnWritesLast(out: seq<Write>, lead: Write, p: Packet)
    ensures OwnWrites(out + [lead + [p]]) == OwnWrites(out) + [[p]]
  {
  }

  lemma ReceiveLead(path: Path, s: Session, m: Publish, lead1: Write, lead2: Write)
    ensures path != FromPublish ==> Receive(path, s, m, lead1) == Receive(path, s, m, lead2)
    ensures Stripped(Receive(path, s, m, lead1)) == Stripped(Receive(path, s, m, lead2))
  {
    OwnWritesLast(s.out, lead1, PublishPkt(m));
    OwnWritesLast(s.out, lead2, PublishPkt(m));
  }

  /** With the same identifiers drawn, any two map orders leave the same sessions: exactly the same on
      the PUBREL and cluster loops, and the same up to the packets that precede a client's own packet
      in a write on the PUBLISH loop. */
  lemma OrderIrrelevant(f: FanOut, o1: Oracle, o2: Oracle)
    requires o1.pick == o2.pick
    ensures f.path != FromPublish ==> f.Spread(o1) == f.Spread(o2)
    ensures f.Spread(o1).Keys == f.Spread(o2).Keys
    ensures forall c :: c in f.sessions ==> Stripped(f.Spread(o1)[c]) == Stripped(f.Spread(o2)[c])
  {
    forall c | c in f.sessions
      ensures f.path != FromPublish ==> f.Spread(o1)[c] == f.Spread(o2)[c]
      ensures Stripped(f.Spread(o1)[c]) == Stripped(f.Spread(o2)[c])
    {
      ReceiveLead(f.path, f.sessions[c], f.Copy(o1.pick, c), f.Lead(o1, c), f.Lead(o2, c));
    }
  }

  // ---- the shared buffer ----

  // The clients the PUBLISH loop has written to after visiting `order`.
  function WrittenIn(f: FanOut, order: seq<ClientId>): set<ClientId> {
    set c | c in order && f.Written(c)
  }

  lemma WrittenInLast(f: FanOut, order: seq<ClientId>)
    requires order != [] && order[|order| - 1] !in order[..|order| - 1]
    ensures var n := |order| - 1;
            |WrittenIn(f, order)| == |WrittenIn(f, order[..n])| + if f.Written(order[n]) then 1 else 0
  {
    var n := |order| - 1;
    assert order == order[..n] + [order[n]];
    if f.Written(order[n]) {
      assert WrittenIn(f, order) == WrittenIn(f, order[..n]) + {order[n]};
    } else {
      assert WrittenIn(f, order) == WrittenIn(f, order[..n]);
    }
  }

  lemma {:induction false} BufferSize(f: FanOut, pick: map<ClientId, uint16>, order: seq<ClientId>)
    requires forall i, j :: 0 <= i < j < |order| ==> order[i] != order[j]
    ensures |f.Buffer(pick, order)| == |WrittenIn(f, order)|
  {
    if order != [] {
      BufferSize(f, pick, order[..|order| - 1]);
      WrittenInLast(f, order);
    }
  }

  lemma {:induction false} BufferAt(f: FanOut, pick: map<ClientId, uint16>, order: seq<ClientId>, j: nat)
    requires forall i, k :: 0 <= i < k < |order| ==> order[i] != order[k]
    requires j < |order| && f.Written(order[j])
    ensures |WrittenIn(f, order[..j])| < |f.Buffer(pick, order)|
    ensures f.Buffer(pick, order)[|WrittenIn(f, order[..j])|] == PublishPkt(f.Copy(pick, order[j]))
  {
    var n := |order| - 1;
    BufferSize(f, pick, order[..n]);
    if j < n {
      BufferAt(f, pick, order[..n], j);
      assert order[..n][..j] == order[..j];
    }
    hide WrittenIn, FanOut.Written;
  }

  lemma {:induction false} BeforeAt(order: seq<ClientId>, j: nat)
    requires j < |order| && forall i, k :: 0 <= i < k < |order| ==> order[i] != order[k]
    ensures Before(order, order[j]) == order[..j]
  {
    if j > 0 {
      BeforeAt(order[1..], j - 1);
      assert order[..j] == [order[0]] + order[1..][..j - 1];
    }
  }

  // What the PUBLISH loop writes to client c.
  function WriteTo(f: FanOut, o: Oracle, c: ClientId): Write {
    f.Lead(o, c) + [PublishPkt(f.Copy(o.pick, c))]
  }

  /** The PUBLISH loop writes one buffer to each online subscriber: the client at place k of the map
      order is written one packet for each subscriber written before it, and then its own. */
  lemma KthGetsKPackets(f: FanOut, o: Oracle, k: nat)
    requires f.path == FromPublish && f.ValidOracle(o) && k < |o.order| && f.Written(o.order[k])
    ensures var c := o.order[k];
            && f.Spread(o)[c].out == f.sessions[c].out + [WriteTo(f, o, c)]
            && |WriteTo(f, o, c)| == |WrittenIn(f, o.order[..k])| + 1
            && WriteTo(f, o, c)[|WrittenIn(f, o.order[..k])|] == PublishPkt(f.Copy(o.pick, c))
  {
    BeforeAt(o.order, k);
    BufferSize(f, o.pick, o.order[..k]);
  }

  /** The packets in front of its own are the other subscribers' copies, in the map's order. */
  lemma KthGetsThoseBefore(f: FanOut, o: Oracle, j: nat, k: nat)
    requires f.path == FromPublish && f.ValidOracle(o)
    requires j < k < |o.order| && f.Written(o.order[j]) && f.Written(o.order[k])
    ensures var w, place := WriteTo(f, o, o.order[k]), |WrittenIn(f, o.order[..j])|;
            place < |w| - 1 && w[place] == PublishPkt(f.Copy(o.pick, o.order[j]))
  {
    var before := o.order[..k];
    assert before[j] == o.order[j] && before[..j] == o.order[..j];
    BeforeAt(o.order, k);
    BufferAt(f, o.pick, before, j);
    hide WrittenIn, FanOut.Written, Before, FanOut.Buffer;
  }

  /** Every online subscriber is written exactly its own packet if and only if there are not two of them. */
  lemma ExactIffOneSubscriber(f: FanOut, o: Oracle)
    requires f.path == FromPublish && f.ValidOracle(o)
    ensures (forall c :: f.Written(c) ==> WriteTo(f, o, c) == [PublishPkt(f.Copy(o.pick, c))])
            <==> (forall c, d :: f.Written(c) && f.Written(d) ==> c == d)
  {
    if forall c, d :: f.Written(c) && f.Written(d) ==> c == d {
      forall c | f.Written(c) ensures WriteTo(f, o, c) == [PublishPkt(f.Copy(o.pick, c))] {
        var k :| 0 <= k < |o.order| && o.order[k] == c;
        KthGetsKPackets(f, o, k);
        assert WrittenIn(f, o.order[..k]) == {};
      }
    } else {
      var c, d :| f.Written(c) && f.Written(d) && c != d;
      LaterGetsMore(f, o, c, d);
    }
  }

  /** What a client finds in the shared buffer: other packets exactly if a subscriber that is written to
      comes before it in the map order. */
  lemma BufferedBefore(f: FanOut, o: Oracle, k: nat)
    requires f.path == FromPublish && f.ValidOracle(o) && k < |o.order|
    ensures f.Lead(o, o.order[k]) != [] <==> exists i :: 0 <= i < k && f.Written(o.order[i])
  {
    BeforeAt(o.order, k);
    BufferSize(f, o.pick, o.order[..k]);
    var w := WrittenIn(f, o.order[..k]);
    hide FanOut.ValidOracle, FanOut.Written, FanOut.Buffer, Before;
    if i :| 0 <= i < k && f.Written(o.order[i]) {
      assert o.order[..k][i] == o.order[i];
      assert o.order[i] in w;
    }
  }

  lemma SecondGetsMore(f: FanOut, o: Oracle, i: nat, j: nat)
    requires f.path == FromPublish && f.ValidOracle(o)
    requires i < j < |o.order| && f.Written(o.order[i]) && f.Written(o.order[j])
    ensures |WriteTo(f, o, o.order[j])| > 1
  {
    KthGetsKPackets(f, o, j);
    assert o.order[..j][i] == o.order[i];
    assert o.order[i] in WrittenIn(f, o.order[..j]);
    hide FanOut.Spread, FanOut.ValidOracle, WriteTo, FanOut.Written, Before, WrittenIn;
  }

  lemma LaterGetsMore(f: FanOut, o: Oracle, c: ClientId, d: ClientId)
    requires f.path == FromPublish && f.ValidOracle(o)
    requires f.Written(c) && f.Written(d) && c != d
    ensures |WriteTo(f, o, c)| > 1 || |WriteTo(f, o, d)| > 1
  {
    assert c in o.order && d in o.order;
    hide FanOut.ValidOracle, WriteTo, FanOut.Written;
    var i :| 0 <= i < |o.order| && o.order[i] == c;
    var j :| 0 <= j < |o.order| && o.order[j] == d;
    if i < j {
      SecondGetsMore(f, o, i, j);
    } else {
      SecondGetsMore(f, o, j, i);
    }
  }

  // ---- exactness ----

  // c's session after a loop that builds a fresh buffer for each client.
  // One write of one packet, under an identifier that was free and is then tracked as its QoS asks; a QoS 2
  // message is cached. Nothing else changes.
  ghost predicate GetsOneCopy(s: Session, s': Session, x: Publish) {
    && x.packetId !in s.status
    && s' == s.(out := s.out + [[PublishPkt(x)]],
                status := if x.qos == 0 then s.status
                          else s.status[x.packetId := if x.qos == 1 then WaitPuback else WaitPubrec],
                cache := if x.qos == 2 then s.cache[x.packetId := x] else s.cache)
  }

  /** On the PUBREL and cluster loops each online subscriber is written exactly one publish, with the
      original message under an identifier free in its own session (nothing at the QoS 3 that does not
      exist); each offline one queues it exactly when its QoS is not 0; no other session changes. */
  lemma FanOutExact(f: FanOut, o: Oracle, c: ClientId)
    requires f.path != FromPublish && f.ValidOracle(o) && c in f.sessions
    requires f.path == FromPubrel ==> f.m.qos == 2
    ensures var s, s', x := f.sessions[c], f.Spread(o)[c], f.Copy(o.pick, c);
            && x == f.m.(packetId := x.packetId)
            && if f.m.topic !in s.subs then s' == s
               else if s.online then (if f.m.qos <= 2 then GetsOneCopy(s, s', x) else s' == s)
               else s' == if f.m.qos == 0 then s else s.(offline := s.offline + [x])
  {
    var s, s', x := f.sessions[c], f.Spread(o)[c], f.Copy(o.pick, c);
    if f.Matches(c) {
      assert CanDraw(s, o.pick[c]);
      assert [] + [PublishPkt(x)] == [PublishPkt(x)];
    }
  }

  lemma OneOwnCopy(s: Session, x: Publish, lead: Write)
    requires x.topic in s.subs && s.online && x.qos < 2 && x.packetId !in s.status
    ensures GetsOneCopy(Stripped(s), Stripped(Receive(FromPublish, s, x, lead)), x)
  {
    var s' := Receive(FromPublish, s, x, lead);
    OwnWritesLast(s.out, lead, PublishPkt(x));
    hide OwnWrites;
  }

  /** The PUBLISH loop as intended, that is, up to what the shared buffer puts before each client's own
      packet: at QoS 0 and 1 each online subscriber gets exactly one copy, at QoS 1 each offline one
      queues it, from QoS 2 on nobody gets anything yet, and no other session changes. */
  lemma PublishExact(f: FanOut, o: Oracle, c: ClientId)
    requires f.path == FromPublish && f.ValidOracle(o) && c in f.sessions
    ensures var s, s', x := f.sessions[c], f.Spread(o)[c], f.Copy(o.pick, c);
            && x == f.m.(packetId := x.packetId)
            && if f.m.topic !in s.subs || f.m.qos >= 2 then s' == s
               else if s.online then GetsOneCopy(Stripped(s), Stripped(s'), x)
               else s' == if f.m.qos == 0 then s else s.(offline := s.offline + [x])
  {
    var s, x := f.sessions[c], f.Copy(o.pick, c);
    assert f.Matches(c) ==> CanDraw(s, o.pick[c]);
    hide FanOut.Lead, GetsOneCopy, Stripped;
    if f.Matches(c) && s.online && f.m.qos < 2 {
      OneOwnCopy(s, x, f.Lead(o, c));
    }
  }
}
