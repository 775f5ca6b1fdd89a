// What a client that follows MQTT 3.1.1 reads from its connection: the packets the dispatcher wrote, from
// packet-level claims down to bytes, as long as each of them is one that the standard allows.
module ClientView {
  import opened MqttTypes
  import opened Dispatcher
  import opened PacketCodec
  import opened PublishCodec

  // ---- the bytes of a write ----

  // An acknowledgement is built from a parsed one: only its identifier is set.
  function AckOf(id: uint16): Publish {
    Publish(0, id, 0, [], 0, [])
  }

  function PacketBytes(p: Packet): seq<byte> {
    match p
    case ConnackPkt => [32] + VarInt(2) + [1, 0]
    case PublishPkt(m) => PublishBytes(m)
    case PubrelPkt(id) => AckBytes(PUBREL, AckOf(id))
    case PubcompPkt(id) => AckBytes(PUBCOMP, AckOf(id))
  }

  function WriteBytes(w: Write): seq<byte> {
    if w == [] then [] else PacketBytes(w[0]) + WriteBytes(w[1..])
  }

  // All writes to a connection: TCP does not keep them apart.
  function StreamBytes(out: seq<Write>): seq<byte> {
    if out == [] then [] else WriteBytes(out[0]) + StreamBytes(out[1..])
  }

  function Packets(out: seq<Write>): seq<Packet> {
    if out == [] then [] else out[0] + Packets(out[1..])
  }

  // What a client can see of a packet: a QoS 0 publish has no identifier on the wire.
  function Seen(p: Packet): Packet {
    if p.PublishPkt? then PublishPkt(Readable(p.m)) else p
  }

  function AllSeen(ps: seq<Packet>): seq<Packet> {
    seq(|ps|, i requires 0 <= i < |ps| => Seen(ps[i]))
  }

  // ---- the client's reader, after sections 2.2 and 3.3 ----

  // Fixed header, the bytes the remaining length counts, and what follows.
  datatype Frame = Frame(header: byte, body: seq<byte>, rest: seq<byte>)

  function ReadFrame(stream: seq<byte>): (r: Option<Frame>)
    ensures r.Some? ==> |r.value.rest| < |stream|
  {
    if stream == [] then None
    else match ReadVar(stream[1..], 4)
      case Val(n, l) =>
        if 1 + l + n > |stream| then None
        else Some(Frame(stream[0], stream[1 + l..1 + l + n], stream[1 + l + n..]))
      case _ => None
  }

  // At least one byte, without wildcards and without the null character (sections 3.3.2.1, 4.7.3); whether
  // the bytes are UTF-8 is not looked at.
  predicate TopicName(topic: GoString) {
    topic != [] && 35 !in topic && 43 !in topic && 0 !in topic
  }

  // None where the standard has the client close the connection (section 4.8): QoS 3 ([MQTT-3.3.1-4]), DUP 1
  // at QoS 0 ([MQTT-3.3.1-2]), identifier 0 above QoS 0 ([MQTT-2.3.1-1]), a topic that is none, a short packet.
  function ReadPublish(header: byte, body: seq<byte>): Option<Publish> {
    if |body| < 2 then None
    else
      var at := 2 + ReadU16(body[0], body[1]);
      var qos := QosBits(header);
      var after := if qos > 0 then at + 2 else at;
      if after > |body| || qos == 3 || (qos == 0 && DupBit(header) == 1) || !TopicName(body[2..at]) then None
      else
        var id := if qos > 0 then ReadU16(body[at], body[at + 1]) else 0;
        if qos > 0 && id == 0 then None
        else Some(Publish(DupBit(header), id, header % 2, body[2..at], qos, body[after..]))
  }

  function ReadPacket(header: byte, body: seq<byte>): Option<Packet> {
    if TypeOf(header) == PUBLISH then
      match ReadPublish(header, body)
      case None => None
      case Some(m) => Some(PublishPkt(m))
    else if |body| != 2 then None
    else if header == 32 then if body[0] <= 1 && body[1] == 0 then Some(ConnackPkt) else None
    else if header == 98 then Some(PubrelPkt(ReadU16(body[0], body[1])))
    else if header == 112 then Some(PubcompPkt(ReadU16(body[0], body[1])))
    else None
  }

  function ReadStream(stream: seq<byte>): Option<seq<Packet>>
    decreases |stream|
  {
    if stream == [] then Some([])
    else match ReadFrame(stream)
      case None => None
      case Some(f) =>
        match ReadPacket(f.header, f.body)
        case None => None
        case Some(p) =>
          match ReadStream(f.rest)
          case None => None
          case Some(ps) => Some([p] + ps)
  }

  // ---- the reader undoes the writer ----

  // Fields of the sizes that the wire format has.
  predicate Fits(p: Packet) {
    p.PublishPkt? ==>
      && p.m.dup <= 1 && p.m.qos <= 3 && p.m.retained <= 1
      && |p.m.topic| < 0x1_0000 && RemainingLength(p.m) < LENGTH_LIMIT
  }

  predicate AllFit(ps: seq<Packet>) {
    forall i :: 0 <= i < |ps| ==> Fits(ps[i])
  }

  // A message that may be published, whatever identifier it gets.
  predicate Publishable(m: Publish) {
    m.qos <= 2 && (m.qos == 0 ==> m.dup == 0) && TopicName(m.topic)
  }

  predicate Lawful(p: Packet) {
    p.PublishPkt? ==> Publishable(p.m) && (p.m.qos > 0 ==> p.m.packetId != 0)
  }

  predicate AllLawful(ps: seq<Packet>) {
    forall i :: 0 <= i < |ps| ==> Lawful(ps[i])
  }

  lemma FrameAt(stream: seq<byte>, n: nat, l: nat)
    requires stream != [] && ReadVar(stream[1..], 4) == Val(n, l) && 1 + l + n <= |stream|
    ensures ReadFrame(stream) == Some(Frame(stream[0], stream[1 + l..1 + l + n], stream[1 + l + n..]))
  {
    hide ReadVar;
  }

  lemma FrameRead(header: byte, body: seq<byte>, rest: seq<byte>)
    requires |body| < LENGTH_LIMIT
    ensures ReadFrame([header] + VarInt(|body|) + body + rest) == Some(Frame(header, body, rest))
  {
    hide VarInt, ReadVar, ReadFrame;
    var v := VarInt(|body|);
    VarIntSize(|body|);
    VarIntRoundTrip(|body|, 4, body + rest);
    FrameCut(header, v, body, rest);
    FrameAt([header] + v + body + rest, |body|, |v|);
  }

  /** The client reads back every serialised PUBLISH that the standard allows, and refuses every other. */
  lemma PublishRead(m: Publish)
    requires Fits(PublishPkt(m))
    ensures ReadPublish(PublishHeader(m), PublishBody(m)) == if Lawful(PublishPkt(m)) then Some(Readable(m)) else None
  {
    hide PublishHeader, ToByte, ReadU16, TopicName;
    var body, at := PublishBody(m), 2 + |m.topic|;
    HeaderFields(m);
    U16RoundTrip(|m.topic|);
    U16RoundTrip(m.packetId);
    assert body[0] == U16(|m.topic|)[0] && body[1] == U16(|m.topic|)[1];
    assert body[2..at] == m.topic;
    if m.qos > 0 {
      assert body[at] == U16(m.packetId)[0] && body[at + 1] == U16(m.packetId)[1];
      assert body[at + 2..] == m.payload;
    } else {
      assert body[at..] == m.payload;
    }
  }

  lemma AckRead(msgType: byte, id: uint16)
    requires msgType == PUBREL || msgType == PUBCOMP
    ensures AckHeader(msgType, AckOf(id)) == if msgType == PUBREL then 98 else 112
    ensures ReadU16(U16(id)[0], U16(id)[1]) == id
  {
    assert Shl(msgType, 4) == 16 * msgType;
    FlagSum(16 * msgType, if msgType == PUBREL then 2 else 0, 0, 0);
    U16RoundTrip(id);
    hide Or, OrBits;
  }

  function HeaderOf(p: Packet): byte {
    match p
    case ConnackPkt => 32
    case PublishPkt(m) => PublishHeader(m)
    case PubrelPkt(_) => 98
    case PubcompPkt(_) => 112
  }

  function BodyOf(p: Packet): seq<byte> {
    match p
    case ConnackPkt => [1, 0]
    case PublishPkt(m) => PublishBody(m)
    case PubrelPkt(id) => U16(id)
    case PubcompPkt(id) => U16(id)
  }

  lemma PacketLayout(p: Packet)
    ensures PacketBytes(p) == [HeaderOf(p)] + VarInt(|BodyOf(p)|) + BodyOf(p)
  {
    hide VarInt, AckHeader, PublishHeader, ToByte;
    match p {
      case PublishPkt(m) => assert |PublishBody(m)| == RemainingLength(m);
      case PubrelPkt(id) => AckRead(PUBREL, id);
      case PubcompPkt(id) => AckRead(PUBCOMP, id);
      case ConnackPkt =>
    }
  }

  lemma PacketRead(p: Packet)
    requires Fits(p)
    ensures ReadPacket(HeaderOf(p), BodyOf(p)) == (if Lawful(p) then Some(Seen(p)) else None)
    ensures |BodyOf(p)| < LENGTH_LIMIT
  {
    hide PublishHeader, ToByte, ReadU16, ReadPublish, Publishable;
    match p {
      case PublishPkt(m) =>
        PublishRead(m);
        HeaderFields(m);
      case PubrelPkt(id) => U16RoundTrip(id);
      case PubcompPkt(id) => U16RoundTrip(id);
      case ConnackPkt =>
    }
  }

  function Follow(ps: seq<Packet>, more: Option<seq<Packet>>): Option<seq<Packet>> {
    if more.Some? then Some(ps + more.value) else None
  }

  lemma PacketFirst(p: Packet, tail: seq<byte>)
    requires Fits(p)
    ensures ReadStream(PacketBytes(p) + tail)
            == if Lawful(p) then Follow([Seen(p)], ReadStream(tail)) else None
  {
    hide VarInt, Fits, Lawful, HeaderOf, BodyOf, Seen, PacketBytes, ReadPacket, ReadFrame;
    PacketLayout(p);
    PacketRead(p);
    FrameRead(HeaderOf(p), BodyOf(p), tail);
  }

  lemma FirstOf(ps: seq<Packet>)
    requires ps != []
    ensures AllFit(ps) ==> Fits(ps[0]) && AllFit(ps[1..])
    ensures AllLawful(ps) <==> Lawful(ps[0]) && AllLawful(ps[1..])
    ensures AllSeen(ps) == [Seen(ps[0])] + AllSeen(ps[1..])
  {
    hide Fits, Lawful, Seen;
    assert ps == [ps[0]] + ps[1..];
  }

  // The bytes of packets are the same however the packets are spread over writes.
  lemma {:induction false} WriteConcat(w: Write, v: Write)
    ensures WriteBytes(w + v) == WriteBytes(w) + WriteBytes(v)
  {
    hide PacketBytes;
    if w == [] {
      assert w + v == v && [] + WriteBytes(v) == WriteBytes(v);
    } else {
      assert (w + v)[1..] == w[1..] + v;
      WriteConcat(w[1..], v);
      Assoc(PacketBytes(w[0]), WriteBytes(w[1..]), WriteBytes(v));
    }
  }

  lemma {:induction false} StreamIsFlat(out: seq<Write>)
    ensures StreamBytes(out) == WriteBytes(Packets(out))
  {
    if out != [] {
      StreamIsFlat(out[1..]);
      WriteConcat(out[0], Packets(out[1..]));
      hide WriteBytes;
    }
  }

  lemma {:induction false} PacketsRead(ps: seq<Packet>)
    requires AllFit(ps)
    ensures ReadStream(WriteBytes(ps)) == if AllLawful(ps) then Some(AllSeen(ps)) else None
  {
    if ps == [] {
      assert AllSeen(ps) == [];
    } else {
      FirstOf(ps);
      hide ReadStream, PacketBytes, Seen, Fits, Lawful, AllFit, AllLawful, AllSeen;
      PacketsRead(ps[1..]);
      PacketFirst(ps[0], WriteBytes(ps[1..]));
    }
  }

  /** Whatever the writes to a connection are, however many packets each of them holds: a client that follows
      the standard reads from the bytes exactly the packets written, in order, if each of them is lawful, and
      otherwise finds one for which it has to close the connection. */
  lemma ClientReadsLawful(out: seq<Write>)
    requires AllFit(Packets(out))
    ensures ReadStream(StreamBytes(out)) == if AllLawful(Packets(out)) then Some(AllSeen(Packets(out))) else None
  {
    hide ReadStream, StreamBytes, WriteBytes, AllFit, AllLawful, AllSeen, Packets;
    StreamIsFlat(out);
    PacketsRead(Packets(out));
  }

  lemma {:induction false} PacketsSnoc(out: seq<Write>, w: Write)
    ensures Packets(out + [w]) == Packets(out) + w
  {
    if out == [] {
      assert [w][1..] == [] && w + [] == w && [] + w == w && [] + [w] == [w];
    } else {
      PacketsSnoc(out[1..], w);
      assert (out + [w])[1..] == out[1..] + [w];
      Assoc(out[0], Packets(out[1..]), w);
    }
  }

  lemma ConcatParts(ps: seq<Packet>, qs: seq<Packet>)
    ensures AllFit(ps + qs) <==> AllFit(ps) && AllFit(qs)
    ensures AllLawful(ps + qs) <==> AllLawful(ps) && AllLawful(qs)
    ensures AllSeen(ps + qs) == AllSeen(ps) + AllSeen(qs)
  {
    hide Seen, Fits, Lawful;
    assert forall i :: 0 <= i < |ps| ==> (ps + qs)[i] == ps[i];
    assert forall i :: 0 <= i < |qs| ==> (ps + qs)[|ps| + i] == qs[i];
  }

  /** So the shared buffer of the PUBLISH loop is visible: one more write makes the client read every packet
      that was in the buffer, the other subscribers' copies as well as its own, and one of them that is
      unlawful costs it the connection. */
  lemma SharedBufferIsVisible(out: seq<Write>, w: Write)
    requires AllFit(Packets(out)) && AllFit(w)
    ensures var now, next := ReadStream(StreamBytes(out)), ReadStream(StreamBytes(out + [w]));
            && (next.Some? <==> now.Some? && AllLawful(w))
            && (next.Some? ==> next.value == now.value + AllSeen(w))
  {
    hide AllFit, AllLawful, ReadStream, StreamBytes, AllSeen, Packets;
    PacketsSnoc(out, w);
    ConcatParts(Packets(out), w);
    ClientReadsLawful(out);
    ClientReadsLawful(out + [w]);
  }
}
