// PUBLISH and the four acknowledgement packets, to bytes and back.
module PublishCodec {
  import opened MqttTypes
  import opened PacketCodec

  // ---- header bits ----

  // (h & 0x06) >> 1
  function QosBits(h: byte): byte {
    h / 2 % 4
  }

  // (h & 0x08) >> 3
  function DupBit(h: byte): byte {
    h / 8 % 2
  }

  // ---- fixed header ----

  const DISCONNECT: byte := 14

  // The type and the remaining length, whichever way the decoder ends; -1 for the reserved type 15.
  function FixHeader(buf: seq<byte>): Parsed<(int, nat)> {
    if buf == [] then Panic
    else if TypeOf(buf[0]) > DISCONNECT then Parsed((-1, 0))
    else match ReadVar(buf[1..], 4)
      case Short => Panic
      case Val(v, _) => Parsed((TypeOf(buf[0]) as int, v))
      case Over(v) => Parsed((TypeOf(buf[0]) as int, v))
  }

  method MqttPacket_ParseFixHeader(buf: seq<byte>) returns (panicked: bool, msgType: int, length: nat)
    ensures FixHeader(buf) == if panicked then Panic else Parsed((msgType, length))
  {
    panicked, msgType, length := false, -1, 0;
    if |buf| == 0 {
      return true, -1, 0;
    }
    msgType := TypeOf(buf[0]);
    if msgType > DISCONNECT as int {
      return false, -1, 0;
    }
    var used;
    panicked, used, length := mqttPacket_decode(buf[1..]);
  }

  lemma FrameCut(header: byte, v: seq<byte>, body: seq<byte>, rest: seq<byte>)
    ensures var stream := [header] + v + body + rest;
            && |stream| == 1 + |v| + |body| + |rest| && stream[0] == header && stream[1..] == v + (body + rest)
            && stream[1 + |v|..1 + |v| + |body|] == body && stream[1 + |v| + |body|..] == rest
  {
    var stream := [header] + v + body + rest;
    assert stream[1..] == v + (body + rest);
  }

  /** On any packet of the standard, whatever follows it, the fixed header is read as its type and the
      number of bytes after the remaining length; the reserved type 15 is refused. */
  lemma FixHeaderRead(header: byte, body: seq<byte>, rest: seq<byte>)
    requires |body| < LENGTH_LIMIT
    ensures FixHeader([header] + VarInt(|body|) + body + rest)
            == Parsed(if header >= 240 then (-1, 0) else (header as int / 16, |body|))
  {
    hide VarInt, ReadVar;
    VarIntSize(|body|);
    VarIntRoundTrip(|body|, 4, body + rest);
    FrameCut(header, VarInt(|body|), body, rest);
    FixHeaderIs([header] + VarInt(|body|) + body + rest, |body|, |VarInt(|body|)|);
    hide FixHeader;
  }

  lemma FixHeaderIs(buf: seq<byte>, n: nat, l: nat)
    requires buf != [] && ReadVar(buf[1..], 4) == Val(n, l)
    ensures FixHeader(buf) == Parsed(if buf[0] >= 240 then (-1, 0) else (buf[0] as int / 16, n))
  {
    hide ReadVar;
  }

  // ---- PUBLISH: bytes ----

  function PublishHeader(m: Publish): byte {
    Or(Or(Or(Shl(PUBLISH, 4), Shl(m.qos, 1)), Shl(m.dup, 3)), m.retained)
  }

  function RemainingLength(m: Publish): nat {
    2 + |m.topic| + |m.payload| + if m.qos > 0 then 2 else 0
  }

  function IdBytes(m: Publish): seq<byte> {
    if m.qos > 0 then U16(m.packetId) else []
  }

  // The variable header and payload.
  function PublishBody(m: Publish): seq<byte> {
    StringBytes(m.topic) + IdBytes(m) + m.payload
  }

  // Section 3.3 of MQTT 3.1.1.
  function PublishBytes(m: Publish): seq<byte> {
    [PublishHeader(m)] + VarInt(RemainingLength(m)) + PublishBody(m)
  }

  /** Appends the packet to what the buffer holds and returns the number of bytes appended; a
      remaining length of 128^4 or more is an index out of range. */
  method MQTTSeserialize_publish(m: Publish, buf: seq<byte>) returns (panicked: bool, index: nat, buf': seq<byte>)
    ensures panicked <==> RemainingLength(m) >= 268435456
    ensures !panicked ==> buf' == buf + PublishBytes(m) && index == |PublishBytes(m)|
    ensures !panicked ==> RemainingLength(m) == |PublishBody(m)|
  {
    hide OrBits, VarInt;
    var header := Shl(PUBLISH, 4);
    header := Or(header, Shl(m.qos, 1));
    header := Or(header, Shl(m.dup, 3));
    header := Or(header, m.retained);
    buf', index := buf + [header], 1;
    var remainLen := 2 + |m.topic| + |m.payload|;
    if m.qos > 0 {
      remainLen := remainLen + 2;
    }
    var tmp: nat, leftLen;
    panicked, tmp, leftLen := mqttPacket_encode(remainLen);
    if panicked {
      return;
    }
    for i := 0 to tmp
      invariant buf' == buf + [header] + leftLen[..i]
    {
      buf' := buf' + [leftLen[i]];
      assert leftLen[..i + 1] == leftLen[..i] + [leftLen[i]];
    }
    index := index + tmp;
    assert buf' == buf + ([header] + VarInt(remainLen));
    buf', index := buf' + [ToByte(|m.topic| / 256)] + [ToByte(|m.topic| % 256)], index + 2;
    buf', index := buf' + m.topic, index + |m.topic|;
    if m.qos > 0 {
      buf', index := buf' + [ToByte(m.packetId / 256)] + [ToByte(m.packetId % 256)], index + 2;
    }
    buf', index := buf' + m.payload, index + |m.payload|;
    assert buf' == buf + ([header] + VarInt(remainLen) + PublishBody(m));
  }

  // ---- PUBLISH: parser ----

  // Two bytes at an index of the read buffer, which is longer than what was read into it.
  function TwoBytes(buf: seq<byte>, index: nat): Option<uint16> {
    if index + 1 < |buf| then Some(ReadU16(buf[index], buf[index + 1])) else None
  }

  // The parser's cursor over buf, of which the first len bytes were read.
  function ParsePublish(buf: seq<byte>, len: nat): Parsed<Publish>
    requires len <= |buf|
  {
    if buf == [] then Panic
    else if TypeOf(buf[0]) != PUBLISH then Rejected
    else if len < 1 then Panic
    else match ReadVar(buf[1..len], 4)
      case Short => Panic
      case Over(_) => ParsePublishRest(buf, len, 1)
      case Val(_, l) => ParsePublishRest(buf, len, 1 + l)
  }

  function ParsePublishRest(buf: seq<byte>, len: nat, index: nat): Parsed<Publish>
    requires buf != [] && len <= |buf|
  {
    var header := buf[0];
    var qos := QosBits(header);
    if index > len then Panic
    else match ReadString(buf[index..len])
      case None => Panic
      case Some(r) =>
        var at := index + r.1;
        var id := if qos > 0 then TwoBytes(buf, at) else Some(0);
        var after := if qos > 0 then at + 2 else at;
        if id == None || after > len then Panic
        else Parsed(Publish(DupBit(header), id.value, header % 2, r.0, qos, buf[after..len]))
  }

  method MQTTDeserialize_publish(buf: seq<byte>, len: nat) returns (r: Parsed<Publish>)
    requires len <= |buf|
    ensures r == ParsePublish(buf, len)
    ensures r.Rejected? <==> buf != [] && buf[0] / 16 != 3
  {
    if |buf| == 0 {
      return Panic;
    }
    var index := 0;
    var header := buf[index];
    index := index + 1;
    if TypeOf(header) != PUBLISH {
      return Rejected;
    }
    var m := Publish(DupBit(header), 0, header % 2, [], QosBits(header), []);
    if index > len {
      return Panic;
    }
    var panicked, used, remainLen := mqttPacket_decode(buf[index..len]);
    if panicked {
      return Panic;
    }
    VarReadWithin(buf[index..len], 4);
    index := index + used;
    var topic;
    panicked, used, topic := mqttPacket_readString(buf[index..len]);
    if panicked {
      return Panic;
    }
    m := m.(topic := topic);
    index := index + used;
    if m.qos > 0 {
      if index + 1 >= |buf| {
        return Panic;
      }
      m := m.(packetId := ReadU16(buf[index], buf[index + 1]));
      index := index + 2;
    }
    if index > len {
      return Panic;
    }
    r := Parsed(m.(payload := buf[index..len]));
  }

  lemma VarReadWithin(data: seq<byte>, room: nat)
    ensures ReadVar(data, room).Val? ==> ReadVar(data, room).len <= |data|
  {
  }

  // ---- both directions ----

  // The flags fit their bits: the header is a sum.
  lemma FlagSum(high: byte, two: byte, dup: byte, retained: byte)
    requires high % 16 == 0 && two % 2 == 0 && two <= 6 && dup <= 1 && retained <= 1
    ensures Or(Or(Or(high, two), Shl(dup, 3)), retained) == high + two + 8 * dup + retained
  {
    hide OrBits, Disjoint;
    assert Shl(dup, 3) == 8 * dup;
    LowBits(high / 8, two);
    OrIsSum(high, two, 8);
    BitThree(high + two, dup);
    OrIsSum(high + two, 8 * dup, 8);
    LowBits1(high + two + 8 * dup, retained);
    OrIsSum(high + two + 8 * dup, retained, 8);
  }

  lemma LowBits(h: nat, two: nat)
    requires two % 2 == 0 && two <= 6
    ensures Disjoint(h * 8, two, 8)
  {
    var a, b := h * 8, two;
    assert a / 2 / 2 / 2 == h && b / 2 / 2 / 2 == 0;
    ZeroDisjoint(h, 5);
    assert Disjoint(a / 2 / 2, b / 2 / 2, 6);
  }

  lemma {:induction false} ZeroDisjoint(a: nat, k: nat)
    ensures Disjoint(a, 0, k)
  {
    if k > 0 {
      ZeroDisjoint(a / 2, k - 1);
    }
  }

  lemma BitThree(a: nat, dup: nat)
    requires a % 16 < 8 && dup <= 1
    ensures Disjoint(a, 8 * dup, 8)
  {
    var x := a / 2 / 2 / 2;
    assert x % 2 == 0;
    ZeroDisjoint(x / 2, 4);
    assert Disjoint(x, dup, 5);
    assert Disjoint(a / 2 / 2, 2 * dup, 6);
  }

  lemma LowBits1(a: nat, retained: nat)
    requires a % 2 == 0 && retained <= 1
    ensures Disjoint(a, retained, 8)
  {
    ZeroDisjoint(a / 2, 7);
  }

  /** The first byte of a PUBLISH, and its fields as the parser takes them. */
  lemma HeaderFields(m: Publish)
    requires m.dup <= 1 && m.qos <= 3 && m.retained <= 1
    ensures PublishHeader(m) == 48 + 8 * m.dup + 2 * m.qos + m.retained
    ensures var h := PublishHeader(m);
            TypeOf(h) == PUBLISH && DupBit(h) == m.dup && QosBits(h) == m.qos && h % 2 == m.retained
  {
    hide OrBits;
    assert Shl(PUBLISH, 4) == 48 && Shl(m.qos, 1) == 2 * m.qos;
    FlagSum(48, 2 * m.qos, m.dup, m.retained);
    HeaderDigits(m.qos, m.dup, m.retained);
  }

  lemma HeaderDigits(qos: byte, dup: byte, retained: byte)
    requires dup <= 1 && qos <= 3 && retained <= 1
    ensures var h := 48 + 2 * qos + 8 * dup + retained;
            h / 16 == 3 && h / 8 % 2 == dup && h / 2 % 4 == qos && h % 2 == retained
  {
  }

  // What a parser can give back: the identifier of a QoS 0 message is not on the wire.
  function Readable(m: Publish): Publish {
    if m.qos > 0 then m else m.WithId(0)
  }

  lemma Cut(a: seq<byte>, b: seq<byte>)
    ensures (a + b)[|a|..] == b
  {
  }

  // The wire, cut where the parser's cursor goes.
  lemma PublishLayout(m: Publish, suffix: seq<byte>)
    ensures var buf, v := PublishBytes(m) + suffix, VarInt(RemainingLength(m));
            && |buf| >= 3 + |v| + |m.topic| + |IdBytes(m)| && buf[0] == PublishHeader(m)
            && buf[1..] == v + (PublishBody(m) + suffix)
            && buf[1 + |v|..] == StringBytes(m.topic) + (IdBytes(m) + (m.payload + suffix))
            && buf[3 + |v| + |m.topic|..] == IdBytes(m) + (m.payload + suffix)
            && buf[3 + |v| + |m.topic| + |IdBytes(m)|..] == m.payload + suffix
  {
    hide VarInt, PublishHeader, ToByte;
    var v, t := VarInt(RemainingLength(m)), StringBytes(m.topic);
    var h := [PublishHeader(m)];
    var rest := m.payload + suffix;
    var buf := PublishBytes(m) + suffix;
    assert PublishBody(m) + suffix == t + (IdBytes(m) + rest);
    assert buf == h + (v + (PublishBody(m) + suffix));
    assert buf == (h + v) + (t + (IdBytes(m) + rest));
    Cut(h + v, t + (IdBytes(m) + rest));
    assert buf == (h + v + t) + (IdBytes(m) + rest);
    Cut(h + v + t, IdBytes(m) + rest);
    assert buf == (h + v + t + IdBytes(m)) + rest;
    Cut(h + v + t + IdBytes(m), rest);
  }

  // The first part of the parse: header and remaining length.
  lemma PublishCursor(m: Publish, suffix: seq<byte>)
    requires m.dup <= 1 && m.qos <= 3 && m.retained <= 1 && RemainingLength(m) < LENGTH_LIMIT
    ensures var buf := PublishBytes(m) + suffix;
            ParsePublish(buf, |buf|) == ParsePublishRest(buf, |buf|, 1 + |VarInt(RemainingLength(m))|)
  {
    hide PublishHeader, ParsePublishRest, VarInt, ReadVar, PublishBody;
    var buf := PublishBytes(m) + suffix;
    PublishLayout(m, suffix);
    HeaderFields(m);
    VarIntSize(RemainingLength(m));
    VarIntRoundTrip(RemainingLength(m), 4, PublishBody(m) + suffix);
    assert buf[1..|buf|] == buf[1..];
  }

  lemma IdRead(m: Publish, buf: seq<byte>, at: nat)
    requires at + |IdBytes(m)| <= |buf| && buf[at..at + |IdBytes(m)|] == IdBytes(m) && m.qos > 0
    ensures TwoBytes(buf, at) == Some(m.packetId)
  {
    U16RoundTrip(m.packetId);
    assert buf[at..at + 2][0] == buf[at] && buf[at..at + 2][1] == buf[at + 1];
  }

  // The round trip in a buffer that ends with the read.
  lemma PublishRoundTripExact(m: Publish, suffix: seq<byte>)
    requires m.dup <= 1 && m.qos <= 3 && m.retained <= 1
    requires |m.topic| < 0x1_0000 && RemainingLength(m) < LENGTH_LIMIT
    ensures var buf := PublishBytes(m) + suffix;
            ParsePublish(buf, |buf|) == Parsed(Readable(m).(payload := m.payload + suffix)) <==> |m.topic| < 256
  {
    hide PublishHeader, VarInt, ReadVar, ReadString, StringBytes, TwoBytes, PublishBytes;
    var buf, l := PublishBytes(m) + suffix, |VarInt(RemainingLength(m))|;
    PublishLayout(m, suffix);
    HeaderFields(m);
    PublishCursor(m, suffix);
    StringRoundTrip(m.topic, IdBytes(m) + (m.payload + suffix));
    assert buf[1 + l..|buf|] == buf[1 + l..];
    if |m.topic| < 256 {
      var at := 3 + l + |m.topic|;
      assert buf[at..at + |IdBytes(m)|] == IdBytes(m) by {
        assert buf[at..at + |IdBytes(m)|] == buf[at..][..|IdBytes(m)|];
      }
      if m.qos > 0 {
        IdRead(m, buf, at);
      }
      assert buf[at + |IdBytes(m)|..|buf|] == buf[at + |IdBytes(m)|..];
    }
  }

  lemma Inside(buf: seq<byte>, rest: seq<byte>, i: nat)
    requires i <= |buf|
    ensures (buf + rest)[i..|buf|] == buf[i..]
  {
  }

  // The parser never uses what is in the read buffer after the bytes read.
  lemma RestIgnored(buf: seq<byte>, rest: seq<byte>)
    requires buf != []
    ensures ParsePublish(buf + rest, |buf|) == ParsePublish(buf, |buf|)
  {
    hide ReadVar, ReadString;
    Inside(buf, rest, 1);
    assert buf[1..|buf|] == buf[1..];
    forall index: nat ensures ParsePublishRest(buf + rest, |buf|, index) == ParsePublishRest(buf, |buf|, index) {
      RestIgnoredFrom(buf, rest, index);
    }
    hide ParsePublishRest;
  }

  lemma RestIgnoredFrom(buf: seq<byte>, rest: seq<byte>, index: nat)
    requires buf != []
    ensures ParsePublishRest(buf + rest, |buf|, index) == ParsePublishRest(buf, |buf|, index)
  {
    hide ReadString, ReadU16;
    if index <= |buf| {
      Inside(buf, rest, index);
      assert buf[index..|buf|] == buf[index..];
      var r := ReadString(buf[index..]);
      if r.Some? {
        var after := index + r.value.1 + if QosBits(buf[0]) > 0 then 2 else 0;
        if after <= |buf| {
          Inside(buf, rest, after);
          assert buf[after..|buf|] == buf[after..];
        }
      }
    }
  }

  /** Round trip, for any read buffer the packet lies at the start of: parsing a serialised PUBLISH gives the
      message back if and only if its topic is shorter than 256 bytes. The parser trusts the read count, not
      the remaining length: bytes of a following packet in the same read end up in the payload. */
  lemma PublishRoundTrip(m: Publish, suffix: seq<byte>, rest: seq<byte>)
    requires m.dup <= 1 && m.qos <= 3 && m.retained <= 1
    requires |m.topic| < 0x1_0000 && RemainingLength(m) < LENGTH_LIMIT
    ensures var buf := PublishBytes(m) + suffix;
            ParsePublish(buf + rest, |buf|) == Parsed(Readable(m).(payload := m.payload + suffix)) <==> |m.topic| < 256
  {
    var buf := PublishBytes(m) + suffix;
    assert buf != [];
    hide ParsePublish, PublishBytes;
    RestIgnored(buf, rest);
    PublishRoundTripExact(m, suffix);
  }

  // ---- acknowledgements ----

  function AckHeader(msgType: byte, m: Publish): byte {
    Or(Or(Or(Shl(msgType, 4), if msgType == PUBREL then 2 else 0), Shl(m.dup, 3)), m.retained)
  }

  function AckBytes(msgType: byte, m: Publish): seq<byte> {
    [AckHeader(msgType, m)] + VarInt(2) + U16(m.packetId)
  }

  method MQTTSeserialize_ack(buf: seq<byte>, msgType: byte, m: Publish) returns (index: nat, buf': seq<byte>)
    requires msgType <= 15
    ensures buf' == buf + AckBytes(msgType, m) && index == |AckBytes(msgType, m)| == 4
  {
    VarIntSize(2);
    var header := Shl(msgType, 4);
    if msgType == PUBREL {
      header := Or(header, 2);
    } else {
      header := Or(header, 0);
    }
    header := Or(header, Shl(m.dup, 3));
    header := Or(header, m.retained);
    buf', index := buf + [header], 1;
    var panicked, tmp, leftLen := mqttPacket_encode(2);
    for i := 0 to tmp
      invariant buf' == buf + [header] + leftLen[..i]
    {
      buf' := buf' + [leftLen[i]];
      assert leftLen[..i + 1] == leftLen[..i] + [leftLen[i]];
    }
    index := index + tmp;
    buf', index := buf' + [ToByte(m.packetId / 256)] + [ToByte(m.packetId % 256)], index + 2;
    assert buf' == buf + ([header] + VarInt(2) + U16(m.packetId));
  }

  // The identifier and the cursor after it.
  function ParseAck(buf: seq<byte>, len: nat, msgType: byte): Parsed<(uint16, nat)>
    requires len <= |buf|
  {
    if buf == [] then Panic
    else if TypeOf(buf[0]) != msgType then Rejected
    else if len < 1 then Panic
    else
      match ReadVar(buf[1..len], 4)
      case Short => Panic
      case Over(_) => AckId(buf, 1)
      case Val(_, l) => AckId(buf, 1 + l)
  }

  function AckId(buf: seq<byte>, index: nat): Parsed<(uint16, nat)> {
    match TwoBytes(buf, index)
    case None => Panic
    case Some(id) => Parsed((id, index + 2))
  }

  method MQTTDeserialize_ack(buf: seq<byte>, len: nat, msgType: byte) returns (r: Parsed<(uint16, nat)>)
    requires len <= |buf|
    ensures r == ParseAck(buf, len, msgType)
    ensures r.Rejected? <==> buf != [] && buf[0] / 16 != msgType
  {
    if |buf| == 0 {
      return Panic;
    }
    var index := 0;
    var header := buf[index];
    index := index + 1;
    if TypeOf(header) != msgType {
      return Rejected;
    }
    if index > len {
      return Panic;
    }
    var panicked, used, remainLen := mqttPacket_decode(buf[index..len]);
    if panicked {
      return Panic;
    }
    index := index + used;
    if index + 1 >= |buf| {
      return Panic;
    }
    r := Parsed((ReadU16(buf[index], buf[index + 1]), index + 2));
  }

  lemma AckHeaderType(msgType: byte, m: Publish)
    requires msgType == PUBACK || msgType == PUBREC || msgType == PUBREL || msgType == PUBCOMP
    requires m.dup <= 1 && m.retained <= 1
    ensures TypeOf(AckHeader(msgType, m)) == msgType
    ensures AckHeader(msgType, m) % 16 == (if msgType == PUBREL then 2 else 0) <==> m.dup == 0 && m.retained == 0
  {
    assert Shl(msgType, 4) == 16 * msgType;
    FlagSum(16 * msgType, if msgType == PUBREL then 2 else 0, m.dup, m.retained);
  }

  lemma AckHeaderIs(msgType: byte, m: Publish)
    requires 4 <= msgType <= 7 && m.dup == 0 && m.retained == 0
    ensures AckHeader(msgType, m) == 16 * msgType + if msgType == PUBREL then 2 else 0
  {
    assert Shl(msgType, 4) == 16 * msgType;
    hide Or, OrBits, Disjoint;
    FlagSum(16 * msgType, if msgType == PUBREL then 2 else 0, 0, 0);
  }

  lemma AckOnTheWire(msgType: byte, m: Publish)
    requires 4 <= msgType <= 7 && m.dup == 0 && m.retained == 0
    ensures AckBytes(msgType, m)
            == [16 * msgType + if msgType == PUBREL then 2 else 0, 2, m.packetId / 256, m.packetId % 256]
  {
    assert VarInt(2) == [2] && U16(m.packetId) == [m.packetId / 256, m.packetId % 256];
    hide VarInt, U16, AckHeader;
    AckHeaderIs(msgType, m);
  }

  /** The four acknowledgements on the wire (sections 3.4 to 3.7), if DUP and RETAIN are 0. */
  lemma AcksOnTheWire(m: Publish)
    requires m.dup == 0 && m.retained == 0
    ensures AckBytes(PUBACK, m) == [64, 2, m.packetId / 256, m.packetId % 256]
    ensures AckBytes(PUBREC, m) == [80, 2, m.packetId / 256, m.packetId % 256]
    ensures AckBytes(PUBREL, m) == [98, 2, m.packetId / 256, m.packetId % 256]
    ensures AckBytes(PUBCOMP, m) == [112, 2, m.packetId / 256, m.packetId % 256]
  {
    hide AckBytes;
    AckOnTheWire(PUBACK, m);
    AckOnTheWire(PUBREC, m);
    AckOnTheWire(PUBREL, m);
    AckOnTheWire(PUBCOMP, m);
  }

  /** An acknowledgement read back by its own parser, from any read buffer it lies at the start of, gives the
      identifier, whatever flags the publish had; its reserved flag bits are those of section 2.2.2 if and
      only if DUP and RETAIN were 0. */
  lemma AckRoundTrip(msgType: byte, m: Publish, suffix: seq<byte>, rest: seq<byte>)
    requires msgType == PUBACK || msgType == PUBREC || msgType == PUBREL || msgType == PUBCOMP
    requires m.dup <= 1 && m.retained <= 1
    ensures var buf := AckBytes(msgType, m) + suffix;
            && ParseAck(buf + rest, |buf|, msgType) == Parsed((m.packetId, 4))
            && (buf[0] % 16 == (if msgType == PUBREL then 2 else 0) <==> m.dup == 0 && m.retained == 0)
  {
    hide AckHeader, VarInt, ReadVar, ToByte, ReadU16;
    var buf := AckBytes(msgType, m) + suffix;
    AckHeaderType(msgType, m);
    VarIntSize(2);
    VarIntRoundTrip(2, 4, U16(m.packetId) + suffix);
    Inside(buf, rest, 1);
    assert buf[1..] == VarInt(2) + (U16(m.packetId) + suffix);
    assert |VarInt(2)| == 1;
    U16RoundTrip(m.packetId);
    assert (buf + rest)[2] == buf[2] == U16(m.packetId)[0] && (buf + rest)[3] == buf[3] == U16(m.packetId)[1];
  }
}
