// CONNECT: the flag-driven cursor of the parser against the layout of section 3.1 of MQTT 3.1.1.
module ConnectCodec {
  import opened MqttTypes
  import opened PacketCodec
  import opened PublishCodec

  datatype WillOptions = WillOptions(topic: GoString, message: GoString, retained: byte, qos: byte)

  datatype ConnectData = ConnectData(
    version: byte, clientId: GoString, keepAlive: uint16, cleansession: byte,
    wills: WillOptions, username: GoString, password: GoString)

  const NO_WILL := WillOptions([], [], 0, 0)

  // ---- parser ----

  // A string at the cursor, and the cursor after it.
  function StringAt(data: seq<byte>, len: nat, index: nat): (r: Option<(GoString, nat)>)
    requires len <= |data|
    ensures r.Some? ==> index + 2 <= r.value.1 <= len
  {
    if index > len then None
    else match ReadString(data[index..len])
      case None => None
      case Some(s) => Some((s.0, index + s.1))
  }

  // The protocol name is skipped; the byte after it is the version.
  function ReadProtocol(data: seq<byte>): Option<(byte, nat)> {
    match ReadString(data)
    case None => None
    case Some(s) => if s.1 >= |data| then None else Some((data[s.1], s.1 + 1))
  }

  method mqttPacket_readProtocol(data: seq<byte>) returns (panicked: bool, used: nat, version: byte)
    ensures match ReadProtocol(data)
            case None => panicked
            case Some(r) => !panicked && version == r.0 && used == r.1
  {
    version, used := 0, 0;
    var name, len;
    panicked, len, name := mqttPacket_readString(data);
    if panicked || len >= |data| {
      return true, 0, 0;
    }
    version, used := data[len], len + 1;
  }

  // Connect flags, bit by bit.
  predicate CleanFlag(f: byte) { f / 2 % 2 == 1 }
  predicate WillFlag(f: byte) { f / 4 % 2 == 1 }
  function WillQos(f: byte): byte { f / 8 % 4 }
  function WillRetain(f: byte): byte { f / 32 % 2 }
  predicate UsernameFlag(f: byte) { f / 128 == 1 }

  function ParseWill(data: seq<byte>, len: nat, flags: byte, index: nat): (r: Option<(WillOptions, nat)>)
    requires len <= |data|
    ensures r.Some? && index <= len ==> r.value.1 <= len
  {
    if !WillFlag(flags) then Some((NO_WILL, index))
    else match StringAt(data, len, index)
      case None => None
      case Some(t) =>
        match StringAt(data, len, t.1)
        case None => None
        case Some(m) => Some((WillOptions(t.0, m.0, WillRetain(flags), WillQos(flags)), m.1))
  }

  // The password is read whenever the username flag is set; the password flag is never looked at.
  function ParseCredentials(data: seq<byte>, len: nat, flags: byte, index: nat): Option<(GoString, GoString, nat)>
    requires len <= |data|
  {
    if !UsernameFlag(flags) then Some(([], [], index))
    else match StringAt(data, len, index)
      case None => None
      case Some(u) =>
        match StringAt(data, len, u.1)
        case None => None
        case Some(p) => Some((u.0, p.0, p.1))
  }

  // From the connect flags on; the result carries the cursor at the end.
  function ParsePayload(data: seq<byte>, len: nat, version: byte, index: nat): Parsed<(ConnectData, nat)>
    requires len <= |data|
  {
    if index + 2 >= |data| then Panic
    else
      var flags, keepAlive := data[index], ReadU16(data[index + 1], data[index + 2]);
      match StringAt(data, len, index + 3)
      case None => Panic
      case Some(id) =>
        match ParseWill(data, len, flags, id.1)
        case None => Panic
        case Some(w) =>
          match ParseCredentials(data, len, flags, w.1)
          case None => Panic
          case Some(c) =>
            Parsed((ConnectData(version, id.0, keepAlive, if CleanFlag(flags) then 1 else 0, w.0, c.0, c.1), c.2))
  }

  function ParseConnect(data: seq<byte>, len: nat): Parsed<(ConnectData, nat)>
    requires len <= |data|
  {
    if data == [] then Panic
    else if TypeOf(data[0]) != CONNECT then Rejected
    else if len < 1 || ReadVar(data[1..len], 4).Short? then Panic
    else
      var index := 1 + match ReadVar(data[1..len], 4) case Val(_, l) => l case Over(_) => 0;
      if index > len then Panic
      else match ReadProtocol(data[index..len])
        case None => Panic
        case Some(v) => ParsePayload(data, len, v.0, index + v.1)
  }

  method ReadStringAt(data: seq<byte>, len: nat, index: nat) returns (panicked: bool, str: GoString, index': nat)
    requires len <= |data|
    ensures match StringAt(data, len, index)
            case None => panicked
            case Some(r) => !panicked && str == r.0 && index' == r.1
  {
    str, index' := [], index;
    if index > len {
      return true, [], index;
    }
    var used;
    panicked, used, str := mqttPacket_readString(data[index..len]);
    index' := index + used;
  }

  method MQTTDeserialize_connect(data: seq<byte>, len: nat) returns (r: Parsed<(ConnectData, nat)>)
    requires len <= |data|
    ensures r == ParseConnect(data, len)
    ensures r.Rejected? <==> data != [] && data[0] / 16 != 1
  {
    hide ReadVar, ReadProtocol, ParsePayload;
    if |data| == 0 {
      return Panic;
    }
    var index: nat := 1;
    if TypeOf(data[0]) != CONNECT {
      return Rejected;
    }
    if index > len {
      return Panic;
    }
    var panicked, used, value := mqttPacket_decode(data[index..len]);
    if panicked {
      return Panic;
    }
    VarReadWithin(data[index..len], 4);
    index := index + used;
    var version: byte;
    panicked, used, version := mqttPacket_readProtocol(data[index..len]);
    if panicked {
      return Panic;
    }
    index := index + used;
    var connData: ConnectData;
    panicked, connData, index := ReadPayload(data, len, version, index);
    if panicked {
      return Panic;
    }
    r := Parsed((connData, index));
  }

  // The part of the parser that the connect flags drive.
  method ReadPayload(data: seq<byte>, len: nat, version: byte, start: nat)
    returns (panicked: bool, connData: ConnectData, index: nat)
    requires len <= |data|
    ensures ParsePayload(data, len, version, start) == if panicked then Panic else Parsed((connData, index))
  {
    index := start;
    connData := ConnectData(version, [], 0, 0, NO_WILL, [], []);
    if index >= |data| {
      return true, connData, index;
    }
    var connectFlag := data[index];
    index := index + 1;
    connData := connData.(cleansession := if CleanFlag(connectFlag) then 1 else 0);
    if index + 1 >= |data| {
      return true, connData, index;
    }
    connData := connData.(keepAlive := ReadU16(data[index], data[index + 1]));
    index := index + 2;
    var s;
    panicked, s, index := ReadStringAt(data, len, index);
    if panicked {
      return;
    }
    connData := connData.(clientId := s);
    if WillFlag(connectFlag) {
      var topic, message;
      panicked, topic, index := ReadStringAt(data, len, index);
      if panicked {
        return;
      }
      panicked, message, index := ReadStringAt(data, len, index);
      if panicked {
        return;
      }
      connData := connData.(wills := WillOptions(topic, message, WillRetain(connectFlag), WillQos(connectFlag)));
    }
    if UsernameFlag(connectFlag) {
      panicked, s, index := ReadStringAt(data, len, index);
      if panicked {
        return;
      }
      connData := connData.(username := s);
      panicked, s, index := ReadStringAt(data, len, index);
      if panicked {
        return;
      }
      connData := connData.(password := s);
    }
  }

  // ---- the packet of the standard ----

  datatype ConnectPacket = ConnectPacket(
    protocol: GoString, version: byte, clean: bool, keepAlive: uint16, clientId: GoString,
    will: Option<WillOptions>, username: Option<GoString>, password: Option<GoString>)

  function Bit(b: bool): byte {
    if b then 1 else 0
  }

  function Flags(p: ConnectPacket): byte
    requires p.will.Some? ==> p.will.value.qos <= 3 && p.will.value.retained <= 1
  {
    var w := if p.will.Some? then 4 + 8 * p.will.value.qos + 32 * p.will.value.retained else 0;
    2 * Bit(p.clean) + w + 64 * Bit(p.password.Some?) + 128 * Bit(p.username.Some?)
  }

  function OptionBytes(s: Option<GoString>): seq<byte> {
    if s.Some? then StringBytes(s.value) else []
  }

  function WillBytes(w: Option<WillOptions>): seq<byte> {
    if w.Some? then StringBytes(w.value.topic) + StringBytes(w.value.message) else []
  }

  predicate Short(s: GoString) {
    |s| < 256
  }

  predicate WellFormed(p: ConnectPacket) {
    && Short(p.protocol) && Short(p.clientId)
    && (p.will.Some? ==> p.will.value.qos <= 3 && p.will.value.retained <= 1
                         && Short(p.will.value.topic) && Short(p.will.value.message))
    && (p.username.Some? ==> Short(p.username.value)) && (p.password.Some? ==> Short(p.password.value))
  }

  // Client id, will, username and password, in this order.
  function PayloadBytes(p: ConnectPacket): seq<byte> {
    StringBytes(p.clientId) + (WillBytes(p.will) + (OptionBytes(p.username) + OptionBytes(p.password)))
  }

  function ConnectBody(p: ConnectPacket): seq<byte>
    requires WellFormed(p)
  {
    StringBytes(p.protocol) + ([p.version] + ([Flags(p)] + (U16(p.keepAlive) + PayloadBytes(p))))
  }

  function ConnectBytes(p: ConnectPacket): seq<byte>
    requires WellFormed(p)
  {
    [16] + (VarInt(|ConnectBody(p)|) + ConnectBody(p))
  }

  function OrEmpty(s: Option<GoString>): GoString {
    if s.Some? then s.value else []
  }

  function Expected(p: ConnectPacket): ConnectData {
    ConnectData(p.version, p.clientId, p.keepAlive, Bit(p.clean),
                if p.will.Some? then p.will.value else NO_WILL, OrEmpty(p.username), OrEmpty(p.password))
  }

  lemma FlagBits(p: ConnectPacket)
    requires WellFormed(p)
    ensures CleanFlag(Flags(p)) == p.clean
    ensures WillFlag(Flags(p)) == p.will.Some? && UsernameFlag(Flags(p)) == p.username.Some?
    ensures p.will.Some? ==> WillQos(Flags(p)) == p.will.value.qos && WillRetain(Flags(p)) == p.will.value.retained
  {
    var q := if p.will.Some? then p.will.value.qos else 0;
    var t := if p.will.Some? then p.will.value.retained else 0;
    FlagDigits(Bit(p.clean), Bit(p.will.Some?), q, t, Bit(p.password.Some?), Bit(p.username.Some?));
  }

  lemma FlagDigits(c: nat, w: nat, q: nat, t: nat, pw: nat, u: nat)
    requires c <= 1 && w <= 1 && q <= 3 && t <= 1 && pw <= 1 && u <= 1
    ensures var f := 2 * c + 4 * w + 8 * q + 32 * t + 64 * pw + 128 * u;
            f < 256 && f / 2 % 2 == c && f / 4 % 2 == w && f / 8 % 4 == q && f / 32 % 2 == t && f / 128 == u
  {
    var f := 2 * c + 4 * w + 8 * q + 32 * t + 64 * pw + 128 * u;
    assert f / 2 == c + 2 * (w + 2 * q + 8 * t + 16 * pw + 32 * u);
    assert f / 4 == w + 2 * (q + 4 * t + 8 * pw + 16 * u);
    assert f / 8 == q + 4 * (t + 2 * pw + 4 * u);
    assert f / 32 == t + 2 * (pw + 2 * u);
  }

  lemma StringAtRead(data: seq<byte>, len: nat, index: nat, s: GoString, rest: seq<byte>)
    requires index <= len <= |data| && data[index..len] == StringBytes(s) + rest && Short(s)
    ensures var at := index + |s| + 2;
            at <= len && StringAt(data, len, index) == Some((s, at)) && data[at..len] == rest
  {
    hide ReadString, ToByte;
    StringRoundTrip(s, rest);
    Cut(StringBytes(s), rest);
    assert data[index + |s| + 2..len] == data[index..len][|s| + 2..];
  }

  lemma WillRead(data: seq<byte>, len: nat, index: nat, p: ConnectPacket, rest: seq<byte>)
    requires WellFormed(p) && index <= len <= |data| && data[index..len] == WillBytes(p.will) + rest
    ensures var at := index + |WillBytes(p.will)|;
            && at <= len && data[at..len] == rest
            && ParseWill(data, len, Flags(p), index) == Some((Expected(p).wills, at))
  {
    hide StringAt, StringBytes, Flags;
    FlagBits(p);
    if p.will.Some? {
      var w := p.will.value;
      StringLen(w.topic);
      StringLen(w.message);
      assert data[index..len] == StringBytes(w.topic) + (StringBytes(w.message) + rest);
      StringAtRead(data, len, index, w.topic, StringBytes(w.message) + rest);
      StringAtRead(data, len, index + |w.topic| + 2, w.message, rest);
    }
  }

  lemma StringLen(s: GoString)
    ensures |StringBytes(s)| == |s| + 2
  {
  }

  // What is left of the packet at the credentials is read whole if and only if both or none are there.
  lemma CredentialsRead(data: seq<byte>, len: nat, index: nat, p: ConnectPacket)
    requires WellFormed(p) && index <= len <= |data|
    requires data[index..len] == OptionBytes(p.username) + OptionBytes(p.password)
    ensures ParseCredentials(data, len, Flags(p), index) == Some((OrEmpty(p.username), OrEmpty(p.password), len))
            <==> p.username.Some? == p.password.Some?
    ensures ParseCredentials(data, len, Flags(p), index) == None <==> p.username.Some? && p.password.None?
  {
    hide StringAt, StringBytes, Flags;
    FlagBits(p);
    if p.username.Some? {
      StringLen(p.username.value);
      StringAtRead(data, len, index, p.username.value, OptionBytes(p.password));
      var at := index + |p.username.value| + 2;
      if p.password.Some? {
        StringLen(p.password.value);
        assert data[at..len] == StringBytes(p.password.value) + [];
        StringAtRead(data, len, at, p.password.value, []);
        assert at + |p.password.value| + 2 == len;
      } else {
        NothingThere(data, len, at);
      }
    } else if p.password.Some? {
      StringLen(p.password.value);
      assert index < len;
    }
  }

  lemma NothingThere(data: seq<byte>, len: nat, at: nat)
    requires at <= len <= |data| && data[at..len] == []
    ensures StringAt(data, len, at) == None
  {
  }

  lemma PayloadRead(data: seq<byte>, len: nat, index: nat, p: ConnectPacket)
    requires WellFormed(p) && index <= len <= |data|
    requires data[index..len] == [Flags(p)] + (U16(p.keepAlive) + PayloadBytes(p))
    ensures ParsePayload(data, len, p.version, index) == Parsed((Expected(p), len))
            <==> p.username.Some? == p.password.Some?
    ensures ParsePayload(data, len, p.version, index) == Panic <==> p.username.Some? && p.password.None?
  {
    hide StringAt, StringBytes, Flags, ParseWill, ParseCredentials, WillBytes, OptionBytes, ToByte, ReadU16;
    FlagBits(p);
    U16RoundTrip(p.keepAlive);
    var tail := WillBytes(p.will) + (OptionBytes(p.username) + OptionBytes(p.password));
    var d := data[index..len];
    assert data[index] == d[0] && data[index + 1] == d[1] && data[index + 2] == d[2];
    assert data[index + 3..len] == d[3..] == StringBytes(p.clientId) + tail;
    StringAtRead(data, len, index + 3, p.clientId, tail);
    var i := index + 5 + |p.clientId|;
    WillRead(data, len, i, p, OptionBytes(p.username) + OptionBytes(p.password));
    CredentialsRead(data, len, i + |WillBytes(p.will)|, p);
  }

  // Up to the protocol name.
  lemma ConnectCursor(p: ConnectPacket, rest: seq<byte>)
    requires WellFormed(p) && |ConnectBody(p)| < LENGTH_LIMIT
    ensures var data, len, index := ConnectBytes(p) + rest, |ConnectBytes(p)|, 1 + |VarInt(|ConnectBody(p)|)|;
            && index <= len && data[index..len] == ConnectBody(p)
            && ParseConnect(data, len) == match ReadProtocol(ConnectBody(p))
                                          case None => Panic
                                          case Some(v) => ParsePayload(data, len, v.0, index + v.1)
  {
    hide VarInt, ReadVar, ReadProtocol, ParsePayload, ConnectBody;
    var packet, body := ConnectBytes(p), ConnectBody(p);
    var v := VarInt(|body|);
    VarIntSize(|body|);
    VarIntRoundTrip(|body|, 4, body);
    assert packet[1..] == v + body;
    assert packet == ([16] + v) + body;
    Cut([16] + v, body);
    Inside(packet, rest, 1);
    Inside(packet, rest, 1 + |v|);
    assert (packet + rest)[0] == packet[0];
  }

  lemma ProtocolRead(p: ConnectPacket)
    requires WellFormed(p)
    ensures ReadProtocol(ConnectBody(p)) == Some((p.version, |p.protocol| + 3))
    ensures |ConnectBody(p)| >= |p.protocol| + 3
    ensures ConnectBody(p)[|p.protocol| + 3..] == [Flags(p)] + (U16(p.keepAlive) + PayloadBytes(p))
  {
    hide ReadString, Flags, PayloadBytes, StringBytes, ToByte;
    var rest := [Flags(p)] + (U16(p.keepAlive) + PayloadBytes(p));
    var body, at := ConnectBody(p), |p.protocol| + 2;
    StringRoundTrip(p.protocol, [p.version] + rest);
    StringLen(p.protocol);
    Cut(StringBytes(p.protocol), [p.version] + rest);
    assert body[at] == body[at..][0] == p.version;
    assert body[at + 1..] == body[at..][1..] == rest;
  }

  /** CONNECT: on every packet laid out by the standard with strings shorter than 256 bytes, for all
      combinations of will and credentials and any read buffer it lies at the start of, the parser stores
      every field and its cursor ends at the packet's end if and only if username and password are both
      present or both absent. With a username alone it reads past the end. */
  lemma ConnectRoundTrip(p: ConnectPacket, rest: seq<byte>)
    requires WellFormed(p) && |ConnectBody(p)| < LENGTH_LIMIT
    ensures var data, len := ConnectBytes(p) + rest, |ConnectBytes(p)|;
            && (ParseConnect(data, len) == Parsed((Expected(p), len)) <==> p.username.Some? == p.password.Some?)
            && (ParseConnect(data, len) == Panic <==> p.username.Some? && p.password.None?)
  {
    hide VarInt, ReadProtocol, ParsePayload, ParseConnect, ConnectBody, ConnectBytes, Flags, PayloadBytes;
    var data, len, index := ConnectBytes(p) + rest, |ConnectBytes(p)|, 1 + |VarInt(|ConnectBody(p)|)|;
    ConnectCursor(p, rest);
    ProtocolRead(p);
    var at := index + |p.protocol| + 3;
    assert data[at..len] == data[index..len][|p.protocol| + 3..];
    PayloadRead(data, len, at, p);
  }
}
