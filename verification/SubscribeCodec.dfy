// SUBSCRIBE and UNSUBSCRIBE: the cursor loops over the filter lists, SUBACK, and what applying the
// lists does to a session's subscriptions.
module SubscribeCodec {
  import opened MqttTypes
  import opened PacketCodec
  import opened PublishCodec
  import opened Dispatcher

  datatype SubscribeData = SubscribeData(dup: byte, packetId: uint16, filters: seq<Filter>)

  datatype UnsubscribeData = UnsubscribeData(packetId: uint16, topics: seq<GoString>)

  // ---- list parsers ----

  // One entry of the payload at the cursor: the filter, and the cursor after it.
  function FilterAt(buf: seq<byte>, len: nat, index: nat): (r: Option<(Filter, nat)>)
    requires index <= len <= |buf|
    ensures r.Some? ==> index < r.value.1 <= |buf|
  {
    match ReadString(buf[index..len])
    case None => None
    case Some(r) =>
      var at := index + r.1;
      if at >= |buf| then None else Some((Filter(r.0, buf[at] % 4), at + 1))
  }

  // The loop from the cursor on; None is an index out of range.
  function FiltersFrom(buf: seq<byte>, len: nat, index: nat): Option<seq<Filter>>
    requires len <= |buf|
    decreases |buf| + 1 - index
  {
    if index >= len then Some([])
    else match FilterAt(buf, len, index)
      case None => None
      case Some(e) => Prepend([e.0], FiltersFrom(buf, len, e.1))
  }

  function Prepend<T>(done: seq<T>, rest: Option<seq<T>>): Option<seq<T>> {
    match rest
    case None => None
    case Some(s) => Some(done + s)
  }

  lemma PrependTwice<T>(done: seq<T>, x: T, rest: Option<seq<T>>)
    ensures Prepend(done, Prepend([x], rest)) == Prepend(done + [x], rest)
    ensures Prepend([], rest) == rest
  {
    if rest.Some? {
      assert done + [x] + rest.value == done + ([x] + rest.value);
      assert [] + rest.value == rest.value;
    }
  }

  function TopicsFrom(buf: seq<byte>, len: nat, index: nat): Option<seq<GoString>>
    requires len <= |buf|
    decreases |buf| + 1 - index
  {
    if index >= len then Some([])
    else match ReadString(buf[index..len])
      case None => None
      case Some(r) => Prepend([r.0], TopicsFrom(buf, len, index + r.1))
  }

  // What both parsers do up to the list: type, remaining length, packet identifier.
  function ListStart(buf: seq<byte>, len: nat): Option<(uint16, nat)>
    requires len <= |buf|
  {
    if len < 1 then None
    else
      match ReadVar(buf[1..len], 4)
      case Short => None
      case Over(_) => IdAt(buf, 1)
      case Val(_, l) => IdAt(buf, 1 + l)
  }

  function IdAt(buf: seq<byte>, index: nat): Option<(uint16, nat)> {
    match TwoBytes(buf, index)
    case None => None
    case Some(id) => Some((id, index + 2))
  }

  function ParseSubscribe(buf: seq<byte>, len: nat): Parsed<SubscribeData>
    requires len <= |buf|
  {
    if buf == [] then Panic
    else if TypeOf(buf[0]) != SUBSCRIBE then Rejected
    else match ListStart(buf, len)
      case None => Panic
      case Some(start) =>
        match FiltersFrom(buf, len, start.1)
        case None => Panic
        case Some(filters) => Parsed(SubscribeData(DupBit(buf[0]), start.0, filters))
  }

  function ParseUnsubscribe(buf: seq<byte>, len: nat): Parsed<UnsubscribeData>
    requires len <= |buf|
  {
    if buf == [] then Panic
    else if TypeOf(buf[0]) != UNSUBSCRIBE || buf[0] % 16 != 2 then Rejected
    else match ListStart(buf, len)
      case None => Panic
      case Some(start) =>
        match TopicsFrom(buf, len, start.1)
        case None => Panic
        case Some(topics) => Parsed(UnsubscribeData(start.0, topics))
  }

  // The head of both methods.
  method ReadListStart(buf: seq<byte>, len: nat) returns (panicked: bool, packetId: uint16, index: nat)
    requires 1 <= |buf| && len <= |buf|
    ensures match ListStart(buf, len)
            case None => panicked
            case Some(start) => !panicked && packetId == start.0 && index == start.1
  {
    packetId, index := 0, 1;
    if index > len {
      return true, 0, index;
    }
    var used, remainLen;
    panicked, used, remainLen := mqttPacket_decode(buf[index..len]);
    if panicked {
      return;
    }
    index := index + used;
    if index + 1 >= |buf| {
      return true, 0, index;
    }
    packetId := ReadU16(buf[index], buf[index + 1]);
    index := index + 2;
  }

  method MQTTDeserialize_subscribe(buf: seq<byte>, len: nat) returns (topicNum: nat, r: Parsed<SubscribeData>)
    requires len <= |buf|
    ensures r == ParseSubscribe(buf, len)
    ensures r.Rejected? <==> buf != [] && buf[0] / 16 != 8
    ensures r.Parsed? ==> topicNum == |r.value.filters| && r.value.dup == buf[0] / 8 % 2
  {
    topicNum := 0;
    if |buf| == 0 {
      return 0, Panic;
    }
    if TypeOf(buf[0]) != SUBSCRIBE {
      return 0, Rejected;
    }
    var panicked, packetId, index := ReadListStart(buf, len);
    if panicked {
      return 0, Panic;
    }
    ghost var start := index;
    var filters: seq<Filter> := [];
    PrependTwice([], Filter([], 0), FiltersFrom(buf, len, start));
    while index < len
      invariant topicNum == |filters|
      invariant FiltersFrom(buf, len, start) == Prepend(filters, FiltersFrom(buf, len, index))
      decreases len - index
    {
      var used, topic;
      panicked, used, topic := mqttPacket_readString(buf[index..len]);
      if panicked {
        return 0, Panic;
      }
      if index + used >= |buf| {
        return 0, Panic;
      }
      var filter := Filter(topic, buf[index + used] % 4);
      PrependTwice(filters, filter, FiltersFrom(buf, len, index + used + 1));
      index := index + used + 1;
      filters := filters + [filter];
      topicNum := topicNum + 1;
    }
    assert filters + [] == filters;
    r := Parsed(SubscribeData(DupBit(buf[0]), packetId, filters));
  }

  method MQTTDeserialize_unsubscribe(buf: seq<byte>, len: nat) returns (topicNum: nat, r: Parsed<UnsubscribeData>)
    requires len <= |buf|
    ensures r == ParseUnsubscribe(buf, len)
    ensures r.Rejected? <==> buf != [] && buf[0] != 162
    ensures r.Parsed? ==> topicNum == |r.value.topics|
  {
    topicNum := 0;
    if |buf| == 0 {
      return 0, Panic;
    }
    if TypeOf(buf[0]) != UNSUBSCRIBE || buf[0] % 16 != 2 {
      return 0, Rejected;
    }
    var panicked, packetId, index := ReadListStart(buf, len);
    if panicked {
      return 0, Panic;
    }
    ghost var start := index;
    var topics: seq<GoString> := [];
    PrependTwice([], [], TopicsFrom(buf, len, start));
    while index < len
      invariant topicNum == |topics|
      invariant TopicsFrom(buf, len, start) == Prepend(topics, TopicsFrom(buf, len, index))
      decreases len - index
    {
      var used, topic;
      panicked, used, topic := mqttPacket_readString(buf[index..len]);
      if panicked {
        return 0, Panic;
      }
      PrependTwice(topics, topic, TopicsFrom(buf, len, index + used));
      index := index + used;
      topics := topics + [topic];
      topicNum := topicNum + 1;
    }
    assert topics + [] == topics;
    r := Parsed(UnsubscribeData(packetId, topics));
  }

  // ---- the lists on the wire ----

  function FilterBytes(filters: seq<Filter>): seq<byte> {
    if filters == [] then [] else StringBytes(filters[0].topic) + [filters[0].qos] + FilterBytes(filters[1..])
  }

  function TopicBytes(topics: seq<GoString>): seq<byte> {
    if topics == [] then [] else StringBytes(topics[0]) + TopicBytes(topics[1..])
  }

  predicate ShortFilters(filters: seq<Filter>) {
    forall i :: 0 <= i < |filters| ==> |filters[i].topic| < 256
  }

  predicate ShortTopics(topics: seq<GoString>) {
    forall i :: 0 <= i < |topics| ==> |topics[i]| < 256
  }

  // Sections 3.8 and 3.10 of MQTT 3.1.1.
  function SubscribeBytes(packetId: uint16, filters: seq<Filter>): seq<byte> {
    [130] + VarInt(2 + |FilterBytes(filters)|) + (U16(packetId) + FilterBytes(filters))
  }

  function UnsubscribeBytes(packetId: uint16, topics: seq<GoString>): seq<byte> {
    [162] + VarInt(2 + |TopicBytes(topics)|) + (U16(packetId) + TopicBytes(topics))
  }

  // No parsed topic is longer than 255 bytes.
  lemma {:induction false} ParsedFiltersShort(buf: seq<byte>, len: nat, index: nat)
    requires len <= |buf|
    ensures FiltersFrom(buf, len, index).Some? ==> ShortFilters(FiltersFrom(buf, len, index).value)
    decreases |buf| + 1 - index
  {
    if index < len && FilterAt(buf, len, index).Some? {
      var e := FilterAt(buf, len, index).value;
      HighByteLost(buf[index..len][0], buf[index..len][1]);
      ParsedFiltersShort(buf, len, e.1);
    }
  }

  lemma {:induction false} ParsedTopicsShort(buf: seq<byte>, len: nat, index: nat)
    requires len <= |buf|
    ensures TopicsFrom(buf, len, index).Some? ==> ShortTopics(TopicsFrom(buf, len, index).value)
    decreases |buf| + 1 - index
  {
    if index < len && ReadString(buf[index..len]).Some? {
      HighByteLost(buf[index..len][0], buf[index..len][1]);
      ParsedTopicsShort(buf, len, index + ReadString(buf[index..len]).value.1);
    }
  }

  lemma FilterRead(buf: seq<byte>, len: nat, index: nat, f: Filter, rest: seq<byte>)
    requires index <= len <= |buf| && buf[index..len] == StringBytes(f.topic) + ([f.qos] + rest)
    requires |f.topic| < 256 && f.qos < 4
    ensures var at := index + |f.topic| + 2;
            at < len && FilterAt(buf, len, index) == Some((f, at + 1)) && buf[at + 1..len] == rest
  {
    hide StringBytes, ReadString;
    var tail := [f.qos] + rest;
    StringRoundTrip(f.topic, tail);
    StringSize(f.topic);
    var at := index + |f.topic| + 2;
    Cut(StringBytes(f.topic), tail);
    assert buf[at..len] == buf[index..len][|f.topic| + 2..] == tail;
    assert buf[at] == buf[at..len][0] == f.qos;
    assert buf[at + 1..len] == buf[at..len][1..] == rest;
  }

  lemma {:induction false} FiltersRead(buf: seq<byte>, len: nat, index: nat, filters: seq<Filter>)
    requires index <= len <= |buf| && buf[index..len] == FilterBytes(filters)
    requires ShortFilters(filters) && forall i :: 0 <= i < |filters| ==> filters[i].qos < 4
    ensures FiltersFrom(buf, len, index) == Some(filters)
    decreases |filters|
  {
    hide StringBytes, FilterAt;
    if filters != [] {
      var f, rest := filters[0], FilterBytes(filters[1..]);
      assert StringBytes(f.topic) + [f.qos] + rest == StringBytes(f.topic) + ([f.qos] + rest);
      FilterRead(buf, len, index, f, rest);
      FiltersRead(buf, len, index + |f.topic| + 3, filters[1..]);
      assert [f] + filters[1..] == filters;
    }
  }

  lemma StringSize(s: GoString)
    ensures |StringBytes(s)| == |s| + 2
  {
  }

  lemma {:induction false} TopicsRead(buf: seq<byte>, len: nat, index: nat, topics: seq<GoString>)
    requires index <= len <= |buf| && buf[index..len] == TopicBytes(topics) && ShortTopics(topics)
    ensures TopicsFrom(buf, len, index) == Some(topics)
    decreases |topics|
  {
    hide StringBytes, ReadString;
    if topics != [] {
      var tail := TopicBytes(topics[1..]);
      assert buf[index..len] == StringBytes(topics[0]) + tail;
      StringRoundTrip(topics[0], tail);
      StringSize(topics[0]);
      var at := index + |topics[0]| + 2;
      assert buf[at..len] == buf[index..len][|topics[0]| + 2..] == tail;
      TopicsRead(buf, len, at, topics[1..]);
      assert [topics[0]] + topics[1..] == topics;
    }
  }

  // Where the list starts in a packet laid out by the standard, at the start of any read buffer.
  lemma StartOfList(header: byte, packetId: uint16, list: seq<byte>, rest: seq<byte>)
    requires 2 + |list| < LENGTH_LIMIT
    ensures var v := VarInt(2 + |list|);
            var buf := [header] + v + (U16(packetId) + list);
            && ListStart(buf + rest, |buf|) == Some((packetId, 3 + |v|))
            && 3 + |v| <= |buf| && (buf + rest)[3 + |v|..|buf|] == list
  {
    hide VarInt, ReadVar, ToByte, ReadU16;
    var v := VarInt(2 + |list|);
    var buf := [header] + v + (U16(packetId) + list);
    VarIntSize(2 + |list|);
    VarIntRoundTrip(2 + |list|, 4, U16(packetId) + list);
    Inside(buf, rest, 1);
    Inside(buf, rest, 3 + |v|);
    assert buf[1..] == v + (U16(packetId) + list);
    assert buf == ([header] + v + U16(packetId)) + list;
    Cut([header] + v + U16(packetId), list);
    assert (buf + rest)[1 + |v|] == buf[1 + |v|] == U16(packetId)[0];
    assert (buf + rest)[2 + |v|] == buf[2 + |v|] == U16(packetId)[1];
    U16RoundTrip(packetId);
  }

  /** SUBSCRIBE round trip, for any read buffer the packet lies at the start of: the parser returns exactly
      the list that was sent, in order, if and only if every topic is shorter than 256 bytes. */
  lemma SubscribeRoundTrip(packetId: uint16, filters: seq<Filter>, rest: seq<byte>)
    requires 2 + |FilterBytes(filters)| < LENGTH_LIMIT
    requires forall i :: 0 <= i < |filters| ==> filters[i].qos <= 2
    ensures var buf := SubscribeBytes(packetId, filters);
            ParseSubscribe(buf + rest, |buf|) == Parsed(SubscribeData(0, packetId, filters)) <==> ShortFilters(filters)
  {
    hide VarInt, ReadVar, ReadString, FilterBytes, ListStart;
    var buf := SubscribeBytes(packetId, filters);
    StartOfList(130, packetId, FilterBytes(filters), rest);
    var start := 3 + |VarInt(2 + |FilterBytes(filters)|)|;
    assert (buf + rest)[0] == buf[0] == 130;
    ParsedFiltersShort(buf + rest, |buf|, start);
    if ShortFilters(filters) {
      FiltersRead(buf + rest, |buf|, start, filters);
    }
  }

  /** UNSUBSCRIBE round trip, likewise. */
  lemma UnsubscribeRoundTrip(packetId: uint16, topics: seq<GoString>, rest: seq<byte>)
    requires 2 + |TopicBytes(topics)| < LENGTH_LIMIT
    ensures var buf := UnsubscribeBytes(packetId, topics);
            ParseUnsubscribe(buf + rest, |buf|) == Parsed(UnsubscribeData(packetId, topics)) <==> ShortTopics(topics)
  {
    hide VarInt, ReadVar, ReadString, TopicBytes, ListStart;
    var buf := UnsubscribeBytes(packetId, topics);
    StartOfList(162, packetId, TopicBytes(topics), rest);
    var start := 3 + |VarInt(2 + |TopicBytes(topics)|)|;
    assert (buf + rest)[0] == buf[0] == 162;
    ParsedTopicsShort(buf + rest, |buf|, start);
    if ShortTopics(topics) {
      TopicsRead(buf + rest, |buf|, start, topics);
    }
  }

  // ---- SUBACK ----

  /** SUBACK: the identifier, then one return code per filter, in order (section 3.9.3). */
  method MQTTSeserialize_suback(sub: SubscribeData, buf: seq<byte>) returns (panicked: bool, index: nat, buf': seq<byte>)
    ensures panicked <==> 2 + |sub.filters| >= 0x1000_0000
    ensures !panicked ==>
              var n := |sub.filters|;
              var head := buf + [144] + VarInt(2 + n) + [sub.packetId / 256, sub.packetId % 256];
              && index == |buf'| - |buf| && |buf'| == |head| + n && buf'[..|head|] == head
              && forall i :: 0 <= i < n ==> buf'[|head| + i] == sub.filters[i].qos
  {
    hide VarInt;
    var header := Shl(SUBACK, 4);
    buf', index := buf + [header], 1;
    var tmp: nat, leftLen;
    panicked, tmp, leftLen := mqttPacket_encode(2 + |sub.filters|);
    if panicked {
      return;
    }
    for i := 0 to tmp
      invariant buf' == buf + [header] + leftLen[..i]
    {
      buf' := buf' + [leftLen[i]];
      assert leftLen[..i + 1] == leftLen[..i] + [leftLen[i]];
    }
    index := index + tmp;
    buf' := buf' + [ToByte(sub.packetId / 256)] + [ToByte(sub.packetId % 256)];
    index := index + 2;
    ghost var head := buf + [144] + VarInt(2 + |sub.filters|) + [sub.packetId / 256, sub.packetId % 256];
    assert buf' == head;
    for i := 0 to |sub.filters|
      invariant |buf'| == |head| + i && buf'[..|head|] == head && index == |buf'| - |buf|
      invariant forall j :: 0 <= j < i ==> buf'[|head| + j] == sub.filters[j].qos
    {
      buf' := buf' + [sub.filters[i].qos];
      index := index + 1;
    }
  }

  // ---- applying the lists ----

  // The last entry for a topic, counting from the end of the list.
  ghost predicate LastFor(filters: seq<Filter>, i: nat, t: GoString) {
    i < |filters| && filters[i].topic == t && forall j :: i < j < |filters| ==> filters[j].topic != t
  }

  /** Applying a SUBSCRIBE is a last-wins update: a topic's QoS is that of its last entry, topics
      without an entry keep theirs. */
  lemma {:induction false} LastEntryWins(subs: map<GoString, byte>, filters: seq<Filter>, t: GoString)
    ensures forall i: nat :: LastFor(filters, i, t) ==>
              t in LastWins(subs, filters) && LastWins(subs, filters)[t] == filters[i].qos
    ensures (forall i :: 0 <= i < |filters| ==> filters[i].topic != t) ==>
              (t in LastWins(subs, filters) <==> t in subs) && (t in subs ==> LastWins(subs, filters)[t] == subs[t])
  {
    if filters != [] {
      var n := |filters| - 1;
      LastEntryWins(subs, filters[..n], t);
      forall i: nat | LastFor(filters, i, t)
        ensures t in LastWins(subs, filters) && LastWins(subs, filters)[t] == filters[i].qos
      {
        if i < n {
          assert filters[n].topic != t;
          assert LastFor(filters[..n], i, t);
        }
      }
    }
  }

  lemma {:induction false} LastWinsKeys(subs: map<GoString, byte>, filters: seq<Filter>)
    ensures LastWins(subs, filters).Keys == subs.Keys + (set i | 0 <= i < |filters| :: filters[i].topic)
  {
    if filters == [] {
    } else {
      var n := |filters| - 1;
      LastWinsKeys(subs, filters[..n]);
      assert forall i :: 0 <= i < n ==> filters[..n][i].topic == filters[i].topic;
      assert (set i | 0 <= i < |filters| :: filters[i].topic)
             == (set i | 0 <= i < n :: filters[..n][i].topic) + {filters[n].topic};
    }
  }

  function Topics(filters: seq<Filter>): seq<GoString> {
    seq(|filters|, i requires 0 <= i < |filters| => filters[i].topic)
  }

  /** Unsubscribing from the topics just subscribed to leaves the original subscriptions, with their QoS,
      without exactly those topics, whatever order or repetition the lists have. */
  lemma UnsubscribeUndoes(subs: map<GoString, byte>, filters: seq<Filter>)
    ensures var left := Without(LastWins(subs, filters), Topics(filters));
            && (forall t :: t in left <==> t in subs && forall i :: 0 <= i < |filters| ==> filters[i].topic != t)
            && (forall t :: t in left ==> left[t] == subs[t])
  {
    var left := Without(LastWins(subs, filters), Topics(filters));
    forall t ensures t in left <==> t in subs && forall i :: 0 <= i < |filters| ==> filters[i].topic != t
             ensures t in left ==> t in subs && left[t] == subs[t]
    {
      LastEntryWins(subs, filters, t);
      if t in Topics(filters) {
        var i :| 0 <= i < |filters| && Topics(filters)[i] == t;
        assert filters[i].topic == t;
      } else {
        forall i | 0 <= i < |filters| ensures filters[i].topic != t {
          assert Topics(filters)[i] == filters[i].topic;
        }
      }
    }
  }
}
