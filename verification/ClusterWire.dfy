// Cluster datagrams: the header, the fragments of a session hand-off, and the receiver with its one
// reassembly buffer for all peers.
module ClusterWire {
  import opened MqttTypes
  import opened PacketCodec
  import opened PublishCodec

  const MAX_UDP_DATA_LEN := 1024
  const UDP_READ_LEN := 4096

  const CLUSTER_HEART_MSG := 1
  const CLUSTER_PUBLIC_MSG := 2
  const CLUSTER_LOGIN_MSG := 3
  const CLUSTER_CLIENT_INFO_MSG := 4

  // ---- building ----

  function Message(msgType: nat, body: seq<byte>): seq<byte> {
    U16(msgType) + U16(|body|) + body
  }

  function Fragment(chunk: seq<byte>, last: bool): seq<byte> {
    Message(CLUSTER_CLIENT_INFO_MSG, [if last then 1 else 0] + chunk)
  }

  // What a hand-off should send.
  function Fragments(info: seq<byte>): seq<seq<byte>> {
    if info == [] then []
    else if |info| > MAX_UDP_DATA_LEN then
      [Fragment(info[..MAX_UDP_DATA_LEN], false)] + Fragments(info[MAX_UDP_DATA_LEN..])
    else [Fragment(info, true)]
  }

  /** As written, the loop builds every fragment and returns none of them. */
  method buildClusterLoginInfoMsg(info: seq<byte>) returns (msg_silce: seq<seq<byte>>, ghost built: seq<seq<byte>>)
    ensures msg_silce == []
    ensures built == Fragments(info)
  {
    hide Fragment, Fragments, U16;
    msg_silce, built := [], [];
    var length, index := |info|, 0;
    assert info[0..] == info && [] + Fragments(info) == Fragments(info);
    while index < length
      invariant 0 <= index <= length && built + Fragments(info[index..]) == Fragments(info)
      decreases length - index
    {
      var leng, lastPkt := length - index, true;
      if length - index > MAX_UDP_DATA_LEN {
        leng, lastPkt := MAX_UDP_DATA_LEN, false;
      }
      var flag: byte := if lastPkt then 1 else 0;
      var msg := U16(CLUSTER_CLIENT_INFO_MSG) + U16(leng + 1) + [flag];
      msg := msg + info[index..index + leng];
      FragmentIs(info[index..index + leng], lastPkt, msg);
      BuildStep(info, index, leng, lastPkt, built, msg);
      built := built + [msg];
      index := index + leng;
    }
    assert info[index..] == [];
    NoFragments(built);
  }

  lemma NoFragments(built: seq<seq<byte>>)
    ensures built + Fragments([]) == built
  {
  }

  // The bytes put together in one round are a fragment.
  lemma FragmentIs(chunk: seq<byte>, last: bool, msg: seq<byte>)
    requires msg == U16(CLUSTER_CLIENT_INFO_MSG) + U16(|chunk| + 1) + [if last then 1 else 0] + chunk
    ensures msg == Fragment(chunk, last)
  {
    hide U16;
    var flag: seq<byte> := [if last then 1 else 0];
    assert |flag + chunk| == |chunk| + 1;
    var head := U16(CLUSTER_CLIENT_INFO_MSG) + U16(|chunk| + 1);
    Assoc(head, flag, chunk);
  }

  // One round of the loop takes the next fragment off what is left.
  lemma BuildStep(info: seq<byte>, index: nat, leng: nat, last: bool, built: seq<seq<byte>>, msg: seq<byte>)
    requires index < |info| && built + Fragments(info[index..]) == Fragments(info)
    requires leng == (if |info| - index > MAX_UDP_DATA_LEN then MAX_UDP_DATA_LEN else |info| - index)
    requires last == (|info| - index <= MAX_UDP_DATA_LEN) && msg == Fragment(info[index..index + leng], last)
    ensures built + [msg] + Fragments(info[index + leng..]) == Fragments(info)
  {
    FragmentsStep(info[index..], leng, last);
    hide Fragments, Fragment;
    Slices(info, index, leng);
    var left := Fragments(info[index + leng..]);
    Assoc(built, [msg], left);
  }

  lemma FragmentsStep(rest: seq<byte>, leng: nat, last: bool)
    requires rest != [] && leng == (if |rest| > MAX_UDP_DATA_LEN then MAX_UDP_DATA_LEN else |rest|)
    requires last == (|rest| <= MAX_UDP_DATA_LEN)
    ensures Fragments(rest) == [Fragment(rest[..leng], last)] + Fragments(rest[leng..])
  {
    hide Fragment;
    if last {
      assert rest[..leng] == rest && rest[leng..] == [];
    }
  }

  // The chunk in a fragment.
  function Chunk(fragment: seq<byte>): seq<byte> {
    if |fragment| < 5 then [] else fragment[5..]
  }

  function Joined(fragments: seq<seq<byte>>): seq<byte> {
    if fragments == [] then [] else Chunk(fragments[0]) + Joined(fragments[1..])
  }

  /** Splitting an info of n bytes gives ceil(n / 1024) fragments of at most 1024 bytes, only the last
      of them flagged, whose chunks in order are the info. */
  lemma {:induction false} FragmentsShape(info: seq<byte>)
    ensures |Fragments(info)| == (|info| + 1023) / 1024
    ensures forall i :: 0 <= i < |Fragments(info)| ==>
              var f := Fragments(info)[i];
              5 < |f| <= 1029 && f[4] == if i == |Fragments(info)| - 1 then 1 else 0
    ensures Joined(Fragments(info)) == info
    decreases |info|
  {
    hide ToByte;
    if |info| > MAX_UDP_DATA_LEN {
      var chunk, rest := info[..MAX_UDP_DATA_LEN], info[MAX_UDP_DATA_LEN..];
      FragmentsShape(rest);
      FragmentParts(chunk, false);
      assert Fragments(info)[1..] == Fragments(rest);
      assert forall i :: 1 <= i < |Fragments(info)| ==> Fragments(info)[i] == Fragments(rest)[i - 1];
      assert chunk + rest == info;
    } else if info != [] {
      FragmentParts(info, true);
      assert Fragments(info)[1..] == [];
    }
  }

  lemma FragmentParts(chunk: seq<byte>, last: bool)
    ensures |Fragment(chunk, last)| == 5 + |chunk| && Chunk(Fragment(chunk, last)) == chunk
    ensures Fragment(chunk, last)[4] == if last then 1 else 0
  {
    hide ToByte;
    assert Fragment(chunk, last) == (U16(CLUSTER_CLIENT_INFO_MSG) + U16(|chunk| + 1) + [if last then 1 else 0]) + chunk;
  }

  /** Each fragment carries the type of a hand-off and its own length. */
  lemma {:induction false} FragmentHeaders(info: seq<byte>, i: nat)
    requires i < |Fragments(info)|
    ensures var f := Fragments(info)[i];
            5 < |f| <= 1029 && f[..4] == [0, 4, (|f| - 4) / 256, (|f| - 4) % 256]
    decreases |info|
  {
    var chunk := if |info| > MAX_UDP_DATA_LEN then info[..MAX_UDP_DATA_LEN] else info;
    if i == 0 {
      FragmentHeader(chunk, |info| <= MAX_UDP_DATA_LEN);
      hide Fragment;
    } else {
      hide Fragment;
      FragmentHeaders(info[MAX_UDP_DATA_LEN..], i - 1);
    }
  }

  lemma FragmentHeader(chunk: seq<byte>, last: bool)
    requires |chunk| <= 1024
    ensures var f := Fragment(chunk, last);
            |f| == 5 + |chunk| && f[..4] == [0, 4, (|f| - 4) / 256, (|f| - 4) % 256]
  {
    var body := [if last then 1 else 0] + chunk;
    MessageBytes(CLUSTER_CLIENT_INFO_MSG, body);
    hide Message;
  }

  // ---- receiving ----

  // What is handed to the cycle loop (Heart) and to the dispatcher. JSON bodies are left encoded.
  datatype Delivery =
    | Heart(node: GoString)
    | PublishJson(json: seq<byte>, node: GoString)
    | LoginId(id: GoString, node: GoString)
    | InfoJson(json: seq<byte>, node: GoString)

  // Died is a slice out of range: the receiving goroutine, and with it the process, ends.
  datatype Received = Received(buf: seq<byte>, out: seq<Delivery>) | Died

  // The length test adds 4 to a 16-bit number.
  predicate LengthFits(d: seq<byte>) {
    |d| >= 4 && |d| == (ReadU16(d[2], d[3]) + 4) % 0x1_0000
  }

  function MsgType(d: seq<byte>): nat
    requires |d| >= 4
  {
    ReadU16(d[0], d[1])
  }

  // One datagram, as far as it was read.
  function Handle(buf: seq<byte>, d: seq<byte>, node: GoString): Received {
    if !LengthFits(d) then Received(buf, [])
    else if MsgType(d) == CLUSTER_HEART_MSG then Received(buf, [Heart(node)])
    else if MsgType(d) == CLUSTER_PUBLIC_MSG then Received(buf, [PublishJson(d[4..], node)])
    else if MsgType(d) == CLUSTER_LOGIN_MSG then Received(buf, [LoginId(d[4..], node)])
    else if MsgType(d) == CLUSTER_CLIENT_INFO_MSG then
      if |d| == 4 then Died
      else if d[4] == 1 then Received([], [InfoJson(buf + d[5..], node)])
      else Received(buf + d[5..], [])
    else Received(buf, [])
  }

  class ClusterReceiver {
    var clientInfoMsg: seq<byte>
    var ch: seq<Delivery>
    var ch1: seq<Delivery>

    constructor ()
      ensures clientInfoMsg == [] && ch == [] && ch1 == []
    {
      clientInfoMsg, ch, ch1 := [], [], [];
    }

    /** data holds what ReadFromUDP returned; the bytes after it in the read buffer are 0. */
    method processClusterNodeMsg(data: seq<byte>, addr: GoString) returns (died: bool)
      modifies this
      ensures died <==> Handle(old(clientInfoMsg), data, addr).Died?
      ensures !died ==>
                var r := Handle(old(clientInfoMsg), data, addr);
                var heart := r.out != [] && r.out[0].Heart?;
                && clientInfoMsg == r.buf
                && ch == old(ch) + (if heart then r.out else [])
                && ch1 == old(ch1) + (if heart then [] else r.out)
    {
      died := false;
      var length := |data|;
      if length < 4 {
        return;
      }
      var msgType: nat, msgLen: nat := ReadU16(data[0], data[1]), ReadU16(data[2], data[3]);
      if length != (msgLen + 4) % 0x1_0000 {
        return;
      }
      assert data[4..length] == data[4..] && (length > 4 ==> data[5..length] == data[5..]);
      if msgType == CLUSTER_HEART_MSG {
        ch := ch + [Heart(addr)];
      } else if msgType == CLUSTER_PUBLIC_MSG {
        ch1 := ch1 + [PublishJson(data[4..length], addr)];
      } else if msgType == CLUSTER_LOGIN_MSG {
        ch1 := ch1 + [LoginId(data[4..length], addr)];
      } else if msgType == CLUSTER_CLIENT_INFO_MSG {
        var lastPkt := if length > 4 then data[4] else 0;
        if length < 5 {
          return true;
        }
        clientInfoMsg := clientInfoMsg + data[5..length];
        if lastPkt == 1 {
          ch1 := ch1 + [InfoJson(clientInfoMsg, addr)];
          clientInfoMsg := [];
        }
      }
    }
  }

  // ---- streams ----

  datatype Datagram = Datagram(data: seq<byte>, node: GoString)

  function Feed(buf: seq<byte>, ds: seq<Datagram>): Received
    decreases |ds|
  {
    if ds == [] then Received(buf, [])
    else match Handle(buf, ds[0].data, ds[0].node)
      case Died => Died
      case Received(b, out) =>
        match Feed(b, ds[1..])
        case Died => Died
        case Received(b', out') => Received(b', out + out')
  }

  predicate IsInfo(d: seq<byte>) {
    LengthFits(d) && MsgType(d) == CLUSTER_CLIENT_INFO_MSG
  }

  // The hand-off datagrams of a stream, in order.
  function InfoData(ds: seq<Datagram>): seq<seq<byte>> {
    if ds == [] then []
    else (if IsInfo(ds[0].data) then [ds[0].data] else []) + InfoData(ds[1..])
  }

  // The infos among the deliveries, in order.
  function Infos(out: seq<Delivery>): seq<seq<byte>> {
    if out == [] then []
    else (if out[0].InfoJson? then [out[0].json] else []) + Infos(out[1..])
  }

  function AllFragments(infos: seq<seq<byte>>): seq<seq<byte>> {
    if infos == [] then [] else Fragments(infos[0]) + AllFragments(infos[1..])
  }

  // What the receiver makes of hand-off datagrams alone.
  function Assemble(buf: seq<byte>, frags: seq<seq<byte>>): (seq<byte>, seq<seq<byte>>)
    decreases |frags|
  {
    if frags == [] then (buf, [])
    else if |frags[0]| > 4 && frags[0][4] == 1 then
      var r := Assemble([], frags[1..]);
      (r.0, [buf + Chunk(frags[0])] + r.1)
    else Assemble(buf + Chunk(frags[0]), frags[1..])
  }

  lemma {:induction false} InfosConcat(a: seq<Delivery>, b: seq<Delivery>)
    ensures Infos(a + b) == Infos(a) + Infos(b)
  {
    if a == [] {
      assert a + b == b && [] + Infos(b) == Infos(b);
    } else {
      var first := if a[0].InfoJson? then [a[0].json] else [];
      InfosConcat(a[1..], b);
      assert (a + b)[1..] == a[1..] + b && (a + b)[0] == a[0];
      assert Infos(a + b) == first + Infos((a + b)[1..]) && Infos(a) == first + Infos(a[1..]);
      hide Infos;
      Assoc(first, Infos(a[1..]), Infos(b));
    }
  }

  // Heart beats, publishes, logins and malformed datagrams in between change nothing.
  lemma {:induction false} FeedAssembles(buf: seq<byte>, ds: seq<Datagram>)
    requires forall i :: 0 <= i < |ds| && IsInfo(ds[i].data) ==> |ds[i].data| > 4
    ensures Feed(buf, ds).Received?
    ensures (Feed(buf, ds).buf, Infos(Feed(buf, ds).out)) == Assemble(buf, InfoData(ds))
    decreases |ds|
  {
    if ds != [] {
      var d := ds[0].data;
      var r := Handle(buf, d, ds[0].node);
      HandleInfos(buf, d, ds[0].node);
      FeedAssembles(r.buf, ds[1..]);
      InfosConcat(r.out, Feed(r.buf, ds[1..]).out);
      if IsInfo(d) {
        AssembleStep(buf, d, InfoData(ds[1..]));
      } else {
        assert InfoData(ds) == InfoData(ds[1..]);
      }
      assert [] + Infos(Feed(r.buf, ds[1..]).out) == Infos(Feed(r.buf, ds[1..]).out);
    }
  }

  // One datagram: the new buffer and the infos delivered.
  lemma HandleInfos(buf: seq<byte>, d: seq<byte>, node: GoString)
    requires IsInfo(d) ==> |d| > 4
    ensures var r := Handle(buf, d, node);
            && r.Received?
            && (r.buf, Infos(r.out)) == if !IsInfo(d) then (buf, [])
                                        else if d[4] == 1 then ([], [buf + d[5..]])
                                        else (buf + d[5..], [])
  {
    var r := Handle(buf, d, node);
    if r.out != [] {
      assert r.out[1..] == [];
      assert Infos(r.out) == if r.out[0].InfoJson? then [r.out[0].json] else [];
    }
  }

  lemma AssembleStep(buf: seq<byte>, d: seq<byte>, rest: seq<seq<byte>>)
    requires |d| > 4
    ensures Assemble(buf, [d] + rest) == if d[4] == 1 then (Assemble([], rest).0, [buf + d[5..]] + Assemble([], rest).1)
                                         else Assemble(buf + d[5..], rest)
  {
    assert ([d] + rest)[1..] == rest;
  }

  // One group of fragments is one info, appended to whatever the buffer held.
  lemma {:induction false} GroupAssembles(buf: seq<byte>, info: seq<byte>, rest: seq<seq<byte>>)
    requires info != []
    ensures Assemble(buf, Fragments(info) + rest) == (Assemble([], rest).0, [buf + info] + Assemble([], rest).1)
    decreases |info|
  {
    if |info| > MAX_UDP_DATA_LEN {
      var chunk, tail := info[..MAX_UDP_DATA_LEN], info[MAX_UDP_DATA_LEN..];
      var first := Fragment(chunk, false);
      assert Fragments(info) == [first] + Fragments(tail) && chunk + tail == info;
      FragmentParts(chunk, false);
      Tail(first, Fragments(tail), rest);
      hide Fragment, Chunk, Fragments;
      assert Assemble(buf, Fragments(info) + rest) == Assemble(buf + chunk, Fragments(tail) + rest);
      GroupAssembles(buf + chunk, tail, rest);
      Assoc(buf, chunk, tail);
      hide Assemble;
    } else {
      FragmentParts(info, true);
      Tail(Fragment(info, true), [], rest);
      assert [] + rest == rest;
      assert Fragments(info) == [Fragment(info, true)] == [Fragment(info, true)] + [];
      hide Fragment, Chunk, Fragments;
    }
  }

  lemma {:induction false} AllAssemble(infos: seq<seq<byte>>)
    requires forall i :: 0 <= i < |infos| ==> infos[i] != []
    ensures Assemble([], AllFragments(infos)) == ([], infos)
  {
    if infos != [] {
      AllAssemble(infos[1..]);
      GroupAssembles([], infos[0], AllFragments(infos[1..]));
      assert [] + infos[0] == infos[0];
      assert [infos[0]] + infos[1..] == infos;
    }
  }

  /** Reassembly undoes fragmentation over whole streams: if the hand-off datagrams of a stream are the
      fragments of non-empty infos, group after group, then whatever else is mixed in, the receiver
      delivers exactly these infos, in order, and ends with an empty buffer. */
  lemma StreamReassembles(ds: seq<Datagram>, infos: seq<seq<byte>>)
    requires forall i :: 0 <= i < |infos| ==> infos[i] != []
    requires InfoData(ds) == AllFragments(infos)
    ensures Feed([], ds).Received? && Feed([], ds).buf == [] && Infos(Feed([], ds).out) == infos
  {
    forall i | 0 <= i < |ds| && IsInfo(ds[i].data) ensures |ds[i].data| > 4 {
      InInfoData(ds, i);
      AllFragmentsLong(infos);
    }
    FeedAssembles([], ds);
    AllAssemble(infos);
  }

  lemma {:induction false} InInfoData(ds: seq<Datagram>, i: nat)
    requires i < |ds| && IsInfo(ds[i].data)
    ensures ds[i].data in InfoData(ds)
  {
    if i > 0 {
      InInfoData(ds[1..], i - 1);
    }
  }

  lemma {:induction false} AllFragmentsLong(infos: seq<seq<byte>>)
    ensures forall f :: f in AllFragments(infos) ==> |f| > 4
  {
    if infos != [] {
      FragmentsShape(infos[0]);
      AllFragmentsLong(infos[1..]);
    }
  }

  lemma InfoAccepted(body: seq<byte>)
    requires |body| <= MAX_UDP_DATA_LEN + 1
    ensures IsInfo(Message(CLUSTER_CLIENT_INFO_MSG, body))
  {
    hide Message, ReadU16;
    MessageStart(CLUSTER_CLIENT_INFO_MSG, body);
  }

  // A fragment on the wire is accepted as a hand-off datagram.
  lemma FragmentAccepted(chunk: seq<byte>, last: bool)
    requires |chunk| <= MAX_UDP_DATA_LEN
    ensures IsInfo(Fragment(chunk, last))
  {
    hide Message, IsInfo;
    InfoAccepted([if last then 1 else 0] + chunk);
  }

  /** The condition on groups is needed: the buffer is shared by all peers, so when two hand-offs of
      two fragments each interleave, neither info is delivered. */
  lemma InterleavedGroupsMix(a: seq<byte>, b: seq<byte>, n1: GoString, n2: GoString)
    requires MAX_UDP_DATA_LEN < |a| <= 2 * MAX_UDP_DATA_LEN && MAX_UDP_DATA_LEN < |b| <= 2 * MAX_UDP_DATA_LEN
    ensures var fa, fb := Fragments(a), Fragments(b);
            && |fa| == |fb| == 2
            && var ds := [Datagram(fa[0], n1), Datagram(fb[0], n2), Datagram(fa[1], n1), Datagram(fb[1], n2)];
               && Feed([], ds).Received?
               && a !in Infos(Feed([], ds).out) && b !in Infos(Feed([], ds).out)
  {
    hide Fragment, Chunk, IsInfo;
    var a1, a2 := a[..MAX_UDP_DATA_LEN], a[MAX_UDP_DATA_LEN..];
    var b1, b2 := b[..MAX_UDP_DATA_LEN], b[MAX_UDP_DATA_LEN..];
    TwoFragments(a);
    TwoFragments(b);
    var f1, f2, f3, f4 := Fragment(a1, false), Fragment(b1, false), Fragment(a2, true), Fragment(b2, true);
    var ds := [Datagram(f1, n1), Datagram(f2, n2), Datagram(f3, n1), Datagram(f4, n2)];
    FragmentAccepted(a1, false);
    FragmentAccepted(b1, false);
    FragmentAccepted(a2, true);
    FragmentAccepted(b2, true);
    FragmentParts(a1, false);
    FragmentParts(b1, false);
    FragmentParts(a2, true);
    FragmentParts(b2, true);
    FourInfos(ds);
    FeedAssembles([], ds);
    FourAssembled(a1, b1, a2, b2);
    assert |[] + a1 + b1 + a2| == |a| + MAX_UDP_DATA_LEN;
  }

  lemma FourAssembled(a1: seq<byte>, b1: seq<byte>, a2: seq<byte>, b2: seq<byte>)
    ensures Assemble([], [Fragment(a1, false), Fragment(b1, false), Fragment(a2, true), Fragment(b2, true)]).1
            == [[] + a1 + b1 + a2, [] + b2]
  {
    hide Fragment;
    var f1, f2, f3, f4 := Fragment(a1, false), Fragment(b1, false), Fragment(a2, true), Fragment(b2, true);
    FragmentParts(a1, false);
    FragmentParts(b1, false);
    FragmentParts(a2, true);
    FragmentParts(b2, true);
    AssembleStep([], f1, [f2, f3, f4]);
    AssembleStep([] + a1, f2, [f3, f4]);
    AssembleStep([] + a1 + b1, f3, [f4]);
    AssembleStep([], f4, []);
    assert [f1] + [f2, f3, f4] == [f1, f2, f3, f4] && [f2] + [f3, f4] == [f2, f3, f4];
    assert [f3] + [f4] == [f3, f4] && [f4] + [] == [f4];
  }

  lemma TwoFragments(a: seq<byte>)
    requires MAX_UDP_DATA_LEN < |a| <= 2 * MAX_UDP_DATA_LEN
    ensures Fragments(a) == [Fragment(a[..MAX_UDP_DATA_LEN], false), Fragment(a[MAX_UDP_DATA_LEN..], true)]
  {
  }

  lemma FourInfos(ds: seq<Datagram>)
    requires |ds| == 4 && forall i :: 0 <= i < 4 ==> IsInfo(ds[i].data)
    ensures InfoData(ds) == [ds[0].data, ds[1].data, ds[2].data, ds[3].data]
  {
    hide IsInfo;
    assert ds[1..][1..] == ds[2..] && ds[2..][1..] == ds[3..] && ds[3..][1..] == [];
    assert InfoData(ds[3..]) == [ds[3].data];
    assert InfoData(ds[2..]) == [ds[2].data] + InfoData(ds[3..]);
    assert InfoData(ds[1..]) == [ds[1].data] + InfoData(ds[2..]);
    assert InfoData(ds) == [ds[0].data] + InfoData(ds[1..]);
  }

  // ---- the read limit ----

  // What ReadFromUDP gives for a datagram.
  function AsRead(d: seq<byte>): seq<byte> {
    if |d| <= UDP_READ_LEN then d else d[..UDP_READ_LEN]
  }

  lemma MessageStart(msgType: nat, body: seq<byte>)
    requires msgType < 0x1_0000 && |body| < 0x1_0000
    ensures var d := Message(msgType, body);
            |d| == 4 + |body| && ReadU16(d[0], d[1]) == msgType && ReadU16(d[2], d[3]) == |body|
  {
    hide ToByte, ReadU16;
    U16RoundTrip(msgType);
    U16RoundTrip(|body|);
  }

  lemma MessageHeader(msgType: nat, body: seq<byte>)
    requires msgType < 0x1_0000 && |body| < 0x1_0000
    ensures var d := Message(msgType, body);
            |d| == 4 + |body| && ReadU16(d[0], d[1]) == msgType && ReadU16(d[2], d[3]) == |body| && d[4..] == body
  {
    MessageStart(msgType, body);
    hide ReadU16, U16;
    Cut(U16(msgType) + U16(|body|), body);
  }

  /** What is built for a type and a body: both numbers in two bytes, the higher one first, and the body. */
  lemma MessageBytes(msgType: nat, body: seq<byte>)
    requires msgType < 0x1_0000 && |body| < 0x1_0000
    ensures Message(msgType, body) == [msgType / 256, msgType % 256, |body| / 256, |body| % 256] + body
  {
  }

  /** What the receiver makes of a datagram with a type and a body, by the number of its type: 1 is a heart
      beat, 2 a publish, 3 a login and 4 a piece of a hand-off, with its flag in front. */
  lemma Receives(msgType: nat, body: seq<byte>, buf: seq<byte>, node: GoString)
    requires msgType < 0x1_0000 && |body| <= 4092
    ensures Handle(buf, [msgType / 256, msgType % 256, |body| / 256, |body| % 256] + body, node)
            == match msgType
               case 1 => Received(buf, [Heart(node)])
               case 2 => Received(buf, [PublishJson(body, node)])
               case 3 => Received(buf, [LoginId(body, node)])
               case 4 =>
                 if body == [] then Died
                 else if body[0] == 1 then Received([], [InfoJson(buf + body[1..], node)])
                 else Received(buf + body[1..], [])
               case _ => Received(buf, [])
  {
    var d := [msgType / 256, msgType % 256, |body| / 256, |body| % 256] + body;
    HeaderRead(msgType, body);
    hide LengthFits, MsgType;
    assert body != [] ==> d[5..] == body[1..] && d[4] == body[0];
  }

  lemma HeaderRead(msgType: nat, body: seq<byte>)
    requires msgType < 0x1_0000 && |body| <= 4092
    ensures var d := [msgType / 256, msgType % 256, |body| / 256, |body| % 256] + body;
            |d| == 4 + |body| && LengthFits(d) && MsgType(d) == msgType && d[4..] == body
  {
    var d := [msgType / 256, msgType % 256, |body| / 256, |body| % 256] + body;
    assert d[0] == msgType / 256 && d[1] == msgType % 256 && d[2] == |body| / 256 && d[3] == |body| % 256;
    assert d[4..] == body;
  }

  /** A datagram that is shorter than its header, or not of the length its header gives, is ignored. */
  lemma IgnoresMalformed(buf: seq<byte>, d: seq<byte>, node: GoString)
    requires |d| <= 4096 && (|d| < 4 || 256 * (d[2] as int) + (d[3] as int) + 4 != |d|)
    ensures Handle(buf, d, node) == Received(buf, [])
  {
  }

  // A body that UDP can carry (65507 bytes in all) arrives whole or is cut at the read.
  lemma AtTheRead(msgType: nat, body: seq<byte>, buf: seq<byte>, node: GoString)
    requires msgType < 0x1_0000 && |body| + 4 <= 65507
    ensures |body| <= 4092 ==>
              AsRead(Message(msgType, body)) == [msgType / 256, msgType % 256, |body| / 256, |body| % 256] + body
    ensures |body| > 4092 ==> Handle(buf, AsRead(Message(msgType, body)), node) == Received(buf, [])
  {
    MessageBytes(msgType, body);
    MessageHeader(msgType, body);
    hide Message, ReadU16, U16;
    if |body| > 4092 {
      var d, r := Message(msgType, body), AsRead(Message(msgType, body));
      assert r[0] == d[0] && r[1] == d[1] && r[2] == d[2] && r[3] == d[3];
    }
  }

  /** A cluster publish arrives if and only if its JSON has at most 4092 bytes; a longer one that UDP can
      carry (65507 bytes in all) is cut at the read and dropped by the length test. */
  lemma PublishArrivesIffShort(json: seq<byte>, buf: seq<byte>, node: GoString)
    requires |json| + 4 <= 65507
    ensures Handle(buf, AsRead(Message(CLUSTER_PUBLIC_MSG, json)), node)
            == Received(buf, if |json| <= 4092 then [PublishJson(json, node)] else [])
  {
    hide Handle, Message, AsRead;
    AtTheRead(CLUSTER_PUBLIC_MSG, json, buf, node);
    if |json| <= 4092 {
      Receives(2, json, buf, node);
    }
  }

  /** So does a login: the client id is announced to the dispatcher, from the sender's address. */
  lemma LoginArrivesIffShort(id: GoString, buf: seq<byte>, node: GoString)
    requires |id| + 4 <= 65507
    ensures Handle(buf, AsRead(Message(CLUSTER_LOGIN_MSG, id)), node)
            == Received(buf, if |id| <= 4092 then [LoginId(id, node)] else [])
  {
    hide Handle, Message, AsRead;
    AtTheRead(CLUSTER_LOGIN_MSG, id, buf, node);
    if |id| <= 4092 {
      Receives(3, id, buf, node);
    }
  }

  /** A heart beat, four bytes, arrives. */
  lemma HeartArrives(buf: seq<byte>, node: GoString)
    ensures Message(CLUSTER_HEART_MSG, []) == [0, 1, 0, 0]
    ensures Handle(buf, AsRead(Message(CLUSTER_HEART_MSG, [])), node) == Received(buf, [Heart(node)])
  {
    hide Handle, Message, AsRead;
    MessageBytes(CLUSTER_HEART_MSG, []);
    AtTheRead(CLUSTER_HEART_MSG, [], buf, node);
    Receives(1, [], buf, node);
  }

  // ---- the address of a hand-off ----

  const COLON: byte := 58

  // s[lo:hi] is in range for a string of n bytes.
  predicate SliceInRange(lo: int, hi: int, n: int) {
    0 <= lo <= hi <= n
  }

  /** As written, the port is sliced out of the part of the address before the first colon, with a lower
      bound past its end: every hand-off dies here, whatever the address. */
  method SplitAddress(address: GoString) returns (index: int, died: bool)
    ensures died
    ensures index == -1 <==> 58 !in address
    ensures index != -1 ==> 0 <= index < |address| && address[index] == 58 && 58 !in address[..index]
  {
    index := -1;
    for i := 0 to |address|
      invariant index == -1 && 58 !in address[..i]
    {
      if address[i] == COLON {
        index := i;
        break;
      }
      assert address[..i + 1] == address[..i] + [address[i]];
    }
    assert index == -1 ==> address[..|address|] == address;
    if !SliceInRange(0, index, |address|) {
      return index, true;
    }
    var ip := address[0..index];
    died := !SliceInRange(index + 1, |ip|, |ip|);
  }
}
