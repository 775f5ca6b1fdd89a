// Values shared by the packet codec, the dispatcher and the cluster protocol.
module MqttTypes {

  type byte = x: int | 0 <= x < 256

  type uint16 = x: int | 0 <= x < 0x1_0000

  // A Go string is a sequence of bytes.
  type GoString = seq<byte>

  type ClientId = GoString

  datatype Option<+T> = None | Some(value: T)

  /** MQTTPacketPublishData: one application message together with its packet identifier. */
  datatype Publish = Publish(dup: byte, packetId: uint16, retained: byte,
                             topic: GoString, qos: byte, payload: GoString)
  {
    function WithId(id: uint16): Publish {
      this.(packetId := id)
    }

    // The message without its packet identifier, which every hop reassigns.
    function Content(): Publish {
      this.(packetId := 0)
    }

    // DUP and RETAIN belong to the packet a message came in, not to the message (sections 3.3.1.1, 3.3.1.3).
    predicate Flagged() {
      dup != 0 || retained != 0
    }

    function Plain(): Publish {
      Content().(dup := 0, retained := 0)
    }
  }

  /** One entry of a SUBSCRIBE payload. */
  datatype Filter = Filter(topic: GoString, qos: byte)

  /** ClusterClientInfo: what the old node hands over when a client logs in elsewhere. */
  datatype ClientInfo = ClientInfo(clientId: ClientId, subs: map<GoString, byte>, offline: seq<Publish>)

  // ---- sequences ----

  lemma Assoc<T>(a: seq<T>, b: seq<T>, c: seq<T>)
    ensures (a + b) + c == a + (b + c)
  {
  }

  // A sequence put together around one element.
  lemma Around<T>(a: seq<T>, x: T, b: seq<T>)
    ensures var s := a + [x] + b;
            && |s| == |a| + 1 + |b| && a <= s && s[|a|] == x
            && forall j :: 0 <= j < |b| ==> s[|a| + 1 + j] == b[j]
  {
  }

  lemma Tail<T>(x: T, a: seq<T>, b: seq<T>)
    ensures var s := ([x] + a) + b;
            s != [] && s[0] == x && s[1..] == a + b
  {
  }

  lemma Slices<T>(s: seq<T>, i: nat, n: nat)
    requires i + n <= |s|
    ensures s[i..][..n] == s[i..i + n] && s[i..][n..] == s[i + n..]
  {
  }
}
