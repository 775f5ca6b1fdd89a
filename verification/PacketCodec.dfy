// The building blocks of the wire format: 16-bit lengths, the remaining-length varint of section
// 2.2.3 of MQTT 3.1.1, and length-prefixed strings as the parser reads them. Bytes are numbers, so
// a mask or a shift of the program is a division or a remainder here.
module PacketCodec {
  import opened MqttTypes

  const CONNECT: byte := 1
  const PUBLISH: byte := 3
  const PUBACK: byte := 4
  const PUBREC: byte := 5
  const PUBREL: byte := 6
  const PUBCOMP: byte := 7
  const SUBSCRIBE: byte := 8
  const SUBACK: byte := 9
  const UNSUBSCRIBE: byte := 10

  // 128 to the fourth: the first remaining length that does not fit.
  const LENGTH_LIMIT := 0x1000_0000

  /** What a parser does: succeed, return -1, or index out of range (the goroutine dies). */
  datatype Parsed<+T> = Parsed(value: T) | Rejected | Panic

  // ---- bytes ----

  // The conversion uint8(n).
  function ToByte(n: nat): byte {
    n % 256
  }

  const POWERS: seq<nat> := [1, 2, 4, 8, 16, 32, 64, 128, 256]

  // b << k in a byte.
  function Shl(b: byte, k: nat): byte
    requires k <= 8
  {
    (b * POWERS[k]) % 256
  }

  // a | b
  function Or(a: byte, b: byte): byte {
    OrBits(a, b, 8)
  }

  // The low k bits of a | b.
  function OrBits(a: nat, b: nat, k: nat): (r: nat)
    requires k <= 8 && a < POWERS[k] && b < POWERS[k]
    ensures r < POWERS[k]
  {
    if k == 0 then 0
    else 2 * OrBits(a / 2, b / 2, k - 1) + if a % 2 == 1 || b % 2 == 1 then 1 else 0
  }

  // a & b == 0 on the low k bits.
  predicate Disjoint(a: nat, b: nat, k: nat) {
    k == 0 || (a % 2 + b % 2 <= 1 && Disjoint(a / 2, b / 2, k - 1))
  }

  lemma {:induction false} OrIsSum(a: nat, b: nat, k: nat)
    requires k <= 8 && a < POWERS[k] && b < POWERS[k] && Disjoint(a, b, k)
    ensures OrBits(a, b, k) == a + b
  {
    if k > 0 {
      OrIsSum(a / 2, b / 2, k - 1);
    }
  }

  // (h & 0xF0) >> 4
  function TypeOf(h: byte): byte {
    h / 16
  }

  // ---- 16-bit numbers ----

  function U16(n: nat): seq<byte> {
    [ToByte(n / 256), ToByte(n % 256)]
  }

  function ReadU16(hi: byte, lo: byte): uint16 {
    hi * 256 + lo
  }

  lemma U16RoundTrip(n: nat)
    requires n < 0x1_0000
    ensures ReadU16(U16(n)[0], U16(n)[1]) == n
  {
  }

  // ---- remaining length: seven bits and a continuation flag a byte ----

  // b & 127
  function Low7(b: byte): (r: nat)
    ensures r < 128
  {
    b % 128
  }

  // b & 128 != 0
  predicate More(b: byte) {
    b >= 128
  }

  // ---- remaining length: the encoder ----

  function VarInt(n: nat): (r: seq<byte>)
    ensures |r| > 0
  {
    if n < 128 then [n] else [n % 128 + 128] + VarInt(n / 128)
  }

  lemma VarIntSize(n: nat)
    ensures |VarInt(n)| == 1 <==> n < 128
    ensures |VarInt(n)| == 2 <==> 128 <= n < 16384
    ensures |VarInt(n)| == 3 <==> 16384 <= n < 2097152
    ensures |VarInt(n)| == 4 <==> 2097152 <= n < 268435456
    ensures |VarInt(n)| <= 4 <==> n < LENGTH_LIMIT
  {
    if n >= 128 && n / 128 >= 128 && n / 128 / 128 >= 128 {
      assert |VarInt(n / 128 / 128 / 128)| == 1 <==> n / 128 / 128 / 128 < 128;
    }
  }

  lemma VarIntOne(n: nat)
    ensures VarInt(n) == if n < 128 then [n] else [n % 128 + 128] + VarInt(n / 128)
  {
  }

  lemma DivTwice(n: nat)
    ensures n / 128 / 128 == n / 16384 && n / 16384 / 128 == n / 2097152
  {
  }

  lemma VarIntFour(n: nat)
    requires 2097152 <= n < 268435456
    ensures VarInt(n) == [n % 128 + 128, n / 128 % 128 + 128, n / 16384 % 128 + 128, n / 2097152]
  {
    hide VarInt;
    DivTwice(n);
    VarIntOne(n);
    VarIntOne(n / 128);
    VarIntOne(n / 16384);
    VarIntOne(n / 2097152);
  }

  /** The bytes: seven bits each, the lowest first, with the top bit set on all but the last. */
  lemma VarIntBytes(n: nat)
    ensures n < 128 ==> VarInt(n) == [n]
    ensures 128 <= n < 16384 ==> VarInt(n) == [n % 128 + 128, n / 128]
    ensures 16384 <= n < 2097152 ==> VarInt(n) == [n % 128 + 128, n / 128 % 128 + 128, n / 16384]
    ensures 2097152 <= n < 268435456 ==>
              VarInt(n) == [n % 128 + 128, n / 128 % 128 + 128, n / 16384 % 128 + 128, n / 2097152]
  {
    hide VarInt;
    DivTwice(n);
    VarIntOne(n);
    VarIntOne(n / 128);
    VarIntOne(n / 16384);
    if 2097152 <= n < 268435456 {
      VarIntFour(n);
    }
  }

  lemma EncodeStep(rest: nat, done: seq<byte>, tmp: byte)
    requires tmp == if rest / 128 > 0 then rest % 128 + 128 else rest % 128
    ensures rest / 128 > 0 ==> done + [tmp] + VarInt(rest / 128) == done + VarInt(rest)
    ensures rest / 128 == 0 ==> done + [tmp] == done + VarInt(rest)
  {
    if rest / 128 > 0 {
      assert VarInt(rest) == [tmp] + VarInt(rest / 128);
      assert done + [tmp] + VarInt(rest / 128) == done + ([tmp] + VarInt(rest / 128));
    } else {
      assert rest % 128 == rest;
      assert VarInt(rest) == [tmp];
    }
  }

  /** The result array has four bytes; a fifth one is an index out of range. */
  method mqttPacket_encode(length: nat) returns (panicked: bool, index: nat, buf: seq<byte>)
    ensures panicked <==> length >= 268435456
    ensures !panicked ==> |buf| == 4 && index <= 4 && buf[..index] == VarInt(length)
  {
    hide VarInt;
    buf, index, panicked := [0, 0, 0, 0], 0, false;
    var rest := length;
    VarIntSize(length);
    var more := true;
    while more
      invariant !panicked && |buf| == 4 && index <= 4
      invariant (if more then buf[..index] + VarInt(rest) else buf[..index]) == VarInt(length)
      decreases more, rest
    {
      var tmp: byte := rest % 128;
      if rest / 128 > 0 {
        tmp := tmp + 128;
      }
      EncodeStep(rest, buf[..index], tmp);
      if index >= 4 {
        VarIntSize(rest);
        assert |buf[..4] + VarInt(rest)| >= 5;
        return true, index, buf;
      }
      buf := buf[index := tmp];
      assert buf[..index + 1] == buf[..index] + [tmp];
      index := index + 1;
      rest := rest / 128;
      more := rest > 0;
    }
  }

  // ---- remaining length: the decoder ----

  // Over: four bytes and all of them ask for more; the decoder then reports length 0.
  datatype VarRead = Val(value: nat, len: nat) | Over(value: nat) | Short

  function ReadVar(data: seq<byte>, room: nat): VarRead {
    if room == 0 then Over(0)
    else if data == [] then Short
    else
      var c := Low7(data[0]);
      if !More(data[0]) then Val(c, 1)
      else match ReadVar(data[1..], room - 1)
        case Val(v, l) => Val(c + 128 * v, l + 1)
        case Over(v) => Over(c + 128 * v)
        case Short => Short
  }

  // The rest of a read, seen from where `at` bytes have given `acc`.
  function Lift(acc: nat, multiplier: nat, at: nat, r: VarRead): VarRead {
    match r
    case Val(v, l) => Val(acc + multiplier * v, at + l)
    case Over(v) => Over(acc + multiplier * v)
    case Short => Short
  }

  lemma Regroup(multiplier: nat, c: nat, v: nat)
    ensures multiplier * (c + 128 * v) == c * multiplier + multiplier * 128 * v
  {
  }

  lemma LiftStep(acc: nat, multiplier: nat, at: nat, c: nat, r: VarRead)
    ensures Lift(acc + c * multiplier, multiplier * 128, at + 1, r)
            == Lift(acc, multiplier, at, match r
                                         case Val(v, l) => Val(c + 128 * v, l + 1)
                                         case Over(v) => Over(c + 128 * v)
                                         case Short => Short)
  {
    if !r.Short? {
      Regroup(multiplier, c, r.value);
    }
  }

  lemma ReadVarStep(data: seq<byte>, i: nat, room: nat)
    requires i < |data| && room > 0
    ensures ReadVar(data[i..], room)
            == if !More(data[i]) then Val(Low7(data[i]), 1)
               else match ReadVar(data[i + 1..], room - 1)
                 case Val(v, l) => Val(Low7(data[i]) + 128 * v, l + 1)
                 case Over(v) => Over(Low7(data[i]) + 128 * v)
                 case Short => Short
  {
    assert data[i..][1..] == data[i + 1..];
  }

  lemma DecodeStep(data: seq<byte>, value: nat, multiplier: nat, i: nat)
    requires i < 4 && i < |data|
    requires ReadVar(data, 4) == Lift(value, multiplier, i, ReadVar(data[i..], 4 - i))
    ensures Low7(data[i]) * multiplier >= 0
    ensures !More(data[i]) ==> ReadVar(data, 4) == Val(value + Low7(data[i]) * multiplier, i + 1)
    ensures More(data[i]) ==>
              ReadVar(data, 4)
              == Lift(value + Low7(data[i]) * multiplier, multiplier * 128, i + 1, ReadVar(data[i + 1..], 3 - i))
  {
    ReadVarStep(data, i, 4 - i);
    var c := Low7(data[i]);
    Commutes(c, multiplier);
    if More(data[i]) {
      LiftStep(value, multiplier, i, c, ReadVar(data[i + 1..], 3 - i));
    } else {
      assert ReadVar(data, 4) == Lift(value, multiplier, i, Val(c, 1));
    }
  }

  lemma Commutes(c: nat, multiplier: nat)
    ensures c * multiplier == multiplier * c >= 0
  {
  }

  method mqttPacket_decode(data: seq<byte>) returns (panicked: bool, length: nat, value: nat)
    ensures match ReadVar(data, 4)
            case Val(v, l) => !panicked && length == l && value == v
            case Over(v) => !panicked && length == 0 && value == v
            case Short => panicked
  {
    var multiplier: nat := 1;
    value, length, panicked := 0, 0, false;
    assert data[0..] == data;
    while true
      invariant length <= 4 && length <= |data| && !panicked
      invariant ReadVar(data, 4) == Lift(value, multiplier, length, ReadVar(data[length..], 4 - length))
      decreases 4 - length
    {
      var i := length;
      if i >= 4 {
        assert ReadVar(data[4..], 0) == Over(0);
        assert ReadVar(data, 4) == Over(value);
        return false, 0, value;
      }
      if i >= |data| {
        return true, length, value;
      }
      var c := data[i];
      DecodeStep(data, value, multiplier, i);
      length := length + 1;
      var digit := Low7(c) * multiplier;
      if !More(c) {
        return false, length, value + digit;
      }
      value := value + digit;
      multiplier := multiplier * 128;
    }
  }

  // ---- both directions ----

  /** Decoding an encoded length, whatever follows it, gives the length back and its byte count. */
  lemma {:induction false} VarIntRoundTrip(n: nat, room: nat, suffix: seq<byte>)
    requires |VarInt(n)| <= room
    ensures ReadVar(VarInt(n) + suffix, room) == Val(n, |VarInt(n)|)
    decreases room
  {
    var data := VarInt(n) + suffix;
    if n < 128 {
      assert data[0] == n;
    } else {
      assert data[0] == n % 128 + 128;
      assert data[1..] == VarInt(n / 128) + suffix;
      VarIntRoundTrip(n / 128, room - 1, suffix);
      assert n % 128 + 128 * (n / 128) == n;
    }
  }

  /** No encoding is shorter, and the encoding of that length is the only one: a decoded length l is at
      least the encoder's, and if it equals it the bytes are the encoder's. */
  lemma {:induction false} VarIntMinimal(data: seq<byte>, room: nat)
    requires ReadVar(data, room).Val?
    ensures var Val(v, l) := ReadVar(data, room);
            l <= |data| && |VarInt(v)| <= l && (l == |VarInt(v)| <==> data[..l] == VarInt(v))
    decreases room
  {
    var Val(v, l) := ReadVar(data, room);
    var c := Low7(data[0]);
    if !More(data[0]) {
      assert data[..1] == [data[0]];
    } else {
      VarIntMinimal(data[1..], room - 1);
      var Val(w, k) := ReadVar(data[1..], room - 1);
      assert v == c + 128 * w && l == k + 1;
      assert data[..l] == [data[0]] + data[1..][..k];
      if v < 128 {
        assert w == 0 && |VarInt(v)| == 1 && l >= 2;
      } else {
        assert v % 128 == c && v / 128 == w;
        assert VarInt(v) == [data[0]] + VarInt(w);
        assert VarInt(v)[1..] == VarInt(w) && data[..l][1..] == data[1..][..k];
      }
    }
  }

  // ---- strings ----

  // data[0] << 8 | data[1] on bytes: the shift leaves 0, so the high byte is lost.
  function StringLength(hi: byte, lo: byte): nat {
    Or(Shl(hi, 8), lo)
  }

  lemma {:induction false} DisjointZero(b: nat, k: nat)
    ensures Disjoint(0, b, k)
  {
    if k > 0 {
      DisjointZero(b / 2, k - 1);
    }
  }

  lemma HighByteLost(hi: byte, lo: byte)
    ensures StringLength(hi, lo) == lo
  {
    assert POWERS[8] == 256;
    assert Shl(hi, 8) == 0;
    DisjointZero(lo, 8);
    OrIsSum(0, lo, 8);
  }

  // The string and the bytes used, or None for an index out of range.
  function ReadString(data: seq<byte>): Option<(GoString, nat)> {
    if |data| < 2 then None
    else
      var n := StringLength(data[0], data[1]);
      if n + 2 > |data| then None else Some((data[2..n + 2], n + 2))
  }

  method mqttPacket_readString(data: seq<byte>) returns (panicked: bool, used: nat, str: GoString)
    ensures match ReadString(data)
            case Some(r) => !panicked && str == r.0 && used == r.1
            case None => panicked
  {
    str, used, panicked := [], 0, false;
    if |data| < 2 {
      return true, 0, [];
    }
    var len: nat := Or(Shl(data[0], 8), data[1]);
    for i := 0 to len
      invariant i + 2 <= |data| && str == data[2..i + 2]
    {
      if i + 2 >= |data| {
        return true, 0, str;
      }
      str := str + [data[i + 2]];
    }
    used := len + 2;
  }

  // A length-prefixed string as section 1.5.3 of MQTT 3.1.1 lays it out.
  function StringBytes(s: GoString): seq<byte> {
    U16(|s|) + s
  }

  /** A string followed by anything is read back if and only if it is shorter than 256 bytes. */
  lemma StringRoundTrip(s: GoString, suffix: seq<byte>)
    requires |s| < 0x1_0000
    ensures ReadString(StringBytes(s) + suffix) == Some((s, |s| + 2)) <==> |s| < 256
    ensures ReadString(StringBytes(s) + suffix).Some? ==> |ReadString(StringBytes(s) + suffix).value.0| < 256
  {
    var data := StringBytes(s) + suffix;
    StringLayout(s, suffix);
    hide StringBytes, StringLength;
    HighByteLost(data[0], data[1]);
  }

  lemma StringLayout(s: GoString, suffix: seq<byte>)
    requires |s| < 0x1_0000
    ensures var data := StringBytes(s) + suffix;
            && |data| == |s| + 2 + |suffix| && data[1] == |s| % 256 && data[2..|s| + 2] == s
  {
    var data := StringBytes(s) + suffix;
    assert data[1] == U16(|s|)[1];
  }
}
