/** The MasqueCat packet framing: a version byte, two 32-byte node keys and an opaque payload. */
module Packet {
  import opened Bytes

  const VERSION: Byte := 1
  const KEY_LEN := 32
  const HEADER_LEN := 1 + 2 * KEY_LEN

  type Key = k: seq<Byte> | |k| == KEY_LEN witness PutBigEndian(0, KEY_LEN)

  const ZERO_KEY: Key := PutBigEndian(0, KEY_LEN)

  /** disco.Magic: "TS" and the speech-balloon emoji in UTF-8. */
  const DISCO_MAGIC: seq<Byte> := [0x54, 0x53, 0xf0, 0x9f, 0x92, 0xac]

  datatype MasquePacket = MasquePacket(src: Key, dst: Key, payload: seq<Byte>)

  datatype Decoded = Decoded(packet: MasquePacket) | Short | BadVersion

  function Encode(p: MasquePacket): (b: seq<Byte>)
    ensures |b| == HEADER_LEN + |p.payload|
  {
    [VERSION] + p.src + p.dst + p.payload
  }

  function Decode(b: seq<Byte>): (r: Decoded)
  {
    if |b| < HEADER_LEN then Short
    else if b[0] != VERSION then BadVersion
    else Decoded(MasquePacket(b[1..1 + KEY_LEN], b[1 + KEY_LEN..HEADER_LEN], b[HEADER_LEN..]))
  }

  lemma DecodeEncode(p: MasquePacket)
    ensures Decode(Encode(p)) == Decoded(p)
  {
    var b := Encode(p);
    assert b[1..1 + KEY_LEN] == p.src;
    assert b[1 + KEY_LEN..HEADER_LEN] == p.dst;
    assert b[HEADER_LEN..] == p.payload;
  }

  /** Decoding is injective: the accepted datagrams are exactly the encodings. */
  lemma DecodedIffEncoded(b: seq<Byte>, p: MasquePacket)
    ensures Decode(b) == Decoded(p) <==> b == Encode(p)
  {
    DecodeEncode(p);
    if Decode(b) == Decoded(p) {
      assert b == [b[0]] + b[1..1 + KEY_LEN] + b[1 + KEY_LEN..HEADER_LEN] + b[HEADER_LEN..];
    }
  }

  /** What a receive loop keeps of the datagrams it is given: malformed ones are dropped. */
  function DecodeAll(bodies: seq<seq<Byte>>): (ps: seq<MasquePacket>)
  {
    if bodies == [] then [] else
    match Decode(bodies[0])
    case Decoded(p) => [p] + DecodeAll(bodies[1..])
    case _ => DecodeAll(bodies[1..])
  }

  function EncodeAll(ps: seq<MasquePacket>): (bodies: seq<seq<Byte>>)
    ensures |bodies| == |ps|
    ensures forall i :: 0 <= i < |ps| ==> bodies[i] == Encode(ps[i])
  {
    if ps == [] then [] else [Encode(ps[0])] + EncodeAll(ps[1..])
  }

  lemma {:induction false} DecodeEncodeAll(ps: seq<MasquePacket>)
    ensures DecodeAll(EncodeAll(ps)) == ps
  {
    if ps != [] {
      DecodeEncode(ps[0]);
      assert EncodeAll(ps)[1..] == EncodeAll(ps[1..]);
      DecodeEncodeAll(ps[1..]);
    }
  }

  lemma {:induction false} DecodeAllSplit(a: seq<seq<Byte>>, b: seq<seq<Byte>>)
    ensures DecodeAll(a + b) == DecodeAll(a) + DecodeAll(b)
  {
    if a == [] {
      assert a + b == b;
    } else {
      assert (a + b)[1..] == a[1..] + b;
      DecodeAllSplit(a[1..], b);
    }
  }

  lemma DecodeAllPrefix(a: seq<seq<Byte>>, b: seq<seq<Byte>>)
    requires a <= b
    ensures DecodeAll(a) <= DecodeAll(b)
  {
    assert b == a + b[|a|..];
    DecodeAllSplit(a, b[|a|..]);
  }
}
