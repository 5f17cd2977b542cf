/** Variable-length integers of section 16 of RFC 9000. */
module Varint {
  import opened Bytes

  /** io.EOF where nothing of a read was there, io.ErrUnexpectedEOF where only a part was. */
  datatype Error = Eof | UnexpectedEof | TooLarge | Malformed

  function Short(have: seq<Byte>): (e: Error) { if have == [] then Eof else UnexpectedEof }

  /** What a read leaves behind: a value or an error, and the bytes not consumed. */
  datatype Read<+T> = Got(value: T, rest: seq<Byte>) | Fail(error: Error, rest: seq<Byte>)

  const LIMIT := 0x4000_0000_0000_0000

  predicate IsWidth(w: nat) { w == 1 || w == 2 || w == 4 || w == 8 }

  /** The two length bits in front of a varint of w bytes. */
  function Tag(w: nat): (t: nat)
    requires IsWidth(w)
    ensures t < 4 && WidthOfTag(t) == w
  {
    if w == 1 then 0 else if w == 2 then 1 else if w == 4 then 2 else 3
  }

  function WidthOfTag(t: nat): (w: nat)
    requires t < 4
    ensures IsWidth(w)
  {
    if t == 0 then 1 else if t == 1 then 2 else if t == 2 then 4 else 8
  }

  predicate Fits(v: nat, w: nat) { IsWidth(w) && v < 64 * Radix(w - 1) }

  /** A varint of any of the four widths that can hold v; a peer need not pick the shortest. */
  function EncodeAt(v: nat, w: nat): (s: seq<Byte>)
    requires Fits(v, w)
    ensures |s| == w
  {
    var digits := PutBigEndian(v, w);
    RoomForTag(v, w);
    [Tag(w) * 64 + digits[0]] + digits[1..]
  }

  lemma RoomForTag(v: nat, w: nat)
    requires Fits(v, w)
    ensures PutBigEndian(v, w)[0] < 64
    ensures v == PutBigEndian(v, w)[0] * Radix(w - 1) + BigEndian(PutBigEndian(v, w)[1..])
  {
    var digits := PutBigEndian(v, w);
    BigEndianRoundTrip(v, w);
    BigEndianHead(digits);
    Bounded(digits[0], Radix(w - 1), v);
  }

  lemma Bounded(digit: nat, radix: nat, v: nat)
    requires digit * radix <= v < 64 * radix
    ensures digit < 64
  {
  }

  lemma Radices()
    ensures Radix(0) == 1 && Radix(1) == 256 && Radix(3) == 0x100_0000 && Radix(7) == 0x100_0000_0000_0000
  {
    assert Radix(2) == 0x1_0000;
    assert Radix(3) == 0x100_0000;
    assert Radix(4) == 0x1_0000_0000;
    assert Radix(5) == 0x100_0000_0000;
    assert Radix(6) == 0x1_0000_0000_0000;
  }

  /** quicvarint.Append: the shortest width. */
  function ShortestWidth(v: nat): (w: nat)
    requires v < LIMIT
    ensures Fits(v, w)
    ensures forall u :: Fits(v, u) ==> w <= u
  {
    Radices();
    if v < 64 then 1 else if v < 16384 then 2 else if v < 0x4000_0000 then 4 else 8
  }

  function Encode(v: nat): (s: seq<Byte>)
    requires v < LIMIT
    ensures 1 <= |s| <= 8
  {
    EncodeAt(v, ShortestWidth(v))
  }

  /** readMasqueQUICVarint: one byte gives the width, then the remaining bytes; quicvarint.Parse
      reads the same layout from the front of a buffer. A short read consumes what is there. */
  function Decode(s: seq<Byte>): (r: Read<nat>)
    ensures r.Got? ==> |r.rest| < |s|
  {
    if s == [] then Fail(Eof, []) else
    var n := WidthOfTag(s[0] / 64);
    if |s| < n then Fail(Short(s[1..]), []) else
    Got((s[0] % 64) * Radix(n - 1) + BigEndian(s[1..n]), s[n..])
  }

  /** Every width of every value decodes to that value, whatever follows it. */
  lemma DecodeEncode(v: nat, w: nat, tail: seq<Byte>)
    requires Fits(v, w)
    ensures Decode(EncodeAt(v, w) + tail) == Got(v, tail)
  {
    var digits := PutBigEndian(v, w);
    RoomForTag(v, w);
    var s := EncodeAt(v, w) + tail;
    assert s[0] / 64 == Tag(w) && s[0] % 64 == digits[0];
    assert s[1..w] == digits[1..];
    assert s[w..] == tail;
  }

  /** A varint only reads the bytes it consumes: more input never changes the value. */
  lemma DecodeExtend(s: seq<Byte>, more: seq<Byte>)
    requires Decode(s).Got?
    ensures Decode(s + more) == Got(Decode(s).value, Decode(s).rest + more)
  {
    Slices(s, more, WidthOfTag(s[0] / 64));
  }

  lemma Slices(s: seq<Byte>, more: seq<Byte>, n: nat)
    requires 1 <= n <= |s|
    ensures (s + more)[0] == s[0] && (s + more)[1..n] == s[1..n] && (s + more)[n..] == s[n..] + more
  {
  }
}
