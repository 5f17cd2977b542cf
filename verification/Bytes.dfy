/** Bytes and big-endian integers. */
module Bytes {
  type Byte = b: int | 0 <= b < 256

  /** 256 to the power n: the number of values n bytes can hold. */
  function Radix(n: nat): (r: nat)
    ensures r > 0
  {
    if n == 0 then 1 else 256 * Radix(n - 1)
  }

  function BigEndian(s: seq<Byte>): (v: nat)
    ensures v < Radix(|s|)
  {
    if s == [] then 0 else BigEndian(s[..|s| - 1]) * 256 + s[|s| - 1]
  }

  function PutBigEndian(v: nat, n: nat): (s: seq<Byte>)
    ensures |s| == n
  {
    if n == 0 then [] else PutBigEndian(v / 256, n - 1) + [v % 256]
  }

  /** A value that fits n bytes is read back from the n bytes that store it. */
  lemma {:induction false} BigEndianRoundTrip(v: nat, n: nat)
    requires v < Radix(n)
    ensures BigEndian(PutBigEndian(v, n)) == v
  {
    if n > 0 {
      BigEndianRoundTrip(v / 256, n - 1);
      assert PutBigEndian(v, n)[..n - 1] == PutBigEndian(v / 256, n - 1);
    }
  }

  /** The first byte carries the highest digit. */
  lemma {:induction false} BigEndianHead(s: seq<Byte>)
    requires s != []
    ensures BigEndian(s) == s[0] * Radix(|s| - 1) + BigEndian(s[1..])
  {
    if |s| > 1 {
      var front, tail := s[..|s| - 1], s[1..];
      BigEndianHead(front);
      assert front[1..] == tail[..|tail| - 1];
      Shift(s[0], Radix(|s| - 2));
    }
  }

  lemma Shift(digit: nat, radix: nat)
    ensures digit * radix * 256 == digit * (256 * radix)
  {
  }

  predicate HasPrefix(s: seq<Byte>, prefix: seq<Byte>) {
    |prefix| <= |s| && s[..|prefix|] == prefix
  }

  function Concat(parts: seq<seq<Byte>>): (s: seq<Byte>) {
    if parts == [] then [] else parts[0] + Concat(parts[1..])
  }

  lemma {:induction false} ConcatAppend(parts: seq<seq<Byte>>, last: seq<Byte>)
    ensures Concat(parts + [last]) == Concat(parts) + last
  {
    if parts == [] {
      assert parts + [last] == [last];
      assert Concat([last]) == last + Concat([]);
    } else {
      assert (parts + [last])[1..] == parts[1..] + [last];
      ConcatAppend(parts[1..], last);
    }
  }
}
