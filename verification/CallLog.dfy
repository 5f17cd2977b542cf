/** What a receiver makes of a stream whose writer may give up in the middle of a capsule. Each datagram
    is one writeData call; a call that was given up has put only a part of its bytes into frames. */
module CallLog {
  import opened Bytes
  import opened Varint
  import opened Capsule
  import Packet

  /** The bytes given to writeData, and those that it put into DATA frames. */
  datatype Call = Call(input: seq<Byte>, sent: seq<Byte>)

  function Emitted(calls: seq<Call>): (s: seq<Byte>) {
    if calls == [] then [] else calls[0].sent + Emitted(calls[1..])
  }

  lemma {:induction false} EmittedAppend(calls: seq<Call>, c: Call)
    ensures Emitted(calls + [c]) == Emitted(calls) + c.sent
  {
    if calls == [] {
      assert calls + [c] == [c];
      assert Emitted([c]) == c.sent + Emitted([]);
    } else {
      assert (calls + [c])[1..] == calls[1..] + [c];
      EmittedAppend(calls[1..], c);
    }
  }

  predicate Whole(c: Call) { c.sent == c.input }

  /** Given up, or still at work, after its first chunk. */
  predicate Torn(c: Call) { c.sent != [] && !Whole(c) }

  /** No torn call has anything behind it. */
  predicate Clean(calls: seq<Call>) {
    forall i, j :: 0 <= i < j < |calls| && Torn(calls[i]) ==> calls[j].sent == []
  }

  predicate NoneTorn(calls: seq<Call>) { forall i :: 0 <= i < |calls| ==> !Torn(calls[i]) }

  /** The calls carry these items, one each. */
  ghost predicate Wrote(items: seq<Item>, calls: seq<Call>) {
    && |items| == |calls| && AllSendable(items)
    && forall i :: 0 <= i < |calls| ==> calls[i].input == WireItem(items[i]) && calls[i].sent <= calls[i].input
  }

  /** The items whose calls were not given up. */
  function Completed(items: seq<Item>, calls: seq<Call>): (r: seq<Item>)
    requires |items| == |calls|
  {
    if calls == [] then [] else (if Whole(calls[0]) then [items[0]] else []) + Completed(items[1..], calls[1..])
  }

  // ---------------------------------------------------------------- clean streams

  lemma {:induction false} Silent(items: seq<Item>, calls: seq<Call>)
    requires Wrote(items, calls) && forall i :: 0 <= i < |calls| ==> calls[i].sent == []
    ensures Emitted(calls) == [] && Completed(items, calls) == []
  {
    if calls != [] {
      assert calls[0].input != [];
      Silent(items[1..], calls[1..]);
    }
  }

  lemma {:induction false} CompletedHead(items: seq<Item>, calls: seq<Call>)
    requires |items| == |calls| && calls != [] && Whole(calls[0])
    ensures Deliverable(Completed(items, calls)) == Ahead(items[0], Deliverable(Completed(items[1..], calls[1..])))
  {
    assert Completed(items, calls)[1..] == Completed(items[1..], calls[1..]);
  }

  /** A clean stream is received as exactly the items whose calls were not given up. */
  lemma {:induction false} CleanReceived(items: seq<Item>, calls: seq<Call>)
    requires Wrote(items, calls) && Clean(calls)
    ensures ReceiveAll(Emitted(calls)).bodies == Deliverable(Completed(items, calls))
  {
    if calls != [] {
      if Torn(calls[0]) {
        Silent(items[1..], calls[1..]);
        TornLast(items, calls);
      } else {
        CleanReceived(items[1..], calls[1..]);
        if Whole(calls[0]) {
          ReceiveItem(items[0], Emitted(calls[1..]));
          CompletedHead(items, calls);
        } else {
          assert Emitted(calls) == Emitted(calls[1..]);
          assert Completed(items, calls) == Completed(items[1..], calls[1..]);
        }
      }
    }
  }

  lemma {:induction false} TornLast(items: seq<Item>, calls: seq<Call>)
    requires Wrote(items, calls) && calls != [] && Torn(calls[0])
    requires Emitted(calls[1..]) == [] && Completed(items[1..], calls[1..]) == []
    ensures ReceiveAll(Emitted(calls)).bodies == [] && Completed(items, calls) == []
  {
    var k := |calls[0].sent|;
    assert Emitted(calls) == WireItem(items[0])[..k];
    CutItem(items[0], k);
  }

  /** The datagram bodies among the items. */
  function BodiesOf(items: seq<Item>): (bodies: seq<seq<Byte>>) {
    if items == [] then [] else (if items[0].Body? then [items[0].data] else []) + BodiesOf(items[1..])
  }

  lemma {:induction false} AllDeliverable(items: seq<Item>)
    requires NoOversize(items)
    ensures Deliverable(items) == BodiesOf(items)
  {
    if items != [] {
      NoOversizeHead(items);
      AllDeliverable(items[1..]);
    }
  }

  lemma {:induction false} CompletedFit(items: seq<Item>, calls: seq<Call>)
    requires |items| == |calls| && NoOversize(items)
    ensures NoOversize(Completed(items, calls))
  {
    if calls != [] {
      NoOversizeHead(items);
      CompletedFit(items[1..], calls[1..]);
    }
  }

  /** The packets that were not given up. */
  function PacketsCompleted(items: seq<Item>, calls: seq<Call>): (ps: seq<Packet.MasquePacket>)
    requires |items| == |calls|
  {
    Packet.DecodeAll(BodiesOf(Completed(items, calls)))
  }

  function PacketsIn(s: seq<Byte>): (ps: seq<Packet.MasquePacket>) { Packet.DecodeAll(ReceiveAll(s).bodies) }

  /** Packet by packet: from a clean stream the packets not given up, from a prefix of it a prefix. */
  lemma {:induction false} CleanPackets(items: seq<Item>, calls: seq<Call>, cut: seq<Byte>)
    requires Wrote(items, calls) && Clean(calls) && NoOversize(items) && cut <= Emitted(calls)
    ensures PacketsIn(Emitted(calls)) == PacketsCompleted(items, calls)
    ensures PacketsIn(cut) <= PacketsCompleted(items, calls)
  {
    CleanReceived(items, calls);
    CompletedFit(items, calls);
    AllDeliverable(Completed(items, calls));
    var more := Emitted(calls)[|cut|..];
    assert cut + more == Emitted(calls);
    ReceiveAllMonotone(cut, more);
    Packet.DecodeAllPrefix(ReceiveAll(cut).bodies, ReceiveAll(Emitted(calls)).bodies);
  }

  // ---------------------------------------------------------------- a packet behind a torn one

  function WireOf(p: Packet.MasquePacket): (s: seq<Byte>)
    requires FitsCapsule(p)
  {
    WireItem(Body(Packet.Encode(p)))
  }

  /** The layout: kind, a length of two or four bytes, context ID zero, the packet. */
  lemma {:induction false} WireLayout(p: Packet.MasquePacket)
    requires FitsCapsule(p)
    ensures var n := |Packet.Encode(p)| + 1;
            && 66 <= n <= MAX_CAPSULE
            && WireOf(p) == [0] + EncodeAt(n, if n < 16384 then 2 else 4) + [0] + Packet.Encode(p)
  {
    var b := Varint.Encode(0) + Packet.Encode(p);
    OneByte();
    Radices();
    assert ShortestWidth(|b|) == if |b| < 16384 then 2 else 4;
    assert b == [0] + Packet.Encode(p);
  }

  lemma {:induction false} OneByte()
    ensures ShortestWidth(0) == 1 && EncodeAt(0, 1) == [0]
  {
    assert PutBigEndian(0, 1) == PutBigEndian(0, 0) + [0];
  }

  lemma {:induction false} TwoBytes(n: nat)
    requires n < 16384
    ensures Fits(n, 2) && EncodeAt(n, 2) == [64 + n / 256, n % 256]
  {
    Radices();
    assert PutBigEndian(n / 256, 1) == PutBigEndian(n / 256 / 256, 0) + [n / 256 % 256];
    assert PutBigEndian(n, 2) == [n / 256, n % 256];
  }

  lemma {:induction false} FourBytes(n: nat)
    requires n <= MAX_CAPSULE
    ensures Fits(n, 4) && EncodeAt(n, 4) == [128, n / 65536, n / 256 % 256, n % 256]
  {
    Radices();
    var a, b, c := n / 256, n / 65536, n / 16777216;
    assert c == 0 && a / 256 == b && b / 256 == c;
    assert PutBigEndian(c, 1) == PutBigEndian(0, 0) + [0];
    assert PutBigEndian(b, 2) == [0] + [b % 256];
    assert PutBigEndian(a, 3) == [0, b % 256] + [a % 256];
    assert PutBigEndian(n, 4) == [0, b % 256, a % 256] + [n % 256];
  }

  /** What a varint makes of its bytes. */
  lemma {:induction false} DecodeBytes(s: seq<Byte>)
    requires s != [] && s[0] < 192
    ensures s[0] < 64 ==> Decode(s) == Got(s[0], s[1..])
    ensures 64 <= s[0] < 128 && |s| >= 2 ==> Decode(s) == Got((s[0] as int - 64) * 256 + s[1], s[2..])
    ensures 128 <= s[0] && |s| >= 4 ==>
              Decode(s) == Got((s[0] as int - 128) * 16777216 + s[1] as int * 65536 + s[2] as int * 256 + s[3], s[4..])
  {
    Radices();
    if s[0] < 64 {
      assert s[1..1] == [];
    } else if s[0] < 128 {
      if |s| >= 2 {
        assert s[1..2] == [s[1]];
        assert s[1..2][..0] == [];
      }
    } else if |s| >= 4 {
      var t := s[1..4];
      assert t[..2][..1] == [s[1]] && t[..1][..0] == [] && t[..2] == [s[1], s[2]];
      assert BigEndian(t[..1]) == s[1];
      assert BigEndian(t[..2]) == s[1] as int * 256 + s[2];
    }
  }

  /** The next datagram when its kind byte and its length are known. */
  lemma {:induction false} NextKnown(s: seq<Byte>, n: nat, v: seq<Byte>)
    requires s != [] && s[0] == 0 && Decode(s[1..]) == Got(n, v)
    ensures n > MAX_CAPSULE || |v| < n ==> NextDatagram(s).Fail?
    ensures n <= |v| && n <= MAX_CAPSULE ==> NextDatagram(s) == Got(v[..n], v[n..])
  {
    DecodeBytes(s);
  }

  lemma {:induction false} BodyIsShorter(s: seq<Byte>)
    requires NextBody(s).Got?
    ensures |NextBody(s).value| < |s|
    decreases |s|
  {
    var d := NextDatagram(s);
    DatagramIsShorter(s);
    if Decode(d.value).value != 0 { BodyIsShorter(d.rest); }
  }

  lemma {:induction false} DatagramIsShorter(s: seq<Byte>)
    requires NextDatagram(s).Got?
    ensures |NextDatagram(s).value| < |s|
    decreases |s|
  {
    var c := NextCapsule(s);
    if c.value.kind != DATAGRAM { DatagramIsShorter(c.rest); }
  }

  /** Nothing of length m comes next. */
  predicate NotNext(s: seq<Byte>, m: nat) { NextBody(s).Fail? || |NextBody(s).value| != m }

  /** Torn behind its length: the receiver waits for a datagram of the torn packet's own size. */
  lemma {:induction false} TornInValue(n: nat, w: nat, v: seq<Byte>, m: nat)
    requires Fits(n, w) && v != [] && v[0] == 0 && m != n - 1 && 0 < n <= MAX_CAPSULE
    ensures NotNext([0] + EncodeAt(n, w) + v, m)
  {
    var s := [0] + EncodeAt(n, w) + v;
    assert s[1..] == EncodeAt(n, w) + v;
    DecodeEncode(n, w, v);
    NextKnown(s, n, v);
    if n <= |v| {
      DecodeBytes(v[..n]);
    }
  }

  /** The packet that shows the damage: it has the keys of the torn one, another size, and a small one. */
  function Probe(q: Packet.MasquePacket): (p: Packet.MasquePacket)
    ensures FitsCapsule(p) && |Packet.Encode(p)| != |Packet.Encode(q)| && 65 <= |Packet.Encode(p)| <= 66
  {
    Packet.MasquePacket(q.src, q.dst, if q.payload == [] then [0] else [])
  }

  /** A small packet on the wire: kind 0, length 64 + (0 or 0), then value. */
  lemma {:induction false} SmallWire(p: Packet.MasquePacket)
    requires FitsCapsule(p) && |Packet.Encode(p)| <= 66
    ensures var n := |Packet.Encode(p)| + 1; WireOf(p) == [0, 64, n, 0] + Packet.Encode(p)
  {
    WireLayout(p);
    TwoBytes(|Packet.Encode(p)| + 1);
  }

  /** Torn behind its kind byte: the next kind byte is read as length zero, an empty datagram has no
      context ID. */
  lemma {:induction false} TornAtLength(w: seq<Byte>, m: nat)
    requires w != [] && w[0] == 0
    ensures NotNext([0] + w, m)
  {
    var s := [0] + w;
    assert s[1..] == w;
    DecodeBytes(w);
    NextKnown(s, 0, w[1..]);
  }

  /** Torn inside a two-byte length: the next kind byte is read as its low byte. */
  lemma {:induction false} TornInTwo(n: nat, w: seq<Byte>, m: nat)
    requires n < 16384 && w != [] && w[0] == 0 && |w| <= 70
    ensures NotNext([0, 64 + n / 256] + w, m)
  {
    var s, h := [0, 64 + n / 256] + w, n / 256;
    var t := s[1..];
    assert t[0] == 64 + h && t[1] == 0;
    DecodeBytes(t);
    NextKnown(s, h * 256, t[2..]);
    assert h == 0 || h * 256 > |t[2..]|;
  }

  /** Torn inside a four-byte length, after one, two or three of its bytes. */
  lemma {:induction false} TornAfterOne(head: seq<Byte>, x: nat, p: seq<Byte>)
    requires |head| == 1 && head[0] == 128 && 66 <= x <= 67 && |p| == x - 1
    ensures NotNext([0] + head + ([0, 64, x, 0] + p), |p|)
  {
    var s := [0] + head + ([0, 64, x, 0] + p);
    var t := s[1..];
    assert t[0] == 128 && t[1] == 0 && t[2] == 64 && t[3] == x;
    DecodeBytes(t);
    NextKnown(s, 16384 + x, t[4..]);
  }

  lemma {:induction false} TornAfterTwo(head: seq<Byte>, x: nat, p: seq<Byte>)
    requires |head| == 2 && head[0] == 128 && head[1] <= 1 && 66 <= x <= 67 && |p| == x - 1
    ensures NotNext([0] + head + ([0, 64, x, 0] + p), |p|)
  {
    var s := [0] + head + ([0, 64, x, 0] + p);
    var t := s[1..];
    assert t[0] == 128 && t[1] == head[1] && t[2] == 0 && t[3] == 64;
    DecodeBytes(t);
    NextKnown(s, head[1] as int * 65536 + 64, t[4..]);
    if head[1] == 0 { TornAndSkipped(s, t[4..], x); }
  }

  lemma {:induction false} TornAfterThree(head: seq<Byte>, x: nat, p: seq<Byte>)
    requires |head| == 3 && head[0] == 128 && head[1] <= 1 && (head[1] == 1 || head[2] >= 64) && 66 <= x <= 67
    requires |p| == x - 1
    ensures NotNext([0] + head + ([0, 64, x, 0] + p), |p|)
  {
    var s := [0] + head + ([0, 64, x, 0] + p);
    var t := s[1..];
    assert t[0] == 128 && t[1] == head[1] && t[2] == head[2] && t[3] == 0;
    DecodeBytes(t);
    NextKnown(s, head[1] as int * 65536 + head[2] as int * 256, t[4..]);
  }

  /** The one case in which the mixture is taken for a datagram of another context. */
  lemma {:induction false} TornAndSkipped(s: seq<Byte>, v: seq<Byte>, x: nat)
    requires 66 <= x <= 67 && |v| == x + 1 && v[0] == x && v[1] == 0
    requires NextDatagram(s) == Got(v[..64], v[64..])
    ensures NotNext(s, x - 1)
  {
    DecodeBytes(v[..64]);
    assert Decode(v[..64]).value == (x - 64) * 256;
    if NextBody(s).Got? {
      BodyIsShorter(v[64..]);
    }
  }

  lemma {:induction false} CutBehindLength(len: seq<Byte>, body: seq<Byte>, k: nat, w: seq<Byte>)
    requires |len| < k <= 1 + |len| + |body|
    ensures ([0] + len + [0] + body)[..k] + w == [0] + len + (([0] + body)[..k - 1 - |len|] + w)
  {
    assert [0] + len + [0] + body == ([0] + len) + ([0] + body);
  }

  lemma {:induction false} CutInLength(len: seq<Byte>, body: seq<Byte>, k: nat)
    requires 0 < k <= |len|
    ensures ([0] + len + [0] + body)[..k] == [0] + len[..k - 1]
  {
  }

  /** The two kinds of cut: behind the length, or in it. */
  lemma {:induction false} TornSmall(n: nat, body: seq<Byte>, k: nat, w: seq<Byte>, m: nat)
    requires n == |body| + 1 && 0 < n < 16384 && w != [] && w[0] == 0 && |w| <= 70 && m != |body| && Fits(n, 2)
    requires 0 < k < 1 + 2 + n
    ensures NotNext(([0] + EncodeAt(n, 2) + [0] + body)[..k] + w, m)
  {
    var len := EncodeAt(n, 2);
    TwoBytes(n);
    if k > 2 {
      CutBehindLength(len, body, k, w);
      TornInValue(n, 2, ([0] + body)[..k - 3] + w, m);
    } else {
      CutInLength(len, body, k);
      if k == 1 {
        assert [0] + len[..0] == [0];
        TornAtLength(w, m);
      } else {
        assert [0] + len[..1] == [0, 64 + n / 256];
        TornInTwo(n, w, m);
      }
    }
  }

  lemma {:induction false} TornLarge(n: nat, body: seq<Byte>, k: nat, x: nat, p: seq<Byte>)
    requires n == |body| + 1 && 16384 <= n <= MAX_CAPSULE && 66 <= x <= 67 && |p| == x - 1 && Fits(n, 4)
    requires 0 < k < 1 + 4 + n
    ensures NotNext(([0] + EncodeAt(n, 4) + [0] + body)[..k] + ([0, 64, x, 0] + p), |p|)
  {
    if k > 4 {
      TornBehindFour(n, body, k, [0, 64, x, 0] + p, |p|);
    } else {
      FourBytes(n);
      CutInLength(EncodeAt(n, 4), body, k);
      TornLengthFour(EncodeAt(n, 4)[..k - 1], x, p);
    }
  }

  lemma {:induction false} TornBehindFour(n: nat, body: seq<Byte>, k: nat, w: seq<Byte>, m: nat)
    requires n == |body| + 1 && 0 < n <= MAX_CAPSULE && Fits(n, 4) && 4 < k < 1 + 4 + n && w != []
    requires w[0] == 0 && m != |body|
    ensures NotNext(([0] + EncodeAt(n, 4) + [0] + body)[..k] + w, m)
  {
    CutBehindLength(EncodeAt(n, 4), body, k, w);
    TornInValue(n, 4, ([0] + body)[..k - 5] + w, m);
  }

  lemma {:induction false} TornLengthFour(head: seq<Byte>, x: nat, p: seq<Byte>)
    requires |head| <= 3 && 66 <= x <= 67 && |p| == x - 1 && (|head| > 0 ==> head[0] == 128)
    requires (|head| > 1 ==> head[1] <= 1) && (|head| > 2 ==> head[1] == 1 || head[2] >= 64)
    ensures NotNext([0] + head + ([0, 64, x, 0] + p), |p|)
  {
    if head == [] {
      assert [0] + head == [0];
      TornAtLength([0, 64, x, 0] + p, |p|);
    } else {
      TornInFour(head, x, p);
    }
  }

  lemma {:induction false} TornInFour(head: seq<Byte>, x: nat, p: seq<Byte>)
    requires 1 <= |head| <= 3 && 66 <= x <= 67 && |p| == x - 1
    requires head[0] == 128 && (|head| > 1 ==> head[1] <= 1) && (|head| > 2 ==> head[1] == 1 || head[2] >= 64)
    ensures NotNext([0] + head + ([0, 64, x, 0] + p), |p|)
  {
    if |head| == 1 {
      TornAfterOne(head, x, p);
    } else if |head| == 2 {
      TornAfterTwo(head, x, p);
    } else {
      TornAfterThree(head, x, p);
    }
  }

  /** Wherever a packet is torn, the probe behind it is not received as itself. */
  lemma {:induction false} TornThenProbe(q: Packet.MasquePacket, k: nat)
    requires FitsCapsule(q) && 0 < k < |WireOf(q)|
    ensures ReceiveAll(WireOf(q)[..k] + WireOf(Probe(q))).bodies != [Packet.Encode(Probe(q))]
  {
    var p, body := Packet.Encode(Probe(q)), Packet.Encode(q);
    SmallWire(Probe(q));
    WireLayout(q);
    TornLayout(|body| + 1, body, k, WireOf(q), |p| + 1, p, WireOf(Probe(q)));
    NotReceived(WireOf(q)[..k] + WireOf(Probe(q)), p);
  }

  /** The two widths of the length, given the layout of both packets on the wire. */
  lemma {:induction false} TornLayout(n: nat, body: seq<Byte>, k: nat, torn: seq<Byte>, x: nat, p: seq<Byte>,
                                      w: seq<Byte>)
    requires n == |body| + 1 && 66 <= n <= MAX_CAPSULE && 66 <= x <= 67 && |p| == x - 1 && |p| != |body|
    requires Fits(n, if n < 16384 then 2 else 4) && torn == [0] + EncodeAt(n, if n < 16384 then 2 else 4) + [0] + body
    requires w == [0, 64, x, 0] + p && 0 < k < |torn|
    ensures NotNext(torn[..k] + w, |p|)
  {
    if n < 16384 {
      TornSmall(n, body, k, w, |p|);
    } else {
      TornLarge(n, body, k, x, p);
    }
  }

  lemma {:induction false} NotReceived(s: seq<Byte>, p: seq<Byte>)
    requires NotNext(s, |p|)
    ensures ReceiveAll(s).bodies != [p]
  {
    if NextBody(s).Got? {
      assert ReceiveAll(s).bodies[0] == NextBody(s).value;
    }
  }
  // ---------------------------------------------------------------- a datagram of two packets

  /** The packet that a receiver makes of n payload bytes of q and of the bytes written behind them. */
  function Mixed(q: Packet.MasquePacket, n: nat, w: seq<Byte>): (m: Packet.MasquePacket)
    requires n <= |q.payload| <= n + |w|
    ensures |m.payload| == |q.payload|
  {
    Packet.MasquePacket(q.src, q.dst, q.payload[..n] + w[..|q.payload| - n])
  }

  lemma {:induction false} MixedEncoding(q: Packet.MasquePacket, n: nat, w: seq<Byte>)
    requires n <= |q.payload| <= n + |w|
    ensures Packet.Encode(Mixed(q, n, w)) == Packet.Encode(q)[..Packet.HEADER_LEN + n] + w[..|q.payload| - n]
  {
    var head := [Packet.VERSION] + q.src + q.dst;
    assert Packet.Encode(q) == head + q.payload;
    assert (head + q.payload)[..|head| + n] == head + q.payload[..n];
    assert head + (q.payload[..n] + w[..|q.payload| - n]) == head + q.payload[..n] + w[..|q.payload| - n];
  }

  lemma {:induction false} MixedBytes(head: seq<Byte>, body: seq<Byte>, cut: nat, w: seq<Byte>)
    requires cut <= |body| <= cut + |w|
    ensures var r := |body| - cut;
            (head + body)[..|head| + cut] + w == head + (body[..cut] + w[..r]) + w[r..]
  {
    var r := |body| - cut;
    assert (head + body)[..|head| + cut] == head + body[..cut];
    assert w == w[..r] + w[r..];
  }

  /** A packet torn in its payload, with enough bytes written behind it: the receiver is handed a packet
      with the torn one's keys whose payload ends in those bytes, and goes on in the middle of them. */
  lemma {:induction false} TornMixes(q: Packet.MasquePacket, n: nat, w: seq<Byte>)
    requires FitsCapsule(q) && n <= |q.payload| <= n + |w|
    ensures var r := |q.payload| - n;
            && r <= |WireOf(q)|
            && ReceiveAll(WireOf(q)[..|WireOf(q)| - r] + w).bodies ==
               [Packet.Encode(Mixed(q, n, w))] + ReceiveAll(w[r..]).bodies
  {
    MixedWire(q, n, w);
    ReceiveItem(Body(Packet.Encode(Mixed(q, n, w))), w[|q.payload| - n..]);
  }

  lemma {:induction false} MixedWire(q: Packet.MasquePacket, n: nat, w: seq<Byte>)
    requires FitsCapsule(q) && n <= |q.payload| <= n + |w|
    ensures var r := |q.payload| - n;
            r <= |WireOf(q)| && WireOf(q)[..|WireOf(q)| - r] + w == WireOf(Mixed(q, n, w)) + w[r..]
  {
    var body := Packet.Encode(q);
    var len := |body| + 1;
    WireLayout(q);
    WireLayout(Mixed(q, n, w));
    MixedEncoding(q, n, w);
    MixedBytes([0] + EncodeAt(len, if len < 16384 then 2 else 4) + [0], body, Packet.HEADER_LEN + n, w);
  }

  // ---------------------------------------------------------------- exactly when the stream can go on

  lemma {:induction false} AheadAppend(it: Item, later: seq<seq<Byte>>, more: seq<seq<Byte>>)
    requires !Oversize(it)
    ensures Ahead(it, later + more) == Ahead(it, later) + more
  {
  }

  lemma {:induction false} EmittedHead(calls: seq<Call>, tail: seq<Byte>)
    requires calls != []
    ensures Emitted(calls) + tail == calls[0].sent + (Emitted(calls[1..]) + tail)
  {
  }

  /** One call in front, given up at once or completed. */
  lemma {:induction false} CompletedBodies(items: seq<Item>, calls: seq<Call>)
    requires |items| == |calls| && calls != [] && !Oversize(items[0])
    ensures BodiesOf(Completed(items, calls)) ==
            if Whole(calls[0]) then Ahead(items[0], BodiesOf(Completed(items[1..], calls[1..])))
            else BodiesOf(Completed(items[1..], calls[1..]))
  {
    var done := Completed(items[1..], calls[1..]);
    if Whole(calls[0]) {
      assert Completed(items, calls)[1..] == done;
    } else {
      assert Completed(items, calls) == done;
    }
  }

  /** Behind calls of which none was torn, what follows is received as it would be alone. */
  lemma {:induction false} ReceiveBehind(items: seq<Item>, calls: seq<Call>, tail: seq<Byte>)
    requires Wrote(items, calls) && NoneTorn(calls) && NoOversize(items)
    ensures ReceiveAll(Emitted(calls) + tail).bodies == BodiesOf(Completed(items, calls)) + ReceiveAll(tail).bodies
  {
    if calls == [] {
      ReceiveBehindNone(items, calls, tail);
    } else {
      NoOversizeHead(items);
      OthersWrote(items, calls);
      ReceiveBehind(items[1..], calls[1..], tail);
      ReceiveBehindOne(items, calls, tail);
    }
  }

  lemma {:induction false} ReceiveBehindNone(items: seq<Item>, calls: seq<Call>, tail: seq<Byte>)
    requires items == [] && calls == []
    ensures ReceiveAll(Emitted(calls) + tail).bodies == BodiesOf(Completed(items, calls)) + ReceiveAll(tail).bodies
  {
    assert Emitted(calls) + tail == tail;
  }

  lemma {:induction false} OthersWrote(items: seq<Item>, calls: seq<Call>)
    requires Wrote(items, calls) && calls != [] && NoneTorn(calls)
    ensures Wrote(items[1..], calls[1..]) && NoneTorn(calls[1..]) && !Torn(calls[0])
  {
  }

  lemma {:induction false} ReceiveBehindOne(items: seq<Item>, calls: seq<Call>, tail: seq<Byte>)
    requires Wrote(items, calls) && calls != [] && !Torn(calls[0]) && !Oversize(items[0])
    requires ReceiveAll(Emitted(calls[1..]) + tail).bodies ==
        BodiesOf(Completed(items[1..], calls[1..])) + ReceiveAll(tail).bodies
    ensures ReceiveAll(Emitted(calls) + tail).bodies == BodiesOf(Completed(items, calls)) + ReceiveAll(tail).bodies
  {
    EmittedHead(calls, tail);
    CompletedBodies(items, calls);
    OneInFront(items[0], calls[0], Emitted(calls[1..]) + tail, BodiesOf(Completed(items[1..], calls[1..])),
        ReceiveAll(tail).bodies);
  }

  lemma {:induction false} OneInFront(it: Item, c: Call, later: seq<Byte>, done: seq<seq<Byte>>, more: seq<seq<Byte>>)
    requires Sendable(it) && c.input == WireItem(it) && !Torn(c) && !Oversize(it)
    requires ReceiveAll(later).bodies == done + more
    ensures ReceiveAll(c.sent + later).bodies == (if Whole(c) then Ahead(it, done) else done) + more
  {
    if Whole(c) {
      ReceiveItem(it, later);
      AheadAppend(it, done, more);
    } else {
      assert c.sent + later == later;
    }
  }

  /** After the first m calls, packet p is written whole and received as itself, behind exactly the
      packets that were not given up. */
  ghost predicate Understood(items: seq<Item>, calls: seq<Call>, m: nat, p: Packet.MasquePacket)
    requires |items| == |calls| && m <= |calls| && FitsCapsule(p)
  {
    ReceiveAll(Emitted(calls[..m]) + WireOf(p)).bodies ==
        BodiesOf(Completed(items[..m], calls[..m])) + [Packet.Encode(p)]
  }

  ghost predicate AlwaysUnderstood(items: seq<Item>, calls: seq<Call>)
    requires |items| == |calls|
  {
    forall m: nat, p: Packet.MasquePacket :: m <= |calls| && FitsCapsule(p) ==> Understood(items, calls, m, p)
  }

  lemma {:induction false} WrotePrefix(items: seq<Item>, calls: seq<Call>, m: nat)
    requires Wrote(items, calls) && NoOversize(items) && m <= |calls|
    ensures Wrote(items[..m], calls[..m]) && NoOversize(items[..m])
  {
  }

  lemma {:induction false} UntornUnderstood(items: seq<Item>, calls: seq<Call>, m: nat, p: Packet.MasquePacket)
    requires Wrote(items, calls) && NoOversize(items) && NoneTorn(calls) && m <= |calls| && FitsCapsule(p)
    ensures Understood(items, calls, m, p)
  {
    WrotePrefix(items, calls, m);
    ReceiveBehind(items[..m], calls[..m], WireOf(p));
    ReceiveItem(Body(Packet.Encode(p)), []);
    assert WireOf(p) + [] == WireOf(p);
    assert Ahead(Body(Packet.Encode(p)), ReceiveAll([]).bodies) == [Packet.Encode(p)];
  }

  lemma {:induction false} CompletedAppend(items: seq<Item>, calls: seq<Call>, it: Item, c: Call)
    requires |items| == |calls|
    ensures Completed(items + [it], calls + [c]) == Completed(items, calls) + if Whole(c) then [it] else []
  {
    if calls == [] {
      assert items + [it] == [it] && calls + [c] == [c];
      assert Completed([it], [c]) == (if Whole(c) then [it] else []) + Completed([], []);
    } else {
      assert (items + [it])[1..] == items[1..] + [it] && (calls + [c])[1..] == calls[1..] + [c];
      CompletedAppend(items[1..], calls[1..], it, c);
    }
  }

  lemma {:induction false} PacketsFit(ps: seq<Packet.MasquePacket>)
    requires forall p :: p in ps ==> FitsCapsule(p)
    ensures NoOversize(Bodies(ps))
  {
    assert forall i :: 0 <= i < |ps| ==> ps[i] in ps;
  }

  lemma {:induction false} OneMore(items: seq<Item>, calls: seq<Call>, i: nat)
    requires |items| == |calls| && i < |calls|
    ensures Emitted(calls[..i + 1]) == Emitted(calls[..i]) + calls[i].sent
    ensures !Whole(calls[i]) ==> Completed(items[..i + 1], calls[..i + 1]) == Completed(items[..i], calls[..i])
  {
    assert items[..i + 1] == items[..i] + [items[i]] && calls[..i + 1] == calls[..i] + [calls[i]];
    EmittedAppend(calls[..i], calls[i]);
    CompletedAppend(items[..i], calls[..i], items[i], calls[i]);
  }

  lemma {:induction false} TornMisunderstood(ps: seq<Packet.MasquePacket>, calls: seq<Call>, i: nat)
    requires Wrote(Bodies(ps), calls) && (forall p :: p in ps ==> FitsCapsule(p)) && i < |calls|
    requires Torn(calls[i]) && NoneTorn(calls[..i])
    ensures !Understood(Bodies(ps), calls, i + 1, Probe(ps[i]))
  {
    assert ps[i] in ps;
    PacketsFit(ps);
    TornItem(Bodies(ps), calls, i, ps[i]);
  }

  lemma {:induction false} TornItem(items: seq<Item>, calls: seq<Call>, i: nat, q: Packet.MasquePacket)
    requires Wrote(items, calls) && NoOversize(items) && i < |calls|
    requires Torn(calls[i]) && NoneTorn(calls[..i])
    requires FitsCapsule(q) && items[i] == Body(Packet.Encode(q))
    ensures !Understood(items, calls, i + 1, Probe(q))
  {
    var p, sent := Probe(q), calls[i].sent;
    WrotePrefix(items, calls, i);
    OneMore(items, calls, i);
    assert calls[i].input == WireOf(q);
    assert sent == WireOf(q)[..|sent|];
    TornThenProbe(q, |sent|);
    Misread(items[..i], calls[..i], sent, WireOf(p), [Packet.Encode(p)]);
  }

  lemma {:induction false} Misread(items: seq<Item>, calls: seq<Call>, torn: seq<Byte>, w: seq<Byte>,
                                   wanted: seq<seq<Byte>>)
    requires Wrote(items, calls) && NoneTorn(calls) && NoOversize(items) && ReceiveAll(torn + w).bodies != wanted
    ensures ReceiveAll(Emitted(calls) + torn + w).bodies != BodiesOf(Completed(items, calls)) + wanted
  {
    ReceiveBehind(items, calls, torn + w);
    Regroup(Emitted(calls), torn, w);
    Cancel(BodiesOf(Completed(items, calls)), ReceiveAll(torn + w).bodies, wanted);
  }

  lemma {:induction false} Regroup(a: seq<Byte>, b: seq<Byte>, c: seq<Byte>)
    ensures a + (b + c) == a + b + c
  {
  }

  lemma {:induction false} Cancel<T>(a: seq<T>, b: seq<T>, c: seq<T>)
    requires b != c
    ensures a + b != a + c
  {
    assert (a + b)[|a|..] == b && (a + c)[|a|..] == c;
  }

  lemma {:induction false} FirstTorn(calls: seq<Call>) returns (i: nat)
    requires !NoneTorn(calls)
    ensures i < |calls| && Torn(calls[i]) && NoneTorn(calls[..i])
  {
    i := 0;
    while !Torn(calls[i])
      invariant i < |calls| && NoneTorn(calls[..i]) && exists j :: i <= j < |calls| && Torn(calls[j])
      decreases |calls| - i
    {
      i := i + 1;
    }
  }

  /** Whatever is written next is understood, at every point of the log and for every packet, exactly
      when no call was given up after its first chunk. */
  lemma {:induction false} UnderstoodExactly(ps: seq<Packet.MasquePacket>, calls: seq<Call>)
    requires Wrote(Bodies(ps), calls) && forall p :: p in ps ==> FitsCapsule(p)
    ensures AlwaysUnderstood(Bodies(ps), calls) <==> NoneTorn(calls)
  {
    var items := Bodies(ps);
    if NoneTorn(calls) {
      PacketsFit(ps);
      forall m: nat, p: Packet.MasquePacket | m <= |calls| && FitsCapsule(p) ensures Understood(items, calls, m, p) {
        UntornUnderstood(items, calls, m, p);
      }
    } else {
      var i := FirstTorn(calls);
      TornMisunderstood(ps, calls, i);
    }
  }

  /** Some later call put bytes into frames. */
  ghost predicate WentOn(calls: seq<Call>, m: nat) { exists j :: m <= j < |calls| && calls[j].sent != [] }

  /** Wherever the writer went on, the receiver would have understood any packet. */
  ghost predicate UnderstoodOn(items: seq<Item>, calls: seq<Call>)
    requires |items| == |calls|
  {
    forall m: nat, p: Packet.MasquePacket :: m <= |calls| && FitsCapsule(p) && WentOn(calls, m) ==>
        Understood(items, calls, m, p)
  }

  lemma {:induction false} PrefixUnderstood(items: seq<Item>, calls: seq<Call>, m: nat, p: Packet.MasquePacket)
    requires Wrote(items, calls) && NoOversize(items) && m <= |calls| && NoneTorn(calls[..m]) && FitsCapsule(p)
    ensures Understood(items, calls, m, p)
  {
    WrotePrefix(items, calls, m);
    UntornUnderstood(items[..m], calls[..m], m, p);
    assert items[..m][..m] == items[..m] && calls[..m][..m] == calls[..m];
  }

  lemma {:induction false} CleanGoesOn(items: seq<Item>, calls: seq<Call>, m: nat, p: Packet.MasquePacket)
    requires Wrote(items, calls) && NoOversize(items) && Clean(calls) && m <= |calls| && FitsCapsule(p)
    requires WentOn(calls, m)
    ensures Understood(items, calls, m, p)
  {
    UntornBefore(calls, m);
    PrefixUnderstood(items, calls, m, p);
  }

  lemma {:induction false} UntornBefore(calls: seq<Call>, m: nat)
    requires Clean(calls) && m <= |calls| && WentOn(calls, m)
    ensures NoneTorn(calls[..m])
  {
    var j :| m <= j < |calls| && calls[j].sent != [];
    assert forall i :: 0 <= i < m ==> calls[..m][i] == calls[i];
  }

  lemma {:induction false} FirstFollowed(calls: seq<Call>) returns (k: nat)
    requires !Clean(calls)
    ensures k < |calls| && Torn(calls[k]) && NoneTorn(calls[..k]) && WentOn(calls, k + 1)
  {
    var i, j :| 0 <= i < j < |calls| && Torn(calls[i]) && calls[j].sent != [];
    k := FirstTorn(calls);
    assert forall h :: 0 <= h < k ==> calls[..k][h] == calls[h];
  }

  /** The stream stays understandable wherever the writer goes on, exactly when no call was given up after
      its first chunk and followed by another write. */
  lemma {:induction false} CleanExactly(ps: seq<Packet.MasquePacket>, calls: seq<Call>)
    requires Wrote(Bodies(ps), calls) && forall p :: p in ps ==> FitsCapsule(p)
    ensures UnderstoodOn(Bodies(ps), calls) <==> Clean(calls)
  {
    PacketsFit(ps);
    if Clean(calls) {
      forall m: nat, p: Packet.MasquePacket | m <= |calls| && FitsCapsule(p) && WentOn(calls, m)
        ensures Understood(Bodies(ps), calls, m, p)
      {
        CleanGoesOn(Bodies(ps), calls, m, p);
      }
    } else {
      var k := FirstFollowed(calls);
      TornMisunderstood(ps, calls, k);
    }
  }

  // ---------------------------------------------------------------- by accident

  /** A packet whose bytes repeat the header of a torn one. */
  function Digit(i: nat): (b: Byte) {
    if i % 5 == 0 then 1 else if i % 5 == 2 then 64 else if i % 5 == 3 then 66 else 0
  }

  function Digits(from: nat, n: nat): (s: seq<Byte>)
    ensures |s| == n && forall i :: 0 <= i < n ==> s[i] == Digit(from + i)
  {
    if n == 0 then [] else Digits(from, n - 1) + [Digit(from + n - 1)]
  }

  function Lucky(): (p: Packet.MasquePacket)
    ensures FitsCapsule(p) && Packet.Encode(p) == Digits(0, 65)
  {
    var s := Digits(0, 65);
    Packet.DecodedIffEncoded(s, Packet.Decode(s).packet);
    Packet.Decode(s).packet
  }

  /** An empty capsule of an unknown kind is skipped. */
  lemma {:induction false} SkipEmpty(kind: nat, w: nat, tail: seq<Byte>)
    requires 0 < kind && Fits(kind, w)
    ensures NextDatagram(EncodeAt(kind, w) + [0] + tail) == NextDatagram(tail)
  {
    OneByte();
    Radices();
    NextOfCapsule(kind, w, 1, [], tail);
    assert CapsuleBytes(kind, w, 1, []) == EncodeAt(kind, w) + [0];
  }

  lemma {:induction false} TwoSkipped(s: seq<Byte>, t: seq<Byte>)
    requires Fits(1, 1) && Fits(66, 2)
    requires s == EncodeAt(1, 1) + [0] + t && t == EncodeAt(66, 2) + [0] + []
    ensures ReceiveAll(s).bodies == []
  {
    SkipEmpty(1, 1, t);
    SkipEmpty(66, 2, []);
    NothingLeft([]);
  }

  lemma {:induction false} NothingLeft(s: seq<Byte>)
    requires s == []
    ensures NextDatagram(s).Fail?
  {
  }

  lemma {:induction false} LeftoverBytes()
    ensures Fits(1, 1) && Fits(66, 2) && EncodeAt(1, 1) == [1] && EncodeAt(66, 2) == [64, 66]
  {
    Radices();
    assert PutBigEndian(1, 1) == PutBigEndian(0, 0) + [1];
    TwoBytes(66);
  }

  lemma {:induction false} EmittedTwo(a: Call, b: Call)
    ensures Emitted([a, b]) == a.sent + b.sent
  {
    EmittedAppend([a], b);
    EmittedAppend([], a);
    assert [a] + [b] == [a, b] && [] + [a] == [a];
  }

  /** No condition on the schedule alone can decide what one given stream yields: a packet torn after its
      first byte and completed by this one is received as this one. */
  lemma {:induction false} TornMayLookWhole(q: Packet.MasquePacket, p: Packet.MasquePacket)
    requires q.payload == [] && p == Lucky()
    ensures var calls := [Call(WireOf(q), WireOf(q)[..5]), Call(WireOf(p), WireOf(p))];
            !Clean(calls) && ReceiveAll(Emitted(calls)).bodies == [Packet.Encode(p)]
  {
    var torn, w, tail := WireOf(q)[..5], WireOf(p), [1, 0, 64, 66, 0];
    CutAtFive(q);
    SmallWire(p);
    LuckyPair(Packet.Encode(p), torn, w, tail);
    EmittedTwo(Call(WireOf(q), torn), Call(w, w));
    NotClean(Call(WireOf(q), torn), Call(w, w));
  }

  lemma {:induction false} CutAtFive(q: Packet.MasquePacket)
    requires q.payload == []
    ensures |WireOf(q)| == 69 && WireOf(q)[..5] == [0, 64, 66, 0, 1]
  {
    SmallWire(q);
  }

  lemma {:induction false} NotClean(a: Call, b: Call)
    requires Torn(a) && b.sent != []
    ensures !Clean([a, b])
  {
    assert Torn([a, b][0]) && [a, b][1].sent != [];
  }

  lemma {:induction false} LuckyPair(p: seq<Byte>, torn: seq<Byte>, w: seq<Byte>, tail: seq<Byte>)
    requires p == Digits(0, 65) && Sendable(Body(p)) && w == WireItem(Body(p)) == [0, 64, 66, 0] + p
    requires torn == [0, 64, 66, 0, 1] && tail == [1, 0, 64, 66, 0]
    ensures ReceiveAll(torn + w).bodies == [p]
  {
    LuckyBytes(p, tail);
    Leftover(tail);
    LuckyReceived(p, torn, w, tail);
  }

  lemma {:induction false} Leftover(tail: seq<Byte>)
    requires tail == [1, 0, 64, 66, 0]
    ensures ReceiveAll(tail).bodies == []
  {
    LeftoverBytes();
    TwoSkipped(tail, tail[2..]);
  }

  lemma {:induction false} LuckyReceived(p: seq<Byte>, torn: seq<Byte>, w: seq<Byte>, tail: seq<Byte>)
    requires Sendable(Body(p)) && !Oversize(Body(p)) && torn + w == WireItem(Body(p)) + tail
    requires ReceiveAll(tail).bodies == []
    ensures ReceiveAll(torn + w).bodies == [p]
  {
    ReceiveItem(Body(p), tail);
  }

  lemma {:induction false} LuckyBytes(p: seq<Byte>, tail: seq<Byte>)
    requires p == Digits(0, 65) && tail == [1, 0, 64, 66, 0]
    ensures [0, 64, 66, 0, 1] + ([0, 64, 66, 0] + p) == [0, 64, 66, 0] + p + tail
  {
    var a, b := [0, 64, 66, 0, 1] + ([0, 64, 66, 0] + p), [0, 64, 66, 0] + p + tail;
    forall i | 0 <= i < 74 ensures a[i] == b[i] {
      if 9 <= i < 69 {
        assert a[i] == p[i - 9] && b[i] == p[i - 4];
      }
    }
  }
}
