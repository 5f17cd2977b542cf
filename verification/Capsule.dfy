/** Capsules on the HTTP/2 request stream (sections 3.2 and 3.5 of RFC 9297) and the context IDs
    inside their datagrams (section 5 of RFC 9298): a byte stream that refines a list of datagrams. */
module Capsule {
  import opened Bytes
  import opened Varint
  import Packet

  const DATAGRAM := 0
  const MAX_CAPSULE := 65536
  const READ_BUFFER := 65536

  /** One capsule: type, length, value. The widths are the sender's choice. */
  function CapsuleBytes(kind: nat, kindWidth: nat, lenWidth: nat, value: seq<Byte>): (s: seq<Byte>)
    requires Fits(kind, kindWidth) && Fits(|value|, lenWidth)
  {
    EncodeAt(kind, kindWidth) + EncodeAt(|value|, lenWidth) + value
  }

  /** What SendDatagram writes. */
  function DatagramCapsule(b: seq<Byte>): (s: seq<Byte>)
    requires |b| < LIMIT
  {
    CapsuleBytes(DATAGRAM, ShortestWidth(DATAGRAM), ShortestWidth(|b|), b)
  }

  datatype Capsule = Capsule(kind: nat, value: seq<Byte>)

  /** One capsule off the front: the type, a length within the limit, and then the value in full. */
  function NextCapsule(s: seq<Byte>): (r: Read<Capsule>)
    ensures r.Got? ==> |r.rest| < |s| && |r.value.value| <= MAX_CAPSULE
  {
    match Decode(s)
    case Fail(e, rest) => Fail(e, rest)
    case Got(kind, s1) =>
      match Decode(s1)
      case Fail(e, rest) => Fail(e, rest)
      case Got(n, s2) =>
        if n > MAX_CAPSULE then Fail(TooLarge, s2)
        else if |s2| < n then Fail(if kind == DATAGRAM then Short(s2) else Eof, [])
        else Got(Capsule(kind, s2[..n]), s2[n..])
  }

  /** ReceiveDatagram: skip unknown capsules, stop at the first DATAGRAM capsule. */
  function NextDatagram(s: seq<Byte>): (r: Read<seq<Byte>>)
    ensures r.Got? ==> |r.rest| < |s| && |r.value| <= MAX_CAPSULE
    decreases |s|
  {
    match NextCapsule(s)
    case Fail(e, rest) => Fail(e, rest)
    case Got(c, rest) => if c.kind != DATAGRAM then NextDatagram(rest) else Got(c.value, rest)
  }

  /** receiveStreamDatagram: skip datagrams of other contexts, strip context ID zero. */
  function NextBody(s: seq<Byte>): (r: Read<seq<Byte>>)
    ensures r.Got? ==> |r.rest| < |s|
    decreases |s|
  {
    match NextDatagram(s)
    case Fail(e, rest) => Fail(e, rest)
    case Got(b, rest) =>
      match Decode(b)
      case Fail(_, _) => Fail(Malformed, rest)
      case Got(context, body) => if context != 0 then NextBody(rest) else Got(body, rest)
  }

  /** Everything a receiver gets from a finished byte stream, and the error that ends it. */
  datatype Received = Received(bodies: seq<seq<Byte>>, error: Error)

  function ReceiveAll(s: seq<Byte>): (r: Received)
    decreases |s|
  {
    match NextBody(s)
    case Fail(e, _) => Received([], e)
    case Got(b, rest) => var tail := ReceiveAll(rest); Received([b] + tail.bodies, tail.error)
  }

  /** The read buffer of the receive loop holds every datagram body: ReadFrom never runs short. */
  lemma {:induction false} BodyFitsBuffer(s: seq<Byte>)
    requires NextBody(s).Got?
    ensures |NextBody(s).value| < READ_BUFFER
    decreases |s|
  {
    var d := NextDatagram(s);
    if Decode(d.value).value != 0 {
      BodyFitsBuffer(d.rest);
    }
  }

  // ---------------------------------------------------------------- prefixes

  lemma NextCapsuleExtend(s: seq<Byte>, more: seq<Byte>)
    requires NextCapsule(s).Got?
    ensures NextCapsule(s + more) == Got(NextCapsule(s).value, NextCapsule(s).rest + more)
  {
    var kind := Decode(s);
    DecodeExtend(s, more);
    var len := Decode(kind.rest);
    DecodeExtend(kind.rest, more);
    var n, s2 := len.value, len.rest;
    assert (s2 + more)[n..] == s2[n..] + more;
    assert (s2 + more)[..n] == s2[..n];
  }

  lemma {:induction false} NextDatagramExtend(s: seq<Byte>, more: seq<Byte>)
    requires NextDatagram(s).Got?
    ensures NextDatagram(s + more) == Got(NextDatagram(s).value, NextDatagram(s).rest + more)
    decreases |s|
  {
    NextCapsuleExtend(s, more);
    if NextCapsule(s).value.kind != DATAGRAM {
      NextDatagramExtend(NextCapsule(s).rest, more);
    }
  }

  lemma {:induction false} NextBodyExtend(s: seq<Byte>, more: seq<Byte>)
    requires NextBody(s).Got?
    ensures NextBody(s + more) == Got(NextBody(s).value, NextBody(s).rest + more)
    decreases |s|
  {
    var d := NextDatagram(s);
    NextDatagramExtend(s, more);
    if Decode(d.value).value != 0 {
      NextBodyExtend(d.rest, more);
    }
  }

  /** For every byte stream at all: what is received from a prefix is a prefix of what is received. */
  lemma {:induction false} ReceiveAllMonotone(s: seq<Byte>, more: seq<Byte>)
    ensures ReceiveAll(s).bodies <= ReceiveAll(s + more).bodies
    decreases |s|
  {
    if NextBody(s).Got? {
      NextBodyExtend(s, more);
      ReceiveAllMonotone(NextBody(s).rest, more);
    }
  }

  // ---------------------------------------------------------------- the sender's items

  /** What may be on the stream: packets of this program, capsules it does not know, datagrams of
      other contexts. The last two come from a peer that may use any varint width. */
  datatype Item =
    | Body(data: seq<Byte>)
    | Unknown(kind: nat, kindWidth: nat, lenWidth: nat, data: seq<Byte>)
    | OtherContext(context: nat, contextWidth: nat, kindWidth: nat, lenWidth: nat, data: seq<Byte>)

  ghost predicate Sendable(it: Item) {
    match it
    case Body(data) => |data| + 1 < LIMIT
    case Unknown(kind, kw, lw, data) => kind != DATAGRAM && Fits(kind, kw) && Fits(|data|, lw) && |data| <= MAX_CAPSULE
    case OtherContext(ctx, cw, kw, lw, data) =>
      ctx != 0 && Fits(ctx, cw) && Fits(DATAGRAM, kw) && Fits(cw + |data|, lw) && cw + |data| <= MAX_CAPSULE
  }

  /** WriteTo puts context ID zero in front of the packet and sends it as one datagram. */
  function WireItem(it: Item): (s: seq<Byte>)
    requires Sendable(it)
    ensures s != []
  {
    match it
    case Body(data) => DatagramCapsule(Varint.Encode(0) + data)
    case Unknown(kind, kw, lw, data) => CapsuleBytes(kind, kw, lw, data)
    case OtherContext(ctx, cw, kw, lw, data) => CapsuleBytes(DATAGRAM, kw, lw, EncodeAt(ctx, cw) + data)
  }

  ghost predicate AllSendable(items: seq<Item>) {
    forall i :: 0 <= i < |items| ==> Sendable(items[i])
  }

  function Wire(items: seq<Item>): (s: seq<Byte>)
    requires AllSendable(items)
  {
    if items == [] then [] else WireItem(items[0]) + Wire(items[1..])
  }

  /** A body that, with its one-byte context ID, exceeds the capsule limit: SendDatagram sends it
      all the same, and the receiver refuses it. */
  predicate Oversize(it: Item) { it.Body? && |it.data| + 1 > MAX_CAPSULE }

  /** What an item in front of others adds to, or takes from, what is delivered. */
  function Ahead(it: Item, later: seq<seq<Byte>>): (bodies: seq<seq<Byte>>) {
    if Oversize(it) then [] else if it.Body? then [it.data] + later else later
  }

  /** The bodies up to the first oversize one. */
  function Deliverable(items: seq<Item>): (bodies: seq<seq<Byte>>) {
    if items == [] then [] else Ahead(items[0], Deliverable(items[1..]))
  }

  predicate NoOversize(items: seq<Item>) { forall i :: 0 <= i < |items| ==> !Oversize(items[i]) }

  lemma NextOfCapsule(kind: nat, kw: nat, lw: nat, value: seq<Byte>, tail: seq<Byte>)
    requires Fits(kind, kw) && Fits(|value|, lw)
    ensures NextDatagram(CapsuleBytes(kind, kw, lw, value) + tail) ==
            if |value| > MAX_CAPSULE then Fail(TooLarge, value + tail)
            else if kind != DATAGRAM then NextDatagram(tail)
            else Got(value, tail)
  {
    var s2 := value + tail;
    var s1 := EncodeAt(|value|, lw) + s2;
    var s := CapsuleBytes(kind, kw, lw, value) + tail;
    assert s == EncodeAt(kind, kw) + s1;
    DecodeEncode(kind, kw, s1);
    DecodeEncode(|value|, lw, s2);
    assert s2[|value|..] == tail && s2[..|value|] == value;
  }

  lemma ContextZero(data: seq<Byte>)
    ensures Decode(Varint.Encode(0) + data) == Got(0, data) && |Varint.Encode(0)| == 1
  {
    DecodeEncode(0, 1, data);
  }

  /** One item in front of any bytes: a fitting body is the next one, an oversize body is an error,
      everything else is skipped. */
  lemma NextOfItem(it: Item, tail: seq<Byte>)
    requires Sendable(it)
    ensures var r := NextBody(WireItem(it) + tail);
            if Oversize(it) then r.Fail? && r.error == TooLarge
            else if it.Body? then r == Got(it.data, tail)
            else r == NextBody(tail)
  {
    match it
    case Body(data) =>
      ContextZero(data);
      var b := Varint.Encode(0) + data;
      NextOfCapsule(DATAGRAM, ShortestWidth(DATAGRAM), ShortestWidth(|b|), b, tail);
    case Unknown(kind, kw, lw, data) =>
      NextOfCapsule(kind, kw, lw, data, tail);
    case OtherContext(ctx, cw, kw, lw, data) =>
      var b := EncodeAt(ctx, cw) + data;
      DecodeEncode(ctx, cw, data);
      NextOfCapsule(DATAGRAM, kw, lw, b, tail);
  }

  /** The whole stream, for every list of items: exactly the bodies before the first oversize one,
      in order, and the error says whether there was one. */
  lemma {:induction false} ReceiveWire(items: seq<Item>)
    requires AllSendable(items)
    ensures ReceiveAll(Wire(items)).bodies == Deliverable(items)
    ensures ReceiveAll(Wire(items)).error == if NoOversize(items) then Eof else TooLarge
  {
    if items != [] {
      ReceiveItem(items[0], Wire(items[1..]));
      ReceiveWire(items[1..]);
      NoOversizeHead(items);
    }
  }

  lemma ReceiveItem(it: Item, tail: seq<Byte>)
    requires Sendable(it)
    ensures ReceiveAll(WireItem(it) + tail).bodies == Ahead(it, ReceiveAll(tail).bodies)
    ensures ReceiveAll(WireItem(it) + tail).error == if Oversize(it) then TooLarge else ReceiveAll(tail).error
  {
    NextOfItem(it, tail);
  }

  lemma NoOversizeHead(items: seq<Item>)
    requires items != []
    ensures NoOversize(items) <==> !Oversize(items[0]) && NoOversize(items[1..])
  {
    var rest := items[1..];
    assert forall i :: 0 <= i < |rest| ==> rest[i] == items[i + 1];
    assert forall i :: 0 < i < |items| ==> items[i] == rest[i - 1];
  }

  /** Cutting an item short yields nothing: never a partial datagram. */
  lemma CutItem(it: Item, k: nat)
    requires Sendable(it) && k < |WireItem(it)|
    ensures NextBody(WireItem(it)[..k]).Fail?
  {
    var s, more := WireItem(it)[..k], WireItem(it)[k..];
    assert s + more == WireItem(it) + [];
    NextOfItem(it, []);
    if NextBody(s).Got? {
      NextBodyExtend(s, more);
    }
  }

  /** The first `whole` items have arrived whole in the first k bytes, and no more. */
  ghost predicate ArrivedWhole(items: seq<Item>, k: nat, whole: nat)
    requires AllSendable(items)
  {
    && whole <= |items| && |Wire(items[..whole])| <= k
    && (whole < |items| ==> k < |Wire(items[..whole + 1])|)
  }

  /** The error of a capsule cut after k bytes: unexpected end of file where a read of several bytes got some
      of them, that is inside the rest of a varint or inside the value of a DATAGRAM capsule, and plain end of
      file everywhere else. */
  function CutError(kind: nat, kw: nat, lw: nat, k: nat): (e: Error) {
    if 1 < k < kw || kw + 1 < k < kw + lw || (kind == 0 && kw + lw < k) then UnexpectedEof else Eof
  }

  lemma {:induction false} VarintCut(v: nat, w: nat, k: nat)
    requires Fits(v, w) && k < w
    ensures Decode(EncodeAt(v, w)[..k]) == Fail(if k > 1 then UnexpectedEof else Eof, [])
  {
    var s := EncodeAt(v, w);
    if k > 0 {
      DecodeEncode(v, w, []);
      assert s + [] == s && s[..k][0] == s[0];
      RoomForTag(v, w);
      assert s[0] / 64 == Tag(w);
    }
  }

  /** A capsule cut anywhere ends the stream with exactly this error. */
  lemma {:induction false} CapsuleCut(kind: nat, kw: nat, lw: nat, value: seq<Byte>, k: nat)
    requires Fits(kind, kw) && Fits(|value|, lw) && |value| <= MAX_CAPSULE && k < kw + lw + |value|
    ensures NextDatagram(CapsuleBytes(kind, kw, lw, value)[..k]) == Fail(CutError(kind, kw, lw, k), [])
  {
    var a, b := EncodeAt(kind, kw), EncodeAt(|value|, lw);
    var s := CapsuleBytes(kind, kw, lw, value)[..k];
    if k < kw {
      assert s == a[..k];
      VarintCut(kind, kw, k);
    } else {
      assert s == a + (b + value)[..k - kw];
      DecodeEncode(kind, kw, (b + value)[..k - kw]);
      LengthCut(kind, kw, lw, value, k - kw);
    }
  }

  /** ... behind its type. */
  lemma {:induction false} LengthCut(kind: nat, kw: nat, lw: nat, value: seq<Byte>, j: nat)
    requires Fits(kind, kw) && Fits(|value|, lw) && |value| <= MAX_CAPSULE && j < lw + |value|
    requires var t := (EncodeAt(|value|, lw) + value)[..j]; Decode(EncodeAt(kind, kw) + t) == Got(kind, t)
    ensures var t := (EncodeAt(|value|, lw) + value)[..j];
            NextDatagram(EncodeAt(kind, kw) + t) == Fail(CutError(kind, kw, lw, kw + j), [])
  {
    var b := EncodeAt(|value|, lw);
    if j < lw {
      assert (b + value)[..j] == b[..j];
      VarintCut(|value|, lw, j);
    } else {
      assert (b + value)[..j] == b + value[..j - lw];
      DecodeEncode(|value|, lw, value[..j - lw]);
    }
  }

  /** A datagram without a whole context ID, empty or cut inside the varint, is malformed: an error, with the
      capsule consumed. */
  lemma {:induction false} ContextCut(kw: nat, lw: nat, value: seq<Byte>, tail: seq<Byte>)
    requires Fits(0, kw) && Fits(|value|, lw) && |value| <= MAX_CAPSULE
    requires value == [] ||
             |value| < (if value[0] < 64 then 1 else if value[0] < 128 then 2 else if value[0] < 192 then 4 else 8)
    ensures NextBody(CapsuleBytes(0, kw, lw, value) + tail) == Fail(Malformed, tail)
  {
    NextOfCapsule(0, kw, lw, value, tail);
  }

  /** The stream cut after any number of bytes: the receiver has exactly the deliverable bodies of
      the items that arrived whole. */
  lemma {:induction false} ReceiveCut(items: seq<Item>, k: nat) returns (whole: nat)
    requires AllSendable(items) && k <= |Wire(items)|
    ensures ArrivedWhole(items, k, whole)
    ensures ReceiveAll(Wire(items)[..k]).bodies == Deliverable(items[..whole])
  {
    if items == [] {
      whole := 0;
      assert items[..0] == [];
    } else if k < |WireItem(items[0])| {
      whole := 0;
      CutFirst(items, k);
    } else {
      whole := ReceiveCut(items[1..], k - |WireItem(items[0])|);
      WholeLater(items, k, whole);
      CutLater(items, k, whole);
      whole := whole + 1;
    }
  }

  lemma WholeLater(items: seq<Item>, k: nat, w: nat)
    requires AllSendable(items) && items != [] && |WireItem(items[0])| <= k
    requires ArrivedWhole(items[1..], k - |WireItem(items[0])|, w)
    ensures ArrivedWhole(items, k, w + 1)
  {
    WireHead(items, w + 1);
    if w + 1 < |items| { WireHead(items, w + 2); }
  }

  lemma CutFirst(items: seq<Item>, k: nat)
    requires AllSendable(items) && items != [] && k < |WireItem(items[0])|
    ensures ReceiveAll(Wire(items)[..k]).bodies == [] == Deliverable(items[..0]) && ArrivedWhole(items, k, 0)
  {
    WireHead(items, 1);
    assert Wire(items)[..k] == WireItem(items[0])[..k];
    CutItem(items[0], k);
  }

  lemma CutLater(items: seq<Item>, k: nat, w: nat)
    requires AllSendable(items) && items != [] && w <= |items| - 1
    requires |WireItem(items[0])| <= k <= |Wire(items)|
    requires ReceiveAll(Wire(items[1..])[..k - |WireItem(items[0])|]).bodies == Deliverable(items[1..][..w])
    ensures ReceiveAll(Wire(items)[..k]).bodies == Deliverable(items[..w + 1])
  {
    var it := items[0];
    var tail := Wire(items[1..])[..k - |WireItem(it)|];
    assert Wire(items)[..k] == WireItem(it) + tail by { CutSum(WireItem(it), Wire(items[1..]), k); }
    DeliverableHead(items, w + 1);
    ReceiveItem(it, tail);
  }

  lemma CutSum(a: seq<Byte>, b: seq<Byte>, k: nat)
    requires |a| <= k <= |a| + |b|
    ensures (a + b)[..k] == a + b[..k - |a|]
  {
  }

  lemma DeliverableHead(items: seq<Item>, n: nat)
    requires 0 < n <= |items|
    ensures Deliverable(items[..n]) == Ahead(items[0], Deliverable(items[1..][..n - 1]))
  {
    assert items[..n][1..] == items[1..][..n - 1];
  }

  lemma WireHead(items: seq<Item>, n: nat)
    requires AllSendable(items) && 0 < n <= |items|
    ensures Wire(items[..n]) == WireItem(items[0]) + Wire(items[1..][..n - 1])
    ensures items[..n][0] == items[0] && items[..n][1..] == items[1..][..n - 1]
  {
    assert items[..n][1..] == items[1..][..n - 1];
  }

  // ---------------------------------------------------------------- packets

  function Bodies(ps: seq<Packet.MasquePacket>): (items: seq<Item>)
    ensures |items| == |ps|
    ensures forall i :: 0 <= i < |ps| ==> items[i] == Body(Packet.Encode(ps[i]))
  {
    if ps == [] then [] else [Body(Packet.Encode(ps[0]))] + Bodies(ps[1..])
  }

  /** The items of interest, in order; the rest of `items` is noise the receiver must skip. */
  function OnlyBodies(items: seq<Item>): (r: seq<Item>) {
    if items == [] then [] else (if items[0].Body? then [items[0]] else []) + OnlyBodies(items[1..])
  }

  /** A packet fits one capsule exactly when payload, header and context ID stay within the limit. */
  predicate FitsCapsule(p: Packet.MasquePacket) { |p.payload| + Packet.HEADER_LEN + 1 <= MAX_CAPSULE }

  lemma {:induction false} DeliverablePackets(items: seq<Item>, ps: seq<Packet.MasquePacket>)
    requires OnlyBodies(items) == Bodies(ps)
    requires forall p :: p in ps ==> FitsCapsule(p)
    ensures NoOversize(items) && Deliverable(items) == Packet.EncodeAll(ps)
  {
    if items != [] {
      if items[0].Body? {
        assert OnlyBodies(items)[0] == items[0] && OnlyBodies(items)[1..] == OnlyBodies(items[1..]);
        assert Bodies(ps)[1..] == Bodies(ps[1..]);
        assert ps[0] in ps;
        DeliverablePackets(items[1..], ps[1..]);
      } else {
        assert OnlyBodies(items) == OnlyBodies(items[1..]);
        DeliverablePackets(items[1..], ps);
      }
    }
  }

  /** Every list of packets that fit, interleaved with any unknown capsules and foreign contexts, is
      received as exactly that list, in order. */
  lemma PacketsReceived(items: seq<Item>, ps: seq<Packet.MasquePacket>)
    requires AllSendable(items) && OnlyBodies(items) == Bodies(ps)
    requires forall p :: p in ps ==> FitsCapsule(p)
    ensures Packet.DecodeAll(ReceiveAll(Wire(items)).bodies) == ps
    ensures ReceiveAll(Wire(items)).error == Eof
  {
    DeliverablePackets(items, ps);
    ReceiveWire(items);
    Packet.DecodeEncodeAll(ps);
  }

  /** ... and from any prefix of the bytes a prefix of the list. */
  lemma PacketsReceivedPrefix(items: seq<Item>, ps: seq<Packet.MasquePacket>, cut: seq<Byte>)
    requires AllSendable(items) && OnlyBodies(items) == Bodies(ps)
    requires forall p :: p in ps ==> FitsCapsule(p)
    requires cut <= Wire(items)
    ensures Packet.DecodeAll(ReceiveAll(cut).bodies) <= ps
  {
    PacketsReceived(items, ps);
    var more := Wire(items)[|cut|..];
    assert cut + more == Wire(items);
    ReceiveAllMonotone(cut, more);
    Packet.DecodeAllPrefix(ReceiveAll(cut).bodies, ReceiveAll(Wire(items)).bodies);
  }

  // ---------------------------------------------------------------- the stream object

  datatype Result<+T> = Ok(value: T) | Err(error: Error)

  function Report<T>(r: Result<T>, rest: seq<Byte>): Read<T> {
    match r
    case Ok(v) => Got(v, rest)
    case Err(e) => Fail(e, rest)
  }

  class CapsuleStream {
    /** The bytes the peer sent that have not been read. */
    var rest: seq<Byte>
    /** The bytes written so far. */
    var written: seq<Byte>

    constructor (input: seq<Byte>)
      ensures rest == input && written == []
    {
      rest, written := input, [];
    }

    method SendDatagram(b: seq<Byte>)
      requires |b| < LIMIT
      modifies this`written
      ensures written == old(written) + DatagramCapsule(b)
    {
      var frame := Varint.Encode(DATAGRAM);
      frame := frame + Varint.Encode(|b|);
      frame := frame + b;
      written := written + frame;
    }

    /** WriteTo of the packet connection: context ID zero, then the packet. */
    method SendBody(p: seq<Byte>)
      requires Sendable(Body(p))
      modifies this`written
      ensures written == old(written) + WireItem(Body(p))
    {
      ContextZero(p);
      SendDatagram(Varint.Encode(0) + p);
    }

    /** io.CopyN to nowhere: any shortage is a plain end of file. */
    method Discard(n: nat) returns (r: Result<nat>)
      modifies this`rest
      ensures Report(r, rest) == if |old(rest)| < n then Fail(Eof, []) else Got(n, old(rest)[n..])
    {
      if |rest| < n {
        rest := [];
        return Err(Eof);
      }
      r := Ok(n);
      rest := rest[n..];
    }

    /** io.ReadFull of n bytes. */
    method ReadFull(n: nat) returns (r: Result<seq<Byte>>)
      modifies this`rest
      ensures Report(r, rest) == if |old(rest)| < n then Fail(Short(old(rest)), [])
          else Got(old(rest)[..n], old(rest)[n..])
    {
      if |rest| < n {
        r := Err(if rest == [] then Eof else UnexpectedEof);
        rest := [];
        return;
      }
      r := Ok(rest[..n]);
      rest := rest[n..];
    }

    method ReadVarint() returns (r: Result<nat>)
      modifies this`rest
      ensures Report(r, rest) == Decode(old(rest))
    {
      var first := ReadFull(1);
      if first.Err? { return Err(first.error); }
      var n := WidthOfTag(first.value[0] / 64);
      var more := ReadFull(n - 1);
      if more.Err? { return Err(more.error); }
      assert old(rest)[1..n] == more.value && old(rest)[n..] == rest;
      r := Ok(first.value[0] % 64 * Radix(n - 1) + BigEndian(more.value));
    }

    method ReceiveDatagram() returns (r: Result<seq<Byte>>)
      modifies this`rest
      ensures Report(r, rest) == NextDatagram(old(rest))
    {
      while true
        invariant NextDatagram(rest) == NextDatagram(old(rest))
        decreases |rest|
      {
        var kind := ReadVarint();
        if kind.Err? { return Err(kind.error); }
        var len := ReadVarint();
        if len.Err? { return Err(len.error); }
        if len.value > MAX_CAPSULE { return Err(TooLarge); }
        if kind.value == DATAGRAM {
          r := ReadFull(len.value);
          return;
        }
        var skipped := Discard(len.value);
        if skipped.Err? { return Err(skipped.error); }
      }
    }

    method ReceiveBody() returns (r: Result<seq<Byte>>)
      modifies this`rest
      ensures Report(r, rest) == NextBody(old(rest))
    {
      while true
        invariant NextBody(rest) == NextBody(old(rest))
        decreases |rest|
      {
        var b := ReceiveDatagram();
        if b.Err? { return Err(b.error); }
        var context := Decode(b.value);
        if context.Fail? { return Err(Malformed); }
        if context.value == 0 { return Ok(context.rest); }
      }
    }
  }
}
