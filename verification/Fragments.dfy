/** WireGuard fragmentation: cutting a packet into datagrams, and the table that puts it together. */
module Fragments {
  import opened Bytes
  import opened Packet
  import opened Wrappers

  const CHUNK := 1000
  const HEADER := 20
  const MAX_SIZE := 65536
  /** 30 seconds in nanoseconds. */
  const TTL := 30_000_000_000
  const MAX_SETS := 256
  const MAX_PER_SOURCE := 32
  /** "MCF" and version 1. */
  const MAGIC: seq<Byte> := [0x4d, 0x43, 0x46, 1]
  const ID_LIMIT := 0x1_0000_0000_0000_0000

  /** The number of chunks: total / CHUNK rounded up. */
  function CountFor(total: nat): (n: nat)
    ensures n * CHUNK >= total
    ensures total > 0 ==> n > 0 && (n - 1) * CHUNK < total
  {
    (total + CHUNK - 1) / CHUNK
  }

  /** Where chunk i starts; chunk CountFor(total) would start at the end. */
  function Offset(total: nat, i: nat): (n: nat) {
    if i * CHUNK < total then i * CHUNK else total
  }

  function ChunkLen(total: nat, i: nat): (n: nat)
    requires i < CountFor(total)
    ensures 0 < n <= CHUNK && Offset(total, i) + n == Offset(total, i + 1) <= total
  {
    if i == CountFor(total) - 1 then total - (CountFor(total) - 1) * CHUNK else CHUNK
  }

  function ChunkOf(payload: seq<Byte>, i: nat): (c: seq<Byte>)
    requires i < CountFor(|payload|)
    ensures |c| == ChunkLen(|payload|, i)
  {
    payload[Offset(|payload|, i)..Offset(|payload|, i) + ChunkLen(|payload|, i)]
  }

  // ---------------------------------------------------------------- the fragment header

  datatype Header = Header(id: nat, index: nat, count: nat, total: nat, chunk: seq<Byte>)

  function Parse(p: seq<Byte>): (h: Header)
    requires |p| >= HEADER
  {
    Header(BigEndian(p[4..12]), BigEndian(p[12..14]), BigEndian(p[14..16]), BigEndian(p[16..20]), p[HEADER..])
  }

  function FragmentBytes(h: Header): (p: seq<Byte>)
    ensures |p| == HEADER + |h.chunk|
  {
    MAGIC + PutBigEndian(h.id, 8) + PutBigEndian(h.index, 2) + PutBigEndian(h.count, 2) + PutBigEndian(h.total, 4) +
        h.chunk
  }

  lemma Widths()
    ensures Radix(2) == 65536 && Radix(4) == 0x1_0000_0000 && Radix(8) == ID_LIMIT
  {
    assert Radix(3) == 0x100_0000;
    assert Radix(4) == 0x1_0000_0000;
    assert Radix(5) == 0x100_0000_0000;
    assert Radix(6) == 0x1_0000_0000_0000;
    assert Radix(7) == 0x100_0000_0000_0000;
  }

  /** The header survives the wire. */
  lemma ParseFragmentBytes(h: Header)
    requires h.id < ID_LIMIT && h.index < 65536 && h.count < 65536 && h.total < 0x1_0000_0000
    ensures HasPrefix(FragmentBytes(h), MAGIC) && Parse(FragmentBytes(h)) == h
  {
    Widths();
    BigEndianRoundTrip(h.id, 8);
    BigEndianRoundTrip(h.index, 2);
    BigEndianRoundTrip(h.count, 2);
    BigEndianRoundTrip(h.total, 4);
    Fields(MAGIC, PutBigEndian(h.id, 8), PutBigEndian(h.index, 2), PutBigEndian(h.count, 2), PutBigEndian(h.total, 4),
        h.chunk);
  }

  lemma Fields(magic: seq<Byte>, id: seq<Byte>, index: seq<Byte>, count: seq<Byte>, total: seq<Byte>, chunk: seq<Byte>)
    requires |magic| == 4 && |id| == 8 && |index| == 2 && |count| == 2 && |total| == 4
    ensures var p := magic + id + index + count + total + chunk;
            && p[..4] == magic && p[4..12] == id && p[12..14] == index && p[14..16] == count
            && p[16..20] == total && p[20..] == chunk
  {
  }

  // ---------------------------------------------------------------- cutting

  function HeaderOf(payload: seq<Byte>, id: nat, i: nat): (h: Header)
    requires i < CountFor(|payload|)
  {
    Header(id, i, CountFor(|payload|), |payload|, ChunkOf(payload, i))
  }

  function FragmentAt(payload: seq<Byte>, id: nat, i: nat): (p: seq<Byte>)
    requires i < CountFor(|payload|)
  {
    FragmentBytes(HeaderOf(payload, id, i))
  }

  lemma ChunkAt(payload: seq<Byte>, i: nat, off: nat, end: nat)
    requires off == i * CHUNK < |payload| && end == if off + CHUNK > |payload| then |payload| else off + CHUNK
    ensures i < CountFor(|payload|) && payload[off..end] == ChunkOf(payload, i)
  {
  }

  datatype Fragmented = Whole | TooBig | TooMany | Cut(fragments: seq<seq<Byte>>)

  /** fragmentMasqueWireGuardPacket, with the fragment ID as a parameter. Small packets stay whole,
      packets over 64 KiB are refused, all others become their fragments in order; the test for
      more than 65535 fragments never fires. */
  method Fragment(payload: seq<Byte>, id: nat) returns (r: Fragmented)
    requires id < ID_LIMIT
    ensures r.Whole? <==> |payload| <= CHUNK
    ensures r.TooBig? <==> |payload| > MAX_SIZE
    ensures CHUNK < |payload| <= MAX_SIZE ==>
              && r.Cut? && |r.fragments| == CountFor(|payload|)
              && forall i :: 0 <= i < |r.fragments| ==> r.fragments[i] == FragmentAt(payload, id, i)
  {
    if |payload| <= CHUNK { return Whole; }
    if |payload| > MAX_SIZE { return TooBig; }
    var count := (|payload| + CHUNK - 1) / CHUNK;
    if count > 65535 { return TooMany; }
    var fragments := [];
    var i, off := 0, 0;
    while off < |payload|
      invariant off == i * CHUNK && i <= count
      invariant |fragments| == i
      invariant forall j :: 0 <= j < i ==> fragments[j] == FragmentAt(payload, id, j)
      decreases count - i
    {
      var end := off + CHUNK;
      if end > |payload| { end := |payload|; }
      var header := MAGIC + PutBigEndian(id, 8) + PutBigEndian(i, 2) + PutBigEndian(count, 2) +
          PutBigEndian(|payload|, 4);
      ChunkAt(payload, i, off, end);
      fragments := fragments + [header + payload[off..end]];
      i, off := i + 1, off + CHUNK;
    }
    return Cut(fragments);
  }

  /** The chunks of a packet, in order, are the packet. */
  lemma {:induction false} ChunksJoin(payload: seq<Byte>, parts: seq<seq<Byte>>, i: nat)
    requires |parts| == CountFor(|payload|) && i <= |parts|
    requires forall j :: 0 <= j < |parts| ==> parts[j] == ChunkOf(payload, j)
    ensures Concat(parts[..i]) == payload[..Offset(|payload|, i)]
  {
    if i > 0 {
      ChunksJoin(payload, parts, i - 1);
      assert parts[..i] == parts[..i - 1] + [parts[i - 1]];
      ConcatAppend(parts[..i - 1], parts[i - 1]);
    }
  }

  // ---------------------------------------------------------------- assemblies

  datatype FragmentKey = FragmentKey(src: Key, id: nat)

  /** A part that has not arrived is the empty sequence: the Go code keeps nil there, and appending
      an empty chunk to nil would leave nil as well. */
  datatype Assembly = Assembly(count: nat, total: nat, parts: seq<seq<Byte>>, received: nat, updated: int)

  type Table = map<FragmentKey, Assembly>

  function Seen(parts: seq<seq<Byte>>): (s: set<nat>) {
    set i: nat | i < |parts| && parts[i] != []
  }

  ghost predicate Sane(a: Assembly) {
    && CHUNK < a.total <= MAX_SIZE && a.count == CountFor(a.total) && |a.parts| == a.count
    && (forall i: nat :: i < a.count && a.parts[i] != [] ==> |a.parts[i]| == ChunkLen(a.total, i))
    && a.received == |Seen(a.parts)|
    && 1 <= a.received < a.count
  }

  function Of(t: Table, src: Key): (s: set<FragmentKey>) { set k | k in t && k.src == src }

  /** Every retained assembly is sane, and both quotas hold. */
  ghost predicate Inv(t: Table) {
    && (forall k :: k in t ==> Sane(t[k]))
    && |t| <= MAX_SETS
    && forall src: Key :: |Of(t, src)| <= MAX_PER_SOURCE
  }

  // ---------------------------------------------------------------- pushing a datagram

  /** Ready and Pending are the two non-error results; Incomplete and Mismatch are the exits for a
      missing part and a wrong total, which no push can reach. */
  datatype Outcome = Ready(payload: seq<Byte>) | Pending | Rejected | Incomplete | Mismatch

  datatype Pushed = Pushed(table: Table, outcome: Outcome)

  predicate WellFormed(h: Header) {
    h.count >= 2 && h.index < h.count && CHUNK < h.total <= MAX_SIZE && h.count == CountFor(h.total)
  }

  predicate RightLength(h: Header)
    requires WellFormed(h)
  {
    |h.chunk| == ChunkLen(h.total, h.index)
  }

  predicate IsFragment(p: seq<Byte>) { HasPrefix(p, MAGIC) && |p| >= HEADER }

  /** The push gets past the header checks, so it takes the lock and expires old assemblies. */
  predicate Reaches(p: seq<Byte>) {
    IsFragment(p) && WellFormed(Parse(p)) && RightLength(Parse(p))
  }

  predicate Expired(a: Assembly, now: int) { now - a.updated >= TTL }

  function Expire(t: Table, now: int): (r: Table) {
    map k | k in t && !Expired(t[k], now) :: t[k]
  }

  function Fresh(h: Header, now: int): (a: Assembly) {
    Assembly(h.count, h.total, seq(h.count, _ => []), 0, now)
  }

  function Filled(a: Assembly, h: Header, now: int): (r: Assembly)
    requires h.index < |a.parts|
  {
    a.(parts := a.parts[h.index := h.chunk], received := a.received + 1, updated := now)
  }

  /** Store a new part, and finish the packet if it was the last one missing. */
  function Store(t: Table, k: FragmentKey, a: Assembly, h: Header, now: int): (r: Pushed)
    requires h.index < |a.parts|
  {
    var b := Filled(a, h, now);
    if b.received != b.count then Pushed(t[k := b], Pending)
    else if [] in b.parts then Pushed(t[k := b], Incomplete)
    else if |Concat(b.parts)| != b.total then Pushed(t - {k}, Mismatch)
    else Pushed(t - {k}, Ready(Concat(b.parts)))
  }

  function Accept(t: Table, k: FragmentKey, h: Header, now: int): (r: Pushed)
    requires WellFormed(h) && Inv(t)
  {
    if k !in t then
      if |Of(t, k.src)| >= MAX_PER_SOURCE || |t| >= MAX_SETS then Pushed(t, Rejected)
      else Store(t, k, Fresh(h, now), h, now)
    else if t[k].count != h.count || t[k].total != h.total then Pushed(t - {k}, Rejected)
    else if t[k].parts[h.index] != [] then
      if t[k].parts[h.index] == h.chunk then Pushed(t, Pending) else Pushed(t - {k}, Rejected)
    else Store(t, k, t[k], h, now)
  }

  function Push(t: Table, src: Key, p: seq<Byte>, now: int): (r: Pushed)
    requires Inv(t)
  {
    if !HasPrefix(p, MAGIC) then Pushed(t, Ready(p))
    else if !Reaches(p) then Pushed(t, Rejected)
    else
      ExpireKeeps(t, now);
      Accept(Expire(t, now), FragmentKey(src, Parse(p).id), Parse(p), now)
  }

  // ---------------------------------------------------------------- the table invariant

  lemma Shrunk(t: Table, r: Table)
    requires Inv(t) && r.Keys <= t.Keys && forall k :: k in r ==> r[k] == t[k]
    ensures Inv(r)
  {
    SubsetSize(r.Keys, t.Keys);
    assert |r| == |r.Keys| && |t| == |t.Keys|;
    forall src: Key ensures |Of(r, src)| <= MAX_PER_SOURCE {
      SubsetSize(Of(r, src), Of(t, src));
    }
  }

  lemma ExpireKeeps(t: Table, now: int)
    requires Inv(t)
    ensures Inv(Expire(t, now))
  {
    Shrunk(t, Expire(t, now));
  }

  /** The numbers below n. */
  function Below(n: nat): (s: set<nat>)
    ensures |s| == n && forall i: nat :: i in s <==> i < n
  {
    if n == 0 then {} else Below(n - 1) + {n - 1}
  }

  /** n different numbers below n are all of them. */
  lemma UpTo(n: nat, s: set<nat>)
    requires s <= Below(n)
    ensures |s| <= n && (|s| == n <==> s == Below(n))
  {
    SubsetSize(s, Below(n));
    if |s| == n && s != Below(n) {
      var x :| x in Below(n) && x !in s;
      SubsetSize(s, Below(n) - {x});
    }
  }

  /** An assembly that may take one more part: sane, or just created. */
  ghost predicate Open(a: Assembly) {
    && CHUNK < a.total <= MAX_SIZE && a.count == CountFor(a.total) && |a.parts| == a.count
    && (forall i: nat :: i < a.count && a.parts[i] != [] ==> |a.parts[i]| == ChunkLen(a.total, i))
    && a.received == |Seen(a.parts)|
  }

  lemma FilledOpen(a: Assembly, h: Header, now: int)
    requires Open(a) && WellFormed(h) && RightLength(h) && h.total == a.total && a.parts[h.index] == []
    ensures Open(Filled(a, h, now)) && Filled(a, h, now).received >= 1
    ensures Filled(a, h, now).received <= a.count
    ensures Filled(a, h, now).received == a.count ==> [] !in Filled(a, h, now).parts
  {
    var b := Filled(a, h, now);
    assert Seen(b.parts) == Seen(a.parts) + {h.index};
    assert Seen(b.parts) <= Below(a.count);
    UpTo(a.count, Seen(b.parts));
    if b.received == a.count {
      forall i: nat | i < a.count ensures b.parts[i] != [] {
        assert i in Seen(b.parts);
      }
    }
  }

  /** The parts up to i fill at most the first chunks, and exactly those if none is missing. */
  lemma {:induction false} PartsLength(total: nat, parts: seq<seq<Byte>>, i: nat)
    requires |parts| == CountFor(total) && i <= |parts|
    requires forall j: nat :: j < |parts| && parts[j] != [] ==> |parts[j]| == ChunkLen(total, j)
    ensures |Concat(parts[..i])| <= Offset(total, i)
    ensures |Concat(parts[..i])| == Offset(total, i) <==> forall j: nat :: j < i ==> parts[j] != []
  {
    if i > 0 {
      PartsLength(total, parts, i - 1);
      assert parts[..i] == parts[..i - 1] + [parts[i - 1]];
      ConcatAppend(parts[..i - 1], parts[i - 1]);
      assert Offset(total, i) == Offset(total, i - 1) + ChunkLen(total, i - 1);
    }
  }

  lemma StoreKeeps(t: Table, k: FragmentKey, a: Assembly, h: Header, now: int)
    requires Inv(t) && Open(a) && WellFormed(h) && RightLength(h) && h.total == a.total && a.parts[h.index] == []
    requires k !in t ==> |t| < MAX_SETS && |Of(t, k.src)| < MAX_PER_SOURCE
    ensures Inv(Store(t, k, a, h, now).table)
    ensures Store(t, k, a, h, now).outcome.Ready? || Store(t, k, a, h, now).outcome.Pending?
  {
    var b := Filled(a, h, now);
    FilledOpen(a, h, now);
    if b.received != b.count {
      Inserted(t, k, b);
    } else {
      JoinedLength(b);
      Shrunk(t, t - {k});
    }
  }

  lemma JoinedLength(b: Assembly)
    requires Open(b) && [] !in b.parts
    ensures |Concat(b.parts)| == b.total
  {
    PartsLength(b.total, b.parts, b.count);
    assert b.parts[..b.count] == b.parts;
    assert Offset(b.total, b.count) == b.total;
    assert forall j: nat :: j < b.count ==> b.parts[j] in b.parts;
  }

  lemma Inserted(t: Table, k: FragmentKey, b: Assembly)
    requires Inv(t) && Sane(b)
    requires k !in t ==> |t| < MAX_SETS && |Of(t, k.src)| < MAX_PER_SOURCE
    ensures Inv(t[k := b])
  {
    var r := t[k := b];
    assert r.Keys == t.Keys + {k};
    assert |r| == |r.Keys| && |t| == |t.Keys|;
    forall src: Key ensures |Of(r, src)| <= MAX_PER_SOURCE {
      InsertedOf(t, k, b, src);
    }
  }

  lemma InsertedOf(t: Table, k: FragmentKey, b: Assembly, src: Key)
    ensures Of(t[k := b], src) == if k in t || src != k.src then Of(t, src) else Of(t, src) + {k}
  {
  }

  lemma FreshOpen(h: Header, now: int)
    requires WellFormed(h)
    ensures Open(Fresh(h, now)) && Fresh(h, now).parts[h.index] == []
  {
    assert Seen(Fresh(h, now).parts) == {};
  }

  /** Every push keeps the invariant, and the exits for a missing part and a wrong size are never
      taken. */
  lemma PushKeeps(t: Table, src: Key, p: seq<Byte>, now: int)
    requires Inv(t)
    ensures Inv(Push(t, src, p, now).table)
    ensures !Push(t, src, p, now).outcome.Incomplete? && !Push(t, src, p, now).outcome.Mismatch?
  {
    if Reaches(p) {
      ExpireKeeps(t, now);
      AcceptKeeps(Expire(t, now), FragmentKey(src, Parse(p).id), Parse(p), now);
    }
  }

  lemma AcceptKeeps(t: Table, k: FragmentKey, h: Header, now: int)
    requires Inv(t) && WellFormed(h) && RightLength(h)
    ensures Inv(Accept(t, k, h, now).table)
    ensures !Accept(t, k, h, now).outcome.Incomplete? && !Accept(t, k, h, now).outcome.Mismatch?
  {
    if k !in t { AcceptNew(t, k, h, now); } else { AcceptMore(t, k, h, now); }
  }

  lemma AcceptNew(t: Table, k: FragmentKey, h: Header, now: int)
    requires Inv(t) && WellFormed(h) && RightLength(h) && k !in t
    ensures Inv(Accept(t, k, h, now).table)
    ensures !Accept(t, k, h, now).outcome.Incomplete? && !Accept(t, k, h, now).outcome.Mismatch?
  {
    FreshOpen(h, now);
    if |Of(t, k.src)| < MAX_PER_SOURCE && |t| < MAX_SETS {
      StoreKeeps(t, k, Fresh(h, now), h, now);
    }
  }

  lemma AcceptMore(t: Table, k: FragmentKey, h: Header, now: int)
    requires Inv(t) && WellFormed(h) && RightLength(h) && k in t
    ensures Inv(Accept(t, k, h, now).table)
    ensures !Accept(t, k, h, now).outcome.Incomplete? && !Accept(t, k, h, now).outcome.Mismatch?
  {
    Shrunk(t, t - {k});
    if t[k].total == h.total && t[k].parts[h.index] == [] {
      StoreKeeps(t, k, t[k], h, now);
    }
  }

  /** A fragment leaves every other assembly as it was. */
  lemma AcceptElsewhere(t: Table, k: FragmentKey, h: Header, now: int, other: FragmentKey)
    requires WellFormed(h) && Inv(t) && other != k
    ensures other in Accept(t, k, h, now).table <==> other in t
    ensures other in t ==> Accept(t, k, h, now).table[other] == t[other]
  {
  }

  // ---------------------------------------------------------------- refusals

  /** A fragment that fails the header or length checks is refused and touches nothing. */
  lemma MalformedRefused(t: Table, src: Key, p: seq<Byte>, now: int)
    requires Inv(t) && HasPrefix(p, MAGIC)
    requires |p| < 20 || (var h := Parse(p);
      || h.count < 2 || h.index >= h.count || h.total <= 1000 || h.total > 65536
      || (h.count - 1) * 1000 >= h.total || h.count * 1000 < h.total
      || |h.chunk| != if h.index == h.count - 1 then h.total - (h.count - 1) * 1000 else 1000)
    ensures Push(t, src, p, now) == Pushed(t, Rejected)
  {
    if |p| >= 20 && WellFormed(Parse(p)) {
      assert !RightLength(Parse(p)) by { TotalGivesCount(Parse(p).total, Parse(p).count); }
    }
  }

  lemma TotalGivesCount(total: nat, count: nat)
    requires count == CountFor(total) && total > 0
    ensures (count - 1) * 1000 < total <= count * 1000
  {
  }

  /** The assembly of a fragment, once the expired ones are gone. */
  predicate Retained(t: Table, k: FragmentKey, now: int) { k in t && now - t[k].updated < 30_000_000_000 }

  /** A fragment that contradicts the assembly that it names, in its metadata or in a chunk that has already
      arrived, is refused, and the assembly is gone. */
  lemma ContradictionRefused(t: Table, src: Key, p: seq<Byte>, now: int)
    requires Inv(t) && Reaches(p)
    requires var h, k := Parse(p), FragmentKey(src, Parse(p).id);
             && Retained(t, k, now)
             && (|| h.count != t[k].count || h.total != t[k].total
                 || (t[k].parts[h.index] != [] && t[k].parts[h.index] != h.chunk))
    ensures Push(t, src, p, now).outcome == Rejected
    ensures FragmentKey(src, Parse(p).id) !in Push(t, src, p, now).table
  {
    ExpireKeeps(t, now);
  }

  /** A first fragment is refused exactly when its source has 32 assemblies left, or the table 256; it then adds
      nothing. Otherwise it is kept. */
  lemma FirstFragment(t: Table, src: Key, p: seq<Byte>, now: int)
    requires Inv(t) && Reaches(p) && !Retained(t, FragmentKey(src, Parse(p).id), now)
    ensures var left := set k | k in t && now - t[k].updated < 30_000_000_000;
            var ofSource := set k | k in left && k.src == src;
            var q, key := Push(t, src, p, now), FragmentKey(src, Parse(p).id);
            if |ofSource| >= 32 || |left| >= 256 then q.outcome == Rejected && q.table.Keys == left
            else q.outcome == Pending && q.table.Keys == left + {key}
  {
    var left := set k | k in t && now - t[k].updated < 30_000_000_000;
    var t1, key := Expire(t, now), FragmentKey(src, Parse(p).id);
    ExpireKeeps(t, now);
    assert t1.Keys == left && |t1| == |t1.Keys|;
    assert Of(t1, src) == set k | k in left && k.src == src;
    FirstStored(t1, key, Parse(p), now);
  }

  lemma FirstStored(t: Table, k: FragmentKey, h: Header, now: int)
    requires Inv(t) && WellFormed(h) && RightLength(h) && k !in t
    ensures var q := Accept(t, k, h, now);
            if |Of(t, k.src)| >= MAX_PER_SOURCE || |t| >= MAX_SETS then q == Pushed(t, Rejected)
            else q.outcome == Pending && q.table.Keys == t.Keys + {k}
  {
    var b := Filled(Fresh(h, now), h, now);
    assert b.received == 1 && b.count >= 2;
    assert t[k := b].Keys == t.Keys + {k};
  }

  // ---------------------------------------------------------------- stored bytes

  ghost function Stored(t: Table, keys: set<FragmentKey>): (n: nat)
    requires keys <= t.Keys
    decreases keys
  {
    if keys == {} then 0 else
    var k :| k in keys; |Concat(t[k].parts)| + Stored(t, keys - {k})
  }

  /** An incomplete packet holds less than its size. */
  lemma StoredBelowTotal(a: Assembly)
    requires Sane(a)
    ensures |Concat(a.parts)| < a.total
  {
    PartsLength(a.total, a.parts, a.count);
    assert a.parts[..a.count] == a.parts && Offset(a.total, a.count) == a.total;
    if forall j: nat :: j < a.count ==> a.parts[j] != [] {
      AllSeen(a.parts);
    }
  }

  lemma {:induction false} AllSeen(parts: seq<seq<Byte>>)
    requires forall j: nat :: j < |parts| ==> parts[j] != []
    ensures |Seen(parts)| == |parts|
  {
    if parts != [] {
      var n := |parts| - 1;
      AllSeen(parts[..n]);
      assert Seen(parts) == Seen(parts[..n]) + {n};
    }
  }

  /** The sum does not depend on the order in which the assemblies are visited. */
  lemma {:induction false} StoredAnyOrder(t: Table, keys: set<FragmentKey>, k: FragmentKey)
    requires keys <= t.Keys && k in keys
    ensures Stored(t, keys) == |Concat(t[k].parts)| + Stored(t, keys - {k})
    decreases keys
  {
    var j :| j in keys && Stored(t, keys) == |Concat(t[j].parts)| + Stored(t, keys - {j});
    if j != k {
      StoredAnyOrder(t, keys - {j}, k);
      StoredAnyOrder(t, keys - {k}, j);
      assert keys - {j} - {k} == keys - {k} - {j};
    }
  }

  lemma {:induction false} StoredBound(t: Table, keys: set<FragmentKey>)
    requires keys <= t.Keys && forall k :: k in t ==> Sane(t[k])
    ensures Stored(t, keys) + |keys| <= MAX_SIZE * |keys|
    decreases keys
  {
    if keys != {} {
      var k :| k in keys;
      StoredAnyOrder(t, keys, k);
      StoredBelowTotal(t[k]);
      StoredBound(t, keys - {k});
    }
  }

  /** Stored bytes stay under 16 MiB in all and 2 MiB for one source. */
  lemma StorageBounded(t: Table, src: Key)
    requires Inv(t)
    ensures Stored(t, t.Keys) < 16 * 1024 * 1024
    ensures Stored(t, Of(t, src)) < 2 * 1024 * 1024
  {
    StoredBound(t, t.Keys);
    StoredBound(t, Of(t, src));
    assert |t.Keys| == |t|;
  }
}
