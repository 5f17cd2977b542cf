/** Fragmenting a packet and pushing its fragments in any order gives the packet back, once, at the
    last missing fragment. */
module RoundTrip {
  import opened Bytes
  import opened Packet
  import opened Fragments
  import opened Reassembly

  /** The packet under way. */
  datatype Job = Job(src: Key, id: nat, payload: seq<Byte>)

  predicate Valid(j: Job) { j.id < ID_LIMIT && CHUNK < |j.payload| <= MAX_SIZE }

  function KeyOf(j: Job): FragmentKey { FragmentKey(j.src, j.id) }

  function Parts(j: Job): (n: nat) { CountFor(|j.payload|) }

  function All(j: Job): (s: set<nat>) { Below(Parts(j)) }

  /** The call carries this source and ID. */
  predicate For(j: Job, c: Call) { c.src == j.src && IsFragment(c.p) && Parse(c.p).id == j.id }

  /** Source and ID are unique to the packet: every such call carries one of its fragments. */
  ghost predicate Own(j: Job, c: Call) {
    For(j, c) ==> exists i: nat :: i < Parts(j) && c.p == FragmentAt(j.payload, j.id, i)
  }

  lemma OwnHeader(j: Job, c: Call)
    requires Valid(j) && Own(j, c) && For(j, c)
    ensures var h := Parse(c.p); h.index < Parts(j) && h == HeaderOf(j.payload, j.id, h.index) && Reaches(c.p)
  {
    var i: nat :| i < Parts(j) && c.p == FragmentAt(j.payload, j.id, i);
    ParseFragmentBytes(HeaderOf(j.payload, j.id, i));
  }

  /** Which fragments have arrived, and when the latest new one did. */
  datatype Progress = Progress(got: set<nat>, last: int)

  ghost function After(j: Job, calls: seq<Call>): (r: Progress) {
    if calls == [] then Progress({}, 0) else
    var r, c := After(j, calls[..|calls| - 1]), calls[|calls| - 1];
    if For(j, c) && Parse(c.p).index !in r.got then Progress(r.got + {Parse(c.p).index}, c.now) else r
  }

  /** What the table holds for the packet. */
  ghost predicate Tracks(j: Job, t: Table, r: Progress) {
    if r.got == {} || r.got == All(j) then KeyOf(j) !in t
    else
      && KeyOf(j) in t
      && var a := t[KeyOf(j)];
      && a.count == Parts(j) && a.total == |j.payload| && |a.parts| == a.count
      && a.received == |r.got| && a.updated == r.last
      && (forall i: nat :: i < a.count ==> a.parts[i] == if i in r.got then ChunkOf(j.payload, i) else [])
  }

  /** What the packet needs of one call: no push comes TTL or more after its latest new fragment, and
      its first fragment finds room. */
  ghost predicate InTime(j: Job, t: Table, r: Progress, c: Call)
    requires Inv(t)
  {
    && (r.got != {} && Reaches(c.p) ==> c.now - r.last < TTL)
    && (r.got == {} && For(j, c) ==>
      var t1 := Expire(t, c.now); |Of(t1, j.src)| < MAX_PER_SOURCE && |t1| < MAX_SETS)
  }

  /** Calls about other packets leave the assembly alone. */
  lemma OtherCall(j: Job, t: Table, r: Progress, c: Call)
    requires Inv(t) && Tracks(j, t, r) && InTime(j, t, r, c) && !For(j, c) && r.got != All(j)
    ensures Tracks(j, Fragments.Push(t, c.src, c.p, c.now).table, r)
  {
    if Reaches(c.p) {
      ExpireKeeps(t, c.now);
      AcceptElsewhere(Expire(t, c.now), FragmentKey(c.src, Parse(c.p).id), Parse(c.p), c.now, KeyOf(j));
    }
  }

  /** A repeated fragment changes nothing. */
  lemma RepeatedFragment(j: Job, t: Table, r: Progress, c: Call)
    requires Valid(j) && Inv(t) && Tracks(j, t, r) && InTime(j, t, r, c) && r.got != All(j)
    requires Own(j, c) && For(j, c) && Parse(c.p).index in r.got
    ensures var q := Fragments.Push(t, c.src, c.p, c.now); q.outcome == Pending && Tracks(j, q.table, r)
  {
    OwnHeader(j, c);
    var t1, k := Expire(t, c.now), KeyOf(j);
    assert k in t1 && t1[k] == t[k];
  }

  /** The assembly that a new fragment finds: the retained one, or a fresh one. */
  ghost function Found(j: Job, t1: Table, h: Header, now: int): Assembly {
    if KeyOf(j) in t1 then t1[KeyOf(j)] else Fresh(h, now)
  }

  lemma NewFragmentStores(j: Job, t: Table, r: Progress, c: Call)
    requires Valid(j) && Inv(t) && Tracks(j, t, r) && InTime(j, t, r, c) && r.got != All(j)
    requires Own(j, c) && For(j, c) && Parse(c.p).index !in r.got
    ensures var t1, h := Expire(t, c.now), Parse(c.p);
            var a := Found(j, t1, h, c.now);
            && |a.parts| == Parts(j) && h.index < Parts(j)
            && Fragments.Push(t, c.src, c.p, c.now) == Store(t1, KeyOf(j), a, h, c.now)
            && a.count == Parts(j) && a.total == |j.payload| && a.received == |r.got|
            && (forall i: nat :: i < Parts(j) ==> a.parts[i] == if i in r.got then ChunkOf(j.payload, i) else [])
  {
    OwnHeader(j, c);
    var t1, k := Expire(t, c.now), KeyOf(j);
    if r.got != {} {
      assert k in t1 && t1[k] == t[k];
    } else {
      assert k !in t1;
    }
  }

  /** A new fragment is kept; the last one completes the packet and removes the assembly. */
  lemma NewFragment(j: Job, t: Table, r: Progress, c: Call)
    requires Valid(j) && Inv(t) && Tracks(j, t, r) && InTime(j, t, r, c) && r.got != All(j)
    requires r.got <= All(j)
    requires Own(j, c) && For(j, c) && Parse(c.p).index !in r.got
    ensures var q, got := Fragments.Push(t, c.src, c.p, c.now), r.got + {Parse(c.p).index};
            && q.outcome == (if got == All(j) then Ready(j.payload) else Pending)
            && Tracks(j, q.table, Progress(got, c.now))
  {
    OwnHeader(j, c);
    NewFragmentStores(j, t, r, c);
    var h, t1 := Parse(c.p), Expire(t, c.now);
    NewlyFilled(j, Found(j, t1, h, c.now), h, c.now, r.got);
    StoredResult(j, t1, Found(j, t1, h, c.now), h, c.now, r.got + {h.index});
  }

  lemma NewlyFilled(j: Job, a: Assembly, h: Header, now: int, had: set<nat>)
    requires Valid(j) && had <= All(j) && h.index !in had && h.index < Parts(j)
    requires h == HeaderOf(j.payload, j.id, h.index)
    requires |a.parts| == Parts(j) && a.received == |had|
    requires forall i: nat :: i < Parts(j) ==> a.parts[i] == if i in had then ChunkOf(j.payload, i) else []
    ensures var b, got := Filled(a, h, now), had + {h.index};
            && got <= All(j) && b.received == |got| && (|got| == Parts(j) <==> got == All(j))
            && |b.parts| == Parts(j)
            && forall i: nat :: i < Parts(j) ==> b.parts[i] == if i in got then ChunkOf(j.payload, i) else []
  {
    UpTo(Parts(j), had + {h.index});
  }

  lemma StoredResult(j: Job, t1: Table, a: Assembly, h: Header, now: int, got: set<nat>)
    requires Valid(j) && got <= All(j) && got != {} && |a.parts| == a.count == Parts(j)
    requires a.total == |j.payload| && h.index < Parts(j)
    requires Filled(a, h, now).received == |got| && (|got| == Parts(j) <==> got == All(j))
    requires forall i: nat :: i < Parts(j) ==> Filled(a, h, now).parts[i] == if i in got
        then ChunkOf(j.payload, i) else []
    ensures var q := Store(t1, KeyOf(j), a, h, now);
            && q.outcome == (if got == All(j) then Ready(j.payload) else Pending)
            && Tracks(j, q.table, Progress(got, now))
  {
    if got == All(j) {
      Completed(j, Filled(a, h, now).parts);
    }
  }

  lemma Completed(j: Job, parts: seq<seq<Byte>>)
    requires |parts| == Parts(j) && forall i: nat :: i < Parts(j) ==> parts[i] == ChunkOf(j.payload, i)
    ensures [] !in parts && Concat(parts) == j.payload
  {
    ChunksJoin(j.payload, parts, |parts|);
    assert parts[..|parts|] == parts;
    assert Offset(|j.payload|, |parts|) == |j.payload|;
    assert j.payload[..|j.payload|] == j.payload;
  }

  /** The hypotheses on a whole sequence of calls: the packet's own ID, room for its first fragment,
      gaps under the TTL, and no call after its completion. */
  ghost predicate Suits(j: Job, calls: seq<Call>) {
    forall n: nat :: n < |calls| ==>
      && Own(j, calls[n])
      && InTime(j, Run(calls[..n]), After(j, calls[..n]), calls[n])
      && After(j, calls[..n]).got != All(j)
  }

  lemma AfterStep(j: Job, calls: seq<Call>, n: nat)
    requires n < |calls|
    ensures var r, c := After(j, calls[..n]), calls[n];
            After(j, calls[..n + 1]) ==
            if For(j, c) && Parse(c.p).index !in r.got then Progress(r.got + {Parse(c.p).index}, c.now) else r
  {
    assert calls[..n + 1][..n] == calls[..n];
  }

  lemma {:induction false} TracksAlways(j: Job, calls: seq<Call>, n: nat)
    requires Valid(j) && Suits(j, calls) && n <= |calls|
    ensures Tracks(j, Run(calls[..n]), After(j, calls[..n]))
    ensures After(j, calls[..n]).got <= All(j)
  {
    if n > 0 {
      TracksAlways(j, calls, n - 1);
      OneCall(j, calls, n - 1);
    }
  }

  lemma OneCall(j: Job, calls: seq<Call>, n: nat)
    requires Valid(j) && Suits(j, calls) && n < |calls|
    requires Tracks(j, Run(calls[..n]), After(j, calls[..n]))
    requires After(j, calls[..n]).got <= All(j)
    ensures Tracks(j, Run(calls[..n + 1]), After(j, calls[..n + 1]))
    ensures After(j, calls[..n + 1]).got <= All(j)
    ensures For(j, calls[n]) ==>
              OutcomeAt(calls, n) == if After(j, calls[..n + 1]).got == All(j) then Ready(j.payload) else Pending
  {
    var t, r, c := Run(calls[..n]), After(j, calls[..n]), calls[n];
    RunStep(calls, n);
    AfterStep(j, calls, n);
    OneStep(j, t, r, c);
  }

  /** One call, whatever it is about. */
  lemma OneStep(j: Job, t: Table, r: Progress, c: Call)
    requires Valid(j) && Inv(t) && Tracks(j, t, r) && InTime(j, t, r, c) && r.got <= All(j) && r.got != All(j)
    requires Own(j, c)
    ensures var q := Fragments.Push(t, c.src, c.p, c.now);
            var r' := if For(j, c) && Parse(c.p).index !in r.got
                then Progress(r.got + {Parse(c.p).index}, c.now) else r;
            && Tracks(j, q.table, r') && r'.got <= All(j)
            && (For(j, c) ==> q.outcome == if r'.got == All(j) then Ready(j.payload) else Pending)
  {
    if !For(j, c) {
      OtherCall(j, t, r, c);
    } else {
      OwnHeader(j, c);
      if Parse(c.p).index in r.got {
        RepeatedFragment(j, t, r, c);
      } else {
        NewFragment(j, t, r, c);
      }
    }
  }

  /** For every packet of 1001 to 65536 bytes and every such sequence of calls, in any order, with
      duplicates and with other traffic in between: each fragment is answered with "not yet" until
      the last missing one, which is answered with exactly the packet. */
  lemma ReassembledExactly(j: Job, calls: seq<Call>, n: nat)
    requires Valid(j) && Suits(j, calls) && n < |calls| && For(j, calls[n])
    ensures OutcomeAt(calls, n) == if After(j, calls[..n + 1]).got == All(j) then Ready(j.payload) else Pending
  {
    TracksAlways(j, calls, n);
    OneCall(j, calls, n);
  }

  // ---------------------------------------------------------------- packets that are not cut

  /** A datagram is passed on unchanged exactly when it does not start with the fragment marker, so a
      packet that is sent whole arrives exactly under that condition. */
  lemma WholePacketPasses(t: Table, src: Key, p: seq<Byte>, now: int)
    requires Inv(t) && |p| <= CHUNK
    ensures Fragments.Push(t, src, p, now) == Pushed(t, Ready(p)) <==> !HasPrefix(p, MAGIC)
  {
    if HasPrefix(p, MAGIC) && Reaches(p) {
      var h := Parse(p);
      ExpireKeeps(t, now);
      var q := Fragments.Push(t, src, p, now);
      if q.outcome.Ready? {
        ReadyIsLarge(t, src, p, now);
      }
    }
  }

  /** What comes out of an assembly is longer than any packet that is sent whole. */
  lemma ReadyIsLarge(t: Table, src: Key, p: seq<Byte>, now: int)
    requires Inv(t) && Reaches(p) && Fragments.Push(t, src, p, now).outcome.Ready?
    ensures |Fragments.Push(t, src, p, now).outcome.payload| > CHUNK
  {
    ExpireKeeps(t, now);
  }

  /** No fragment looks like a disco frame, so the forwarders' disco filter never drops one. */
  lemma FragmentIsNotDisco(payload: seq<Byte>, id: nat, i: nat)
    requires i < CountFor(|payload|)
    ensures !HasPrefix(FragmentAt(payload, id, i), DISCO_MAGIC)
  {
    var p := FragmentAt(payload, id, i);
    assert p[0] == MAGIC[0];
    if HasPrefix(p, DISCO_MAGIC) {
      FirstByte(p, DISCO_MAGIC);
    }
  }

  lemma FirstByte(p: seq<Byte>, prefix: seq<Byte>)
    requires HasPrefix(p, prefix) && prefix != []
    ensures p[0] == prefix[0]
  {
    assert p[..|prefix|][0] == p[0];
  }
}
