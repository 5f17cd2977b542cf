/** The WireGuard core's peer and path tables and the reservations of direct sessions. */
module Core {
  import opened Bytes
  import opened Packet
  import opened Wrappers
  import opened Fragments
  import Reassembly
  import RoundTrip

  /** A path is the stream of a direct session or a relay path object. */
  datatype Forwarder = OfSession(session: nat) | OfRelay(id: nat)

  /** No allow list admits every client; a client core admits everyone. */
  datatype Tables = Tables(isServer: bool, allowed: Option<set<Key>>, peers: set<Key>, paths: map<Key, Forwarder>)

  predicate PeerAllowed(t: Tables, k: Key) { !t.isServer || t.allowed.None? || k in t.allowed.value }

  /** The first addition turns "everyone" into an explicit list. */
  function AllowClient(t: Tables, k: Key): (r: Tables) {
    t.(allowed := Some((if t.allowed.Some? then t.allowed.value else {}) + {k}))
  }

  /** Whether AddPeer succeeds; `ipcOk` is the answer of the WireGuard device. */
  predicate AddsPeer(t: Tables, k: Key, ipcOk: bool) {
    k != ZERO_KEY && (k in t.peers || (PeerAllowed(t, k) && ipcOk))
  }

  function WithPeer(t: Tables, k: Key, ipcOk: bool): (r: Tables) {
    if AddsPeer(t, k, ipcOk) then t.(peers := t.peers + {k}) else t
  }

  /** Setting no path (a nil forwarder) admits the peer and takes its path away. */
  function WithPath(t: Tables, k: Key, f: Option<Forwarder>, ipcOk: bool): (r: Tables) {
    if AddsPeer(t, k, ipcOk)
    then t.(peers := t.peers + {k}, paths := if f.Some? then t.paths[k := f.value] else t.paths - {k})
    else t
  }

  function PathOf(t: Tables, k: Key): (f: Option<Forwarder>) { if k in t.paths then Some(t.paths[k]) else None }

  /** Only the path that is still in place is removed, and its peer with it. */
  function WithoutPath(t: Tables, k: Key, f: Option<Forwarder>, ipcOk: bool): (r: Tables) {
    if PathOf(t, k) != f then t
    else t.(paths := t.paths - {k}, peers := if ipcOk then t.peers - {k} else t.peers)
  }

  /** Every routed peer is an admitted, non-zero peer. */
  predicate Routed(t: Tables) { t.paths.Keys <= t.peers && ZERO_KEY !in t.peers }

  class MasqueCore {
    const isServer: bool
    var allowedClients: Option<set<Key>>
    var peers: set<Key>
    var paths: map<Key, Forwarder>

    function View(): Tables
      reads this
    {
      Tables(isServer, allowedClients, peers, paths)
    }

    ghost predicate Valid()
      reads this
    {
      Routed(View())
    }

    constructor (isServer: bool, clients: set<Key>)
      ensures Valid() && View() == Tables(isServer, if clients == {} then None else Some(clients), {}, map[])
    {
      this.isServer := isServer;
      allowedClients := if clients == {} then None else Some(clients);
      peers, paths := {}, map[];
    }

    method IsAllowed(k: Key) returns (ok: bool)
      ensures ok == PeerAllowed(View(), k)
      ensures ok <==> isServer ==> allowedClients.None? || k in allowedClients.value
    {
      return !isServer || allowedClients.None? || k in allowedClients.value;
    }

    /** Established peers stay: a change of the list governs admissions only. */
    method AddAllowedClient(k: Key)
      requires Valid()
      modifies this
      ensures Valid() && View() == AllowClient(old(View()), k)
    {
      if allowedClients.None? { allowedClients := Some({}); }
      allowedClients := Some(allowedClients.value + {k});
    }

    method AddPeerLocked(k: Key, ipcOk: bool) returns (ok: bool)
      requires k != ZERO_KEY
      modifies this
      ensures ok == AddsPeer(old(View()), k, ipcOk) && View() == WithPeer(old(View()), k, ipcOk)
    {
      if k in peers {
        assert peers + {k} == peers;
        return true;
      }
      var allowed := IsAllowed(k);
      if !allowed { return false; }
      if !ipcOk { return false; }
      peers := peers + {k};
      return true;
    }

    method AddPeer(k: Key, ipcOk: bool) returns (ok: bool)
      requires Valid()
      modifies this
      ensures Valid() && ok == AddsPeer(old(View()), k, ipcOk) && View() == WithPeer(old(View()), k, ipcOk)
    {
      if k == ZERO_KEY { return false; }
      ok := AddPeerLocked(k, ipcOk);
    }

    method SetPath(k: Key, f: Option<Forwarder>, ipcOk: bool) returns (ok: bool)
      requires Valid()
      modifies this
      ensures Valid() && ok == AddsPeer(old(View()), k, ipcOk) && View() == WithPath(old(View()), k, f, ipcOk)
    {
      if k == ZERO_KEY { return false; }
      ok := AddPeerLocked(k, ipcOk);
      if ok {
        if f.None? { paths := paths - {k}; } else { paths := paths[k := f.value]; }
      }
    }

    method RemovePath(k: Key, f: Option<Forwarder>, ipcOk: bool)
      requires Valid()
      modifies this
      ensures Valid() && View() == WithoutPath(old(View()), k, f, ipcOk)
    {
      var current := if k in paths then Some(paths[k]) else None;
      if current != f { return; }
      paths := paths - {k};
      if k !in peers { return; }
      if !ipcOk { return; }
      peers := peers - {k};
    }
  }

  /** The key is taken or free; a second reservation is refused. */
  class DirectReservations {
    var peers: set<Key>

    constructor ()
      ensures peers == {}
    {
      peers := {};
    }

    method Reserve(k: Key) returns (ok: bool)
      modifies this
      ensures ok == (k !in old(peers)) && peers == old(peers) + {k}
    {
      if k in peers { return false; }
      peers := peers + {k};
      return true;
    }

    method Release(k: Key)
      modifies this
      ensures peers == old(peers) - {k}
    {
      peers := peers - {k};
    }
  }

  // ---------------------------------------------------------------- sending through a path

  /** The datagrams that Send forwards for one WireGuard packet; none if it is too big. */
  function Datagrams(payload: seq<Byte>, id: nat): (ds: seq<seq<Byte>>) {
    if |payload| <= CHUNK then [payload]
    else if |payload| > MAX_SIZE then []
    else seq(CountFor(|payload|), i requires 0 <= i < CountFor(|payload|) => FragmentAt(payload, id, i))
  }

  /** The WireGuard packet in a buffer; an offset outside the buffer is an error of the caller. */
  predicate OffsetOk(buf: seq<Byte>, offset: int) { 0 <= offset <= |buf| }

  function PacketIn(buf: seq<Byte>, offset: int): (p: seq<Byte>) {
    if OffsetOk(buf, offset) then buf[offset..] else []
  }

  function AllDatagrams(bufs: seq<seq<Byte>>, offset: int, ids: seq<nat>): (ds: seq<seq<Byte>>)
    requires |ids| == |bufs|
  {
    if bufs == [] then [] else
    var n := |bufs| - 1;
    AllDatagrams(bufs[..n], offset, ids[..n]) + Datagrams(PacketIn(bufs[n], offset), ids[n])
  }

  predicate Fine(buf: seq<Byte>, offset: int) { OffsetOk(buf, offset) && |PacketIn(buf, offset)| <= MAX_SIZE }

  predicate FirstFine(bufs: seq<seq<Byte>>, offset: int, n: nat)
    requires n <= |bufs|
  {
    forall i :: 0 <= i < n ==> Fine(bufs[i], offset)
  }

  lemma NextFine(bufs: seq<seq<Byte>>, offset: int, n: nat)
    requires n < |bufs| && FirstFine(bufs, offset, n) && Fine(bufs[n], offset)
    ensures FirstFine(bufs, offset, n + 1)
  {
  }

  lemma NextBuffer(bufs: seq<seq<Byte>>, offset: int, ids: seq<nat>, n: nat)
    requires |ids| == |bufs| && n < |bufs|
    ensures AllDatagrams(bufs[..n + 1], offset, ids[..n + 1]) ==
            AllDatagrams(bufs[..n], offset, ids[..n]) + Datagrams(PacketIn(bufs[n], offset), ids[n])
  {
    assert bufs[..n + 1][..n] == bufs[..n] && ids[..n + 1][..n] == ids[..n];
  }

  datatype SendResult = Sent | WrongEndpoint | NoPath | BadOffset | PacketTooBig | PathFailed

  /** One buffer of Send on a path that takes `working` more datagrams: forwarded whole, or fragment by
      fragment until the path fails. */
  method SendOne(payload: seq<Byte>, id: nat, working: nat) returns (sent: seq<seq<Byte>>, r: SendResult)
    requires id < ID_LIMIT
    ensures r == if |payload| > MAX_SIZE then PacketTooBig
                 else if |Datagrams(payload, id)| <= working then Sent else PathFailed
    ensures sent == if r.PathFailed? then Datagrams(payload, id)[..working] else Datagrams(payload, id)
  {
    var f := Fragment(payload, id);
    if f.TooBig? || f.TooMany? { return [], PacketTooBig; }
    if f.Whole? {
      if working == 0 { return [], PathFailed; }
      return [payload], Sent;
    }
    sent := [];
    for i := 0 to |f.fragments|
      invariant sent == f.fragments[..i] && i <= working
    {
      if i == working { return sent, PathFailed; }
      sent := sent + [f.fragments[i]];
    }
    return sent, Sent;
  }

  /** masqueBind.Send: the packets in order, each whole or as its fragments in order, up to the first
      buffer `n` that has no packet at the offset, holds one that is too big, or meets a failing path. */
  method Send(paths: map<Key, Forwarder>, peer: Option<Key>, bufs: seq<seq<Byte>>, offset: int, ids: seq<nat>,
              working: nat)
    returns (sent: seq<seq<Byte>>, n: nat, r: SendResult)
    requires |ids| == |bufs| && forall i :: 0 <= i < |ids| ==> ids[i] < ID_LIMIT
    ensures r.WrongEndpoint? <==> peer.None? || peer.value == ZERO_KEY
    ensures r.NoPath? <==> peer.Some? && peer.value != ZERO_KEY && peer.value !in paths
    ensures n <= |bufs| && FirstFine(bufs, offset, n) && |sent| <= working
    ensures r.WrongEndpoint? || r.NoPath? ==> n == 0
    ensures r.Sent? ==> n == |bufs|
    ensures r.BadOffset? ==> n < |bufs| && !OffsetOk(bufs[n], offset)
    ensures r.PacketTooBig? ==> n < |bufs| && OffsetOk(bufs[n], offset) && !Fine(bufs[n], offset)
    ensures !r.PathFailed? ==> sent == AllDatagrams(bufs[..n], offset, ids[..n])
    ensures r.PathFailed? ==> n < |bufs| && Fine(bufs[n], offset) && |sent| == working
    ensures r.PathFailed? ==>
              AllDatagrams(bufs[..n], offset, ids[..n]) <= sent < AllDatagrams(bufs[..n + 1], offset, ids[..n + 1])
  {
    sent, n := [], 0;
    assert bufs[..0] == [];
    if peer.None? || peer.value == ZERO_KEY { return sent, n, WrongEndpoint; }
    if peer.value !in paths { return sent, n, NoPath; }
    while n < |bufs|
      invariant n <= |bufs| && |sent| <= working
      invariant FirstFine(bufs, offset, n)
      invariant sent == AllDatagrams(bufs[..n], offset, ids[..n])
    {
      if offset < 0 || offset > |bufs[n]| { return sent, n, BadOffset; }
      var more, one := SendOne(bufs[n][offset..], ids[n], working - |sent|);
      if one.PacketTooBig? { return sent, n, PacketTooBig; }
      NextBuffer(bufs, offset, ids, n);
      if one.PathFailed? { return sent + more, n, PathFailed; }
      NextFine(bufs, offset, n);
      sent := sent + more;
      n := n + 1;
    }
    r := Sent;
  }

  /** The datagrams of one packet as pushes at one moment. */
  function Arrivals(src: Key, payload: seq<Byte>, id: nat, now: int): (calls: seq<Reassembly.Call>) {
    var ds := Datagrams(payload, id);
    seq(|ds|, i requires 0 <= i < |ds| => Reassembly.Call(src, ds[i], now))
  }

  lemma ArrivalAt(src: Key, payload: seq<Byte>, id: nat, now: int, m: nat)
    requires id < ID_LIMIT && CHUNK < |payload| <= MAX_SIZE && m < CountFor(|payload|)
    ensures var j, calls := RoundTrip.Job(src, id, payload), Arrivals(src, payload, id, now);
            && |calls| == CountFor(|payload|)
            && calls[m].now == now && RoundTrip.For(j, calls[m]) && RoundTrip.Own(j, calls[m])
            && Parse(calls[m].p).index == m
  {
    var calls := Arrivals(src, payload, id, now);
    assert calls[m] == Reassembly.Call(src, FragmentAt(payload, id, m), now);
    ParseFragmentBytes(HeaderOf(payload, id, m));
  }

  lemma {:induction false} ArrivedSoFar(j: RoundTrip.Job, calls: seq<Reassembly.Call>, now: int, n: nat)
    requires n <= |calls| && RoundTrip.Valid(j) && calls == Arrivals(j.src, j.payload, j.id, now)
    ensures RoundTrip.After(j, calls[..n]).got == Below(n)
    ensures n > 0 ==> RoundTrip.After(j, calls[..n]).last == now
  {
    if n > 0 {
      ArrivedSoFar(j, calls, now, n - 1);
      RoundTrip.AfterStep(j, calls, n - 1);
      ArrivalAt(j.src, j.payload, j.id, now, n - 1);
    }
  }

  lemma ArrivalsSuit(j: RoundTrip.Job, calls: seq<Reassembly.Call>, now: int, m: nat)
    requires m < |calls| && RoundTrip.Valid(j) && calls == Arrivals(j.src, j.payload, j.id, now)
    ensures RoundTrip.Own(j, calls[m]) && RoundTrip.For(j, calls[m])
    ensures RoundTrip.InTime(j, Reassembly.Run(calls[..m]), RoundTrip.After(j, calls[..m]), calls[m])
    ensures RoundTrip.After(j, calls[..m]).got != RoundTrip.All(j)
  {
    ArrivalAt(j.src, j.payload, j.id, now, m);
    ArrivedSoFar(j, calls, now, m);
    assert |Below(m)| == m;
    if m == 0 {
      assert calls[..0] == [];
      assert Expire(map[], now) == map[];
    }
  }

  /** Datagram d has come from the packet's source among the first n calls. */
  predicate ArrivedBy(j: RoundTrip.Job, calls: seq<Reassembly.Call>, n: nat, d: seq<Byte>)
    requires n <= |calls|
  {
    exists m :: 0 <= m < n && calls[m].src == j.src && calls[m].p == d
  }

  predicate AllArrived(j: RoundTrip.Job, calls: seq<Reassembly.Call>, n: nat)
    requires n <= |calls|
  {
    forall d :: d in Datagrams(j.payload, j.id) ==> ArrivedBy(j, calls, n, d)
  }

  lemma FragmentFor(j: RoundTrip.Job, c: Reassembly.Call, i: nat)
    requires RoundTrip.Valid(j) && i < RoundTrip.Parts(j) && RoundTrip.Own(j, c)
    ensures c.src == j.src && c.p == FragmentAt(j.payload, j.id, i) <==> RoundTrip.For(j, c) && Parse(c.p).index == i
  {
    ParseFragmentBytes(HeaderOf(j.payload, j.id, i));
    if RoundTrip.For(j, c) {
      var k: nat :| k < RoundTrip.Parts(j) && c.p == FragmentAt(j.payload, j.id, k);
      ParseFragmentBytes(HeaderOf(j.payload, j.id, k));
    }
  }

  /** The progress of a packet is exactly the fragments that have arrived. */
  lemma {:induction false} GotExactly(j: RoundTrip.Job, calls: seq<Reassembly.Call>, n: nat, i: nat)
    requires RoundTrip.Valid(j) && RoundTrip.Suits(j, calls) && n <= |calls| && i < RoundTrip.Parts(j)
    ensures i in RoundTrip.After(j, calls[..n]).got <==> ArrivedBy(j, calls, n, FragmentAt(j.payload, j.id, i))
  {
    if n > 0 {
      GotExactly(j, calls, n - 1, i);
      RoundTrip.AfterStep(j, calls, n - 1);
      ArrivedStep(j, calls, n - 1, FragmentAt(j.payload, j.id, i));
      GotOne(j, RoundTrip.After(j, calls[..n - 1]), RoundTrip.After(j, calls[..n]), calls[n - 1], i);
    }
  }

  /** One call adds a fragment exactly if it carries it. */
  lemma GotOne(j: RoundTrip.Job, r: RoundTrip.Progress, q: RoundTrip.Progress, c: Reassembly.Call, i: nat)
    requires RoundTrip.Valid(j) && i < RoundTrip.Parts(j) && RoundTrip.Own(j, c)
    requires q == if RoundTrip.For(j, c) && Parse(c.p).index !in r.got
                  then RoundTrip.Progress(r.got + {Parse(c.p).index}, c.now) else r
    ensures i in q.got <==> i in r.got || (c.src == j.src && c.p == FragmentAt(j.payload, j.id, i))
  {
    FragmentFor(j, c, i);
  }

  lemma ArrivedStep(j: RoundTrip.Job, calls: seq<Reassembly.Call>, n: nat, d: seq<Byte>)
    requires n < |calls|
    ensures ArrivedBy(j, calls, n + 1, d) <==> ArrivedBy(j, calls, n, d) || (calls[n].src == j.src && calls[n].p == d)
  {
    if ArrivedBy(j, calls, n, d) {
      var m :| 0 <= m < n && calls[m].src == j.src && calls[m].p == d;
      assert 0 <= m < n + 1;
    }
  }

  lemma {:induction false} AllGot(j: RoundTrip.Job, calls: seq<Reassembly.Call>, n: nat)
    requires RoundTrip.Valid(j) && RoundTrip.Suits(j, calls) && n <= |calls|
    ensures RoundTrip.After(j, calls[..n]).got == RoundTrip.All(j) <==> AllArrived(j, calls, n)
  {
    var ds, got := Datagrams(j.payload, j.id), RoundTrip.After(j, calls[..n]).got;
    RoundTrip.TracksAlways(j, calls, n);
    forall i: nat | i < RoundTrip.Parts(j)
      ensures i in got <==> ArrivedBy(j, calls, n, ds[i])
    {
      assert ds[i] == FragmentAt(j.payload, j.id, i);
      GotExactly(j, calls, n, i);
    }
    GotAll(j, calls, n, ds, got);
  }

  lemma GotAll(j: RoundTrip.Job, calls: seq<Reassembly.Call>, n: nat, ds: seq<seq<Byte>>, got: set<nat>)
    requires n <= |calls| && |ds| == RoundTrip.Parts(j) && got <= Below(|ds|)
    requires forall i: nat :: i < |ds| ==> (i in got <==> ArrivedBy(j, calls, n, ds[i]))
    ensures got == Below(|ds|) <==> forall d :: d in ds ==> ArrivedBy(j, calls, n, d)
  {
    if forall d :: d in ds ==> ArrivedBy(j, calls, n, d) {
      forall i: nat | i < |ds| ensures i in got { assert ds[i] in ds; }
    }
  }

  /** What Send cuts, the reassembler puts together, for every sequence of calls that gives the packet a
      chance: in any order, with repetitions, gaps under the TTL and other traffic, each fragment is
      answered with "not yet" until every datagram of Send has arrived, and then with the packet. */
  lemma SendThenPush(j: RoundTrip.Job, calls: seq<Reassembly.Call>, n: nat)
    requires RoundTrip.Valid(j) && RoundTrip.Suits(j, calls) && n < |calls| && RoundTrip.For(j, calls[n])
    ensures Reassembly.OutcomeAt(calls, n) == if AllArrived(j, calls, n + 1) then Ready(j.payload) else Pending
  {
    RoundTrip.ReassembledExactly(j, calls, n);
    AllGot(j, calls, n + 1);
  }

  /** In particular in order, at one moment, by a new reassembler: the answer to the last datagram, and to
      no earlier one, is the packet. Packets sent whole need the marker to be absent. */
  lemma SendInOrder(src: Key, payload: seq<Byte>, id: nat, now: int, n: nat)
    requires id < ID_LIMIT && |payload| <= MAX_SIZE && n < |Datagrams(payload, id)|
    requires |payload| <= CHUNK ==> !HasPrefix(payload, MAGIC)
    ensures var calls := Arrivals(src, payload, id, now);
            Reassembly.OutcomeAt(calls, n) == if n == |calls| - 1 then Ready(payload) else Pending
  {
    if |payload| > CHUNK {
      var j, calls := RoundTrip.Job(src, id, payload), Arrivals(src, payload, id, now);
      CutThenPush(j, calls, now, n);
    }
  }

  lemma ArrivalsSuitAll(j: RoundTrip.Job, calls: seq<Reassembly.Call>, now: int)
    requires RoundTrip.Valid(j) && calls == Arrivals(j.src, j.payload, j.id, now)
    ensures RoundTrip.Suits(j, calls)
  {
    forall m: nat | m < |calls|
      ensures RoundTrip.Own(j, calls[m])
      ensures RoundTrip.InTime(j, Reassembly.Run(calls[..m]), RoundTrip.After(j, calls[..m]), calls[m])
      ensures RoundTrip.After(j, calls[..m]).got != RoundTrip.All(j)
    {
      ArrivalsSuit(j, calls, now, m);
    }
  }

  lemma CutThenPush(j: RoundTrip.Job, calls: seq<Reassembly.Call>, now: int, n: nat)
    requires n < |calls| && RoundTrip.Valid(j) && calls == Arrivals(j.src, j.payload, j.id, now)
    ensures Reassembly.OutcomeAt(calls, n) == if n == |calls| - 1 then Ready(j.payload) else Pending
  {
    ArrivalsSuitAll(j, calls, now);
    ArrivalAt(j.src, j.payload, j.id, now, n);
    ArrivedSoFar(j, calls, now, n + 1);
    RoundTrip.ReassembledExactly(j, calls, n);
    assert |Below(n + 1)| == n + 1;
  }

  // ---------------------------------------------------------------- a whole Send

  /** These datagrams as pushes, in order, at one moment. */
  function Pushes(src: Key, ds: seq<seq<Byte>>, now: int): (calls: seq<Reassembly.Call>)
    ensures |calls| == |ds| && forall i :: 0 <= i < |ds| ==> calls[i] == Reassembly.Call(src, ds[i], now)
  {
    seq(|ds|, i requires 0 <= i < |ds| => Reassembly.Call(src, ds[i], now))
  }

  /** What one push hands on. */
  function HandedOn(t: Table, c: Reassembly.Call): (payloads: seq<seq<Byte>>)
    requires Inv(t)
  {
    var o := Fragments.Push(t, c.src, c.p, c.now).outcome;
    if o.Ready? then [o.payload] else []
  }

  /** What the reassembler hands on, in order. */
  function Passed(calls: seq<Reassembly.Call>): (payloads: seq<seq<Byte>>) {
    if calls == [] then [] else
    var n := |calls| - 1;
    Passed(calls[..n]) + HandedOn(Reassembly.Run(calls[..n]), calls[n])
  }

  lemma {:induction false} AppendOne(a: seq<Reassembly.Call>, c: Reassembly.Call, longer: seq<Reassembly.Call>)
    requires longer == a + [c]
    ensures Reassembly.Run(longer) == Fragments.Push(Reassembly.Run(a), c.src, c.p, c.now).table
    ensures Passed(longer) == Passed(a) + HandedOn(Reassembly.Run(a), c)
  {
    assert longer[..|a|] == a;
  }

  /** The same call after two sequences that leave the same table. */
  lemma {:induction false} SameCall(x: seq<Reassembly.Call>, y: seq<Reassembly.Call>, c: Reassembly.Call,
                                    x': seq<Reassembly.Call>, y': seq<Reassembly.Call>, before: seq<seq<Byte>>)
    requires Reassembly.Run(x) == Reassembly.Run(y) && Passed(x) == before + Passed(y)
    requires x' == x + [c] && y' == y + [c]
    ensures Reassembly.Run(x') == Reassembly.Run(y') && Passed(x') == before + Passed(y')
  {
    AppendOne(x, c, x');
    AppendOne(y, c, y');
    Regrouped(before, Passed(y), HandedOn(Reassembly.Run(y), c));
  }

  lemma {:induction false} Regrouped(a: seq<seq<Byte>>, b: seq<seq<Byte>>, c: seq<seq<Byte>>)
    ensures a + b + c == a + (b + c)
  {
  }

  /** After calls that leave the table empty, the rest runs as on a new reassembler. */
  lemma {:induction false} RunAfterEmpty(a: seq<Reassembly.Call>, b: seq<Reassembly.Call>, n: nat)
    requires Reassembly.Run(a) == map[] && n <= |b|
    ensures Reassembly.Run(a + b[..n]) == Reassembly.Run(b[..n]) && Passed(a + b[..n]) == Passed(a) + Passed(b[..n])
  {
    if n == 0 {
      assert a + b[..0] == a;
    } else {
      RunAfterEmpty(a, b, n - 1);
      OneLonger(a, b, n - 1);
      SameCall(a + b[..n - 1], b[..n - 1], b[n - 1], a + b[..n], b[..n], Passed(a));
    }
  }

  lemma {:induction false} PassedSoFar(j: RoundTrip.Job, calls: seq<Reassembly.Call>, now: int, n: nat)
    requires n <= |calls| && RoundTrip.Valid(j) && calls == Arrivals(j.src, j.payload, j.id, now)
    ensures Passed(calls[..n]) == if n < |calls| then [] else [j.payload]
  {
    if n == 0 {
      ArrivalAt(j.src, j.payload, j.id, now, 0);
    } else {
      PassedSoFar(j, calls, now, n - 1);
      CutThenPush(j, calls, now, n - 1);
      OneLonger([], calls, n - 1);
      AppendOne(calls[..n - 1], calls[n - 1], calls[..n]);
    }
  }

  /** Fragments of one packet leave at most that packet's assembly. */
  lemma {:induction false} OneKey(j: RoundTrip.Job, calls: seq<Reassembly.Call>)
    requires forall i :: 0 <= i < |calls| ==> RoundTrip.For(j, calls[i])
    ensures Reassembly.Run(calls).Keys <= {RoundTrip.KeyOf(j)}
  {
    if calls != [] {
      var n := |calls| - 1;
      OneKey(j, calls[..n]);
      OneKeyStep(j, Reassembly.Run(calls[..n]), calls[n]);
    }
  }

  lemma OneKeyStep(j: RoundTrip.Job, t: Table, c: Reassembly.Call)
    requires Inv(t) && RoundTrip.For(j, c) && t.Keys <= {RoundTrip.KeyOf(j)}
    ensures Fragments.Push(t, c.src, c.p, c.now).table.Keys <= {RoundTrip.KeyOf(j)}
  {
    if Reaches(c.p) {
      ExpireKeeps(t, c.now);
      AcceptKeys(Expire(t, c.now), RoundTrip.KeyOf(j), Parse(c.p), c.now);
    }
  }

  lemma AcceptKeys(t: Table, k: FragmentKey, h: Header, now: int)
    requires Inv(t) && WellFormed(h)
    ensures Accept(t, k, h, now).table.Keys <= t.Keys + {k}
  {
    forall other | other in Accept(t, k, h, now).table && other != k ensures other in t {
      AcceptElsewhere(t, k, h, now, other);
    }
  }

  /** One packet of Send: it is handed on, once, and nothing is left behind. */
  lemma OnePacket(src: Key, payload: seq<Byte>, id: nat, now: int)
    requires id < ID_LIMIT && |payload| <= MAX_SIZE && (|payload| <= CHUNK ==> !HasPrefix(payload, MAGIC))
    ensures var calls := Pushes(src, Datagrams(payload, id), now);
            Passed(calls) == [payload] && Reassembly.Run(calls) == map[]
  {
    var calls := Pushes(src, Datagrams(payload, id), now);
    if |payload| <= CHUNK {
      WholeOne(calls, payload);
    } else {
      var j := RoundTrip.Job(src, id, payload);
      assert calls == Arrivals(src, payload, id, now);
      CutOne(j, calls, now);
    }
  }

  lemma WholeOne(calls: seq<Reassembly.Call>, payload: seq<Byte>)
    requires |calls| == 1 && calls[0].p == payload && !HasPrefix(payload, MAGIC)
    ensures Passed(calls) == [payload] && Reassembly.Run(calls) == map[]
  {
    assert calls[..0] == [];
  }

  lemma CutOne(j: RoundTrip.Job, calls: seq<Reassembly.Call>, now: int)
    requires RoundTrip.Valid(j) && calls == Arrivals(j.src, j.payload, j.id, now)
    ensures Passed(calls) == [j.payload] && Reassembly.Run(calls) == map[]
  {
    var n := |calls|;
    PassedSoFar(j, calls, now, n);
    ArrivalsSuitAll(j, calls, now);
    RoundTrip.TracksAlways(j, calls, n);
    ArrivedSoFar(j, calls, now, n);
    assert calls[..n] == calls;
    forall i | 0 <= i < n ensures RoundTrip.For(j, calls[i]) { ArrivalAt(j.src, j.payload, j.id, now, i); }
    OneKey(j, calls);
    assert Reassembly.Run(calls).Keys == {};
  }

  lemma PushesSplit(src: Key, a: seq<seq<Byte>>, b: seq<seq<Byte>>, now: int)
    ensures Pushes(src, a + b, now) == Pushes(src, a, now) + Pushes(src, b, now)
  {
  }

  function PacketsIn(bufs: seq<seq<Byte>>, offset: int): (ps: seq<seq<Byte>>)
    ensures |ps| == |bufs| && forall i :: 0 <= i < |bufs| ==> ps[i] == PacketIn(bufs[i], offset)
  {
    seq(|bufs|, i requires 0 <= i < |bufs| => PacketIn(bufs[i], offset))
  }

  /** Everything that one Send forwards, arriving in order at a new reassembler: exactly the packets in the
      buffers are handed on, in order, each once, and nothing is left in the table. */
  lemma {:induction false} SendAllReceived(src: Key, bufs: seq<seq<Byte>>, offset: int, ids: seq<nat>, now: int)
    requires |ids| == |bufs| && forall i :: 0 <= i < |bufs| ==> Arrives(bufs[i], offset, ids[i])
    ensures var calls := Pushes(src, AllDatagrams(bufs, offset, ids), now);
            Passed(calls) == PacketsIn(bufs, offset) && Reassembly.Run(calls) == map[]
  {
    SendReceived(src, bufs, offset, ids, now, |bufs|);
    assert bufs[..|bufs|] == bufs && ids[..|bufs|] == ids;
  }

  /** What the datagrams of the first n buffers come to. */
  ghost predicate ReceivedUpTo(src: Key, bufs: seq<seq<Byte>>, offset: int, ids: seq<nat>, now: int, n: nat)
    requires |ids| == |bufs| && n <= |bufs|
  {
    var calls := Pushes(src, AllDatagrams(bufs[..n], offset, ids[..n]), now);
    Passed(calls) == PacketsIn(bufs[..n], offset) && Reassembly.Run(calls) == map[]
  }

  /** A buffer that Send forwards, with a packet that arrives as itself. */
  predicate Arrives(buf: seq<Byte>, offset: int, id: nat) {
    Fine(buf, offset) && id < ID_LIMIT && (|PacketIn(buf, offset)| <= CHUNK ==>
        !HasPrefix(PacketIn(buf, offset), MAGIC))
  }

  lemma {:induction false} SendReceived(src: Key, bufs: seq<seq<Byte>>, offset: int, ids: seq<nat>, now: int, n: nat)
    requires |ids| == |bufs| && n <= |bufs|
    requires forall i :: 0 <= i < |bufs| ==> Arrives(bufs[i], offset, ids[i])
    ensures ReceivedUpTo(src, bufs, offset, ids, now, n)
  {
    if n == 0 {
      SendReceivedNone(src, bufs, offset, ids, now);
    } else {
      SendReceived(src, bufs, offset, ids, now, n - 1);
      SendReceivedOne(src, bufs, offset, ids, now, n - 1);
    }
  }

  lemma {:induction false} SendReceivedNone(src: Key, bufs: seq<seq<Byte>>, offset: int, ids: seq<nat>, now: int)
    requires |ids| == |bufs|
    ensures ReceivedUpTo(src, bufs, offset, ids, now, 0)
  {
    assert bufs[..0] == [];
  }

  lemma {:induction false} SendReceivedOne(src: Key, bufs: seq<seq<Byte>>, offset: int, ids: seq<nat>, now: int, n: nat)
    requires |ids| == |bufs| && n < |bufs| && Arrives(bufs[n], offset, ids[n])
    requires ReceivedUpTo(src, bufs, offset, ids, now, n)
    ensures ReceivedUpTo(src, bufs, offset, ids, now, n + 1)
  {
    var payload := PacketIn(bufs[n], offset);
    OnePacket(src, payload, ids[n], now);
    NextBuffer(bufs, offset, ids, n);
    NextPacketIn(bufs, offset, n);
    OneMorePacket(src, AllDatagrams(bufs[..n], offset, ids[..n]), Datagrams(payload, ids[n]), now);
  }

  lemma {:induction false} NextPacketIn(bufs: seq<seq<Byte>>, offset: int, n: nat)
    requires n < |bufs|
    ensures PacketsIn(bufs[..n + 1], offset) == PacketsIn(bufs[..n], offset) + [PacketIn(bufs[n], offset)]
  {
  }

  lemma OneMorePacket(src: Key, before: seq<seq<Byte>>, ds: seq<seq<Byte>>, now: int)
    requires Reassembly.Run(Pushes(src, before, now)) == map[] && Reassembly.Run(Pushes(src, ds, now)) == map[]
    ensures Reassembly.Run(Pushes(src, before + ds, now)) == map[]
    ensures Passed(Pushes(src, before + ds, now)) == Passed(Pushes(src, before, now)) + Passed(Pushes(src, ds, now))
  {
    var a, b := Pushes(src, before, now), Pushes(src, ds, now);
    PushesSplit(src, before, ds, now);
    RunAfterEmpty(a, b, |b|);
    assert b[..|b|] == b;
  }
}
