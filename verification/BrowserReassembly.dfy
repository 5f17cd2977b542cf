/** The browser build has its own reassembler with its checks in another order. It is the native one
    on every fragment whose length fits its header, and differs on others in a known way. */
module BrowserReassembly {
  import opened Bytes
  import opened Packet
  import opened Fragments
  import Reassembly

  /** The browser's header test has no lower bound on the total. */
  predicate BrowserWellFormed(h: Header) {
    h.count >= 2 && h.index < h.count && h.total <= MAX_SIZE && h.count == CountFor(h.total)
  }

  /** The missing bound is implied by the count. */
  lemma SameHeaderTest(h: Header)
    ensures BrowserWellFormed(h) <==> WellFormed(h)
  {
    if h.total <= CHUNK {
      assert CountFor(h.total) <= 1;
    }
  }

  /** Quotas and metadata are tested before the length; a wrong length deletes the assembly. */
  function BrowserAccept(t: Table, k: FragmentKey, h: Header, now: int): (r: Pushed)
    requires WellFormed(h) && Inv(t)
  {
    if k !in t && (|Of(t, k.src)| >= MAX_PER_SOURCE || |t| >= MAX_SETS) then Pushed(t, Rejected)
    else BrowserFound(t, k, if k in t then t[k] else Fresh(h, now), h, now)
  }

  /** The assembly is at hand: the retained one, or a new one. */
  function BrowserFound(t: Table, k: FragmentKey, a: Assembly, h: Header, now: int): (r: Pushed)
    requires WellFormed(h) && |a.parts| == a.count
  {
    if a.count != h.count || a.total != h.total then Pushed(t - {k}, Rejected)
    else if !RightLength(h) then Pushed(t - {k}, Rejected)
    else if a.parts[h.index] != [] then
      if a.parts[h.index] == h.chunk then Pushed(t[k := a], Pending) else Pushed(t - {k}, Rejected)
    else Store(t, k, a, h, now)
  }

  lemma WithoutIt(t: Table, k: FragmentKey, a: Assembly)
    ensures t[k := a] - {k} == t - {k}
  {
  }

  lemma Unchanged(t: Table, k: FragmentKey)
    requires k in t
    ensures t[k := t[k]] == t
  {
  }

  function BrowserPush(t: Table, src: Key, p: seq<Byte>, now: int): (r: Pushed)
    requires Inv(t)
  {
    if !HasPrefix(p, MAGIC) then Pushed(t, Ready(p))
    else if |p| < HEADER || !BrowserWellFormed(Parse(p)) then Pushed(t, Rejected)
    else
      ExpireKeeps(t, now);
      SameHeaderTest(Parse(p));
      BrowserAccept(Expire(t, now), FragmentKey(src, Parse(p).id), Parse(p), now)
  }

  /** A datagram that passes the header test has the chunk length its header implies. */
  predicate RightSized(p: seq<Byte>) { IsFragment(p) && WellFormed(Parse(p)) ==> RightLength(Parse(p)) }

  /** On such datagrams one step of the two is the same: same result, same table. */
  lemma SameStep(t: Table, src: Key, p: seq<Byte>, now: int)
    requires Inv(t) && RightSized(p)
    ensures BrowserPush(t, src, p, now) == Push(t, src, p, now)
  {
    if IsFragment(p) {
      var h := Parse(p);
      SameHeaderTest(h);
      if WellFormed(h) {
        ExpireKeeps(t, now);
        SameAccept(Expire(t, now), FragmentKey(src, h.id), h, now);
      }
    }
  }

  /** Under the lock, with a chunk of the right length. */
  lemma SameAccept(t: Table, k: FragmentKey, h: Header, now: int)
    requires Inv(t) && WellFormed(h) && RightLength(h)
    ensures BrowserAccept(t, k, h, now) == Accept(t, k, h, now)
  {
    if k in t {
      Unchanged(t, k);
    } else {
      FreshOpen(h, now);
    }
  }

  /** On a wrong-sized fragment both refuse; the native table is untouched, the browser has expired old
      assemblies and dropped the one the fragment names. */
  lemma WrongSizedStep(t: Table, src: Key, p: seq<Byte>, now: int)
    requires Inv(t) && !RightSized(p)
    ensures Push(t, src, p, now) == Pushed(t, Rejected)
    ensures BrowserPush(t, src, p, now) == Pushed(Expire(t, now) - {FragmentKey(src, Parse(p).id)}, Rejected)
  {
    var h, k := Parse(p), FragmentKey(src, Parse(p).id);
    SameHeaderTest(h);
    var t1 := Expire(t, now);
    if k !in t1 {
      assert t1 - {k} == t1;
    }
  }

  /** The exact condition under which one step agrees in full: the fragment has the right size, or no
      assembly has expired and none bears its key. The results agree in every case. */
  lemma StepAgreesExactly(t: Table, src: Key, p: seq<Byte>, now: int)
    requires Inv(t)
    ensures BrowserPush(t, src, p, now).outcome == Push(t, src, p, now).outcome
    ensures BrowserPush(t, src, p, now).table == Push(t, src, p, now).table <==>
            RightSized(p) || (FragmentKey(src, Parse(p).id) !in t && forall k :: k in t ==> !Expired(t[k], now))
  {
    if RightSized(p) {
      SameStep(t, src, p, now);
    } else {
      WrongSizedStep(t, src, p, now);
      NothingDropped(t, FragmentKey(src, Parse(p).id), now);
    }
  }

  lemma NothingDropped(t: Table, k: FragmentKey, now: int)
    ensures Expire(t, now) - {k} == t <==> k !in t && forall j :: j in t ==> !Expired(t[j], now)
  {
    var t1 := Expire(t, now);
    if t1 - {k} == t {
      assert forall j :: j in t ==> j in t1 - {k};
    }
    if k !in t && forall j :: j in t ==> !Expired(t[j], now) {
      assert t1 - {k} == t;
    }
  }

  lemma BrowserPushKeeps(t: Table, src: Key, p: seq<Byte>, now: int)
    requires Inv(t)
    ensures Inv(BrowserPush(t, src, p, now).table)
  {
    if RightSized(p) {
      SameStep(t, src, p, now);
      PushKeeps(t, src, p, now);
    } else {
      WrongSizedStep(t, src, p, now);
      Shrunk(t, BrowserPush(t, src, p, now).table);
    }
  }

  function Run(calls: seq<Reassembly.Call>): (t: Table)
    ensures Inv(t)
  {
    if calls == [] then map[] else
    var t, c := Run(calls[..|calls| - 1]), calls[|calls| - 1];
    BrowserPushKeeps(t, c.src, c.p, c.now);
    BrowserPush(t, c.src, c.p, c.now).table
  }

  function OutcomeAt(calls: seq<Reassembly.Call>, n: nat): (o: Outcome)
    requires n < |calls|
  {
    BrowserPush(Run(calls[..n]), calls[n].src, calls[n].p, calls[n].now).outcome
  }

  /** Bisimilarity: on every sequence of right-sized pushes the two reach equal tables. */
  lemma {:induction false} SameTables(calls: seq<Reassembly.Call>)
    requires forall c :: c in calls ==> RightSized(c.p)
    ensures Run(calls) == Reassembly.Run(calls)
  {
    if calls != [] {
      var before, c := calls[..|calls| - 1], calls[|calls| - 1];
      SameTables(before);
      assert c in calls;
      SameStep(Run(before), c.src, c.p, c.now);
    }
  }

  /** ... and give the same answers on the way. */
  lemma SameOutcomes(calls: seq<Reassembly.Call>, n: nat)
    requires n < |calls| && forall c :: c in calls ==> RightSized(c.p)
    ensures OutcomeAt(calls, n) == Reassembly.OutcomeAt(calls, n)
  {
    SameTables(calls[..n]);
    assert calls[n] in calls;
    SameStep(Run(calls[..n]), calls[n].src, calls[n].p, calls[n].now);
  }

  // ---------------------------------------------------------------- the object

  class BrowserReassembler {
    var sets: Table

    constructor ()
      ensures Inv(sets) && sets == map[]
    {
      sets := map[];
    }

    method Push(src: Key, p: seq<Byte>, now: int) returns (r: Outcome)
      requires Inv(sets)
      modifies this
      ensures Pushed(sets, r) == BrowserPush(old(sets), src, p, now)
      ensures Inv(sets)
    {
      BrowserPushKeeps(sets, src, p, now);
      if !HasPrefix(p, MAGIC) { return Ready(p); }
      if |p| < HEADER { return Rejected; }
      var h := Parse(p);
      if h.count < 2 || h.index >= h.count || h.total > MAX_SIZE { return Rejected; }
      var expectedCount := (h.total + CHUNK - 1) / CHUNK;
      if h.count != expectedCount { return Rejected; }
      SameHeaderTest(h);
      r := PushChecked(FragmentKey(src, h.id), h, now);
    }

    method PushChecked(k: FragmentKey, h: Header, now: int) returns (r: Outcome)
      requires Inv(sets) && WellFormed(h)
      modifies this
      ensures Inv(Expire(old(sets), now))
      ensures Pushed(sets, r) == BrowserAccept(Expire(old(sets), now), k, h, now)
    {
      ExpireKeeps(sets, now);
      sets := Reassembly.Cleanup(sets, now);
      ghost var t := sets;
      if k !in sets {
        var n := Reassembly.SourceAssemblyCount(sets, k.src);
        if n >= MAX_PER_SOURCE { return Rejected; }
        if |sets| >= MAX_SETS { return Rejected; }
        sets := sets[k := Fresh(h, now)];
      } else {
        Unchanged(t, k);
      }
      r := PushFound(t, k, sets[k], h, now);
    }

    /** The rest of Push, with the assembly at hand; `t` is the table without a new one. */
    method PushFound(ghost t: Table, k: FragmentKey, a: Assembly, h: Header, now: int) returns (r: Outcome)
      requires WellFormed(h) && |a.parts| == a.count && sets == t[k := a]
      modifies this
      ensures Pushed(sets, r) == BrowserFound(t, k, a, h, now)
    {
      WithoutIt(t, k, a);
      if a.count != h.count || a.total != h.total {
        sets := sets - {k};
        return Rejected;
      }
      var expectedLen := CHUNK;
      if h.index == h.count - 1 { expectedLen := h.total - (h.count - 1) * CHUNK; }
      if |h.chunk| != expectedLen {
        sets := sets - {k};
        return Rejected;
      }
      if a.parts[h.index] != [] {
        if a.parts[h.index] == h.chunk { return Pending; }
        sets := sets - {k};
        return Rejected;
      }
      r := StorePart(t, k, a, h, now);
    }

    method StorePart(ghost t: Table, k: FragmentKey, a: Assembly, h: Header, now: int) returns (r: Outcome)
      requires h.index < |a.parts| && sets == t[k := a] && a.count == h.count && a.total == h.total
      modifies this
      ensures Pushed(sets, r) == Store(t, k, a, h, now)
    {
      var b := a.(parts := a.parts[h.index := h.chunk], received := a.received + 1, updated := now);
      sets := sets[k := b];
      assert sets == t[k := b];
      if b.received != h.count { return Pending; }
      var out, whole := Reassembly.Join(b.parts);
      if !whole { return Incomplete; }
      sets := sets - {k};
      assert sets == t - {k};
      if |out| != h.total { return Mismatch; }
      return Ready(out);
    }
  }
}
