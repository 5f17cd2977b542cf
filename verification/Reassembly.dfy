/** The reassembler object, and what holds over whole sequences of pushes: lifetimes and the round
    trip. */
module Reassembly {
  import opened Bytes
  import opened Packet
  import opened Fragments

  /** The cleanup loop: visits the assemblies in any order and deletes the expired ones. */
  method Cleanup(sets: Table, now: int) returns (r: Table)
    ensures r == Expire(sets, now)
  {
    r := sets;
    var todo := sets.Keys;
    while todo != {}
      invariant todo <= sets.Keys
      invariant r == map k | k in sets && (k in todo || !Expired(sets[k], now)) :: sets[k]
      decreases todo
    {
      var k :| k in todo;
      if now - r[k].updated >= TTL { r := r - {k}; }
      todo := todo - {k};
    }
  }

  /** The counting loop over the assemblies of one source. */
  method SourceAssemblyCount(sets: Table, src: Key) returns (count: nat)
    ensures count == |Of(sets, src)|
  {
    count := 0;
    var todo := sets.Keys;
    ghost var counted: set<FragmentKey> := {};
    while todo != {}
      invariant todo <= sets.Keys
      invariant counted == set k | k in sets.Keys - todo && k.src == src
      invariant count == |counted|
      decreases todo
    {
      var k :| k in todo;
      if k.src == src {
        count := count + 1;
        counted := counted + {k};
      }
      todo := todo - {k};
    }
    assert counted == Of(sets, src);
  }

  /** The join loop: all parts in order, or nothing if one is missing. */
  method Join(parts: seq<seq<Byte>>) returns (out: seq<Byte>, whole: bool)
    ensures whole <==> [] !in parts
    ensures whole ==> out == Concat(parts)
  {
    out := [];
    for i := 0 to |parts|
      invariant [] !in parts[..i]
      invariant out == Concat(parts[..i])
    {
      if parts[i] == [] { return [], false; }
      assert parts[..i + 1] == parts[..i] + [parts[i]];
      ConcatAppend(parts[..i], parts[i]);
      out := out + parts[i];
    }
    assert parts[..|parts|] == parts;
    whole := true;
  }

  class Reassembler {
    var sets: Table

    ghost predicate Valid()
      reads this
    {
      Inv(sets)
    }

    constructor ()
      ensures Valid() && sets == map[]
    {
      sets := map[];
    }

    method Reset()
      modifies this
      ensures Valid() && sets == map[]
    {
      sets := map[];
    }

    /** The end of Push: the part is new and is stored. */
    method StorePart(k: FragmentKey, set': Assembly, h: Header, now: int) returns (r: Outcome)
      requires h.index < |set'.parts|
      modifies this
      ensures Pushed(sets, r) == Store(old(sets), k, set', h, now)
    {
      var a := set'.(parts := set'.parts[h.index := h.chunk], received := set'.received + 1, updated := now);
      sets := sets[k := a];
      if a.received != a.count { return Pending; }
      var out, whole := Join(a.parts);
      if !whole { return Incomplete; }
      sets := sets - {k};
      assert sets == old(sets) - {k};
      if |out| != a.total { return Mismatch; }
      return Ready(out);
    }

    /** Push, with the clock as a parameter. */
    method Push(src: Key, p: seq<Byte>, now: int) returns (r: Outcome)
      requires Valid()
      modifies this
      ensures Pushed(sets, r) == Fragments.Push(old(sets), src, p, now)
      ensures Valid() && !r.Incomplete? && !r.Mismatch?
    {
      PushKeeps(sets, src, p, now);
      if !HasPrefix(p, MAGIC) { return Ready(p); }
      if |p| < HEADER { return Rejected; }
      var h := Parse(p);
      if h.count < 2 || h.index >= h.count { return Rejected; }
      if h.total <= CHUNK || h.total > MAX_SIZE { return Rejected; }
      var expectedCount := (h.total + CHUNK - 1) / CHUNK;
      if h.count != expectedCount { return Rejected; }
      var expectedLen := CHUNK;
      if h.index == expectedCount - 1 { expectedLen := h.total - (expectedCount - 1) * CHUNK; }
      if |h.chunk| != expectedLen { return Rejected; }
      r := PushChecked(FragmentKey(src, h.id), h, now);
    }

    /** The part of Push under the lock. */
    method PushChecked(k: FragmentKey, h: Header, now: int) returns (r: Outcome)
      requires Valid() && WellFormed(h)
      modifies this
      ensures Inv(Expire(old(sets), now))
      ensures Pushed(sets, r) == Accept(Expire(old(sets), now), k, h, now)
    {
      ExpireKeeps(sets, now);
      sets := Cleanup(sets, now);
      if k !in sets {
        var n := SourceAssemblyCount(sets, k.src);
        if n >= MAX_PER_SOURCE { return Rejected; }
        if |sets| >= MAX_SETS { return Rejected; }
        r := StorePart(k, Fresh(h, now), h, now);
      } else if sets[k].count != h.count || sets[k].total != h.total {
        sets := sets - {k};
        r := Rejected;
      } else {
        var part := sets[k].parts[h.index];
        if part == [] {
          r := StorePart(k, sets[k], h, now);
        } else if part == h.chunk {
          r := Pending;
        } else {
          sets := sets - {k};
          r := Rejected;
        }
      }
    }
  }

  // ---------------------------------------------------------------- runs

  /** One call of Push. No assumption is made on the clock values. */
  datatype Call = Call(src: Key, p: seq<Byte>, now: int)

  /** The table after some calls on a new reassembler. */
  function Run(calls: seq<Call>): (t: Table)
    ensures Inv(t)
  {
    if calls == [] then map[] else
    var t, c := Run(calls[..|calls| - 1]), calls[|calls| - 1];
    PushKeeps(t, c.src, c.p, c.now);
    Fragments.Push(t, c.src, c.p, c.now).table
  }

  /** What the n-th call returned. */
  function OutcomeAt(calls: seq<Call>, n: nat): (o: Outcome)
    requires n < |calls|
  {
    Fragments.Push(Run(calls[..n]), calls[n].src, calls[n].p, calls[n].now).outcome
  }

  lemma RunStep(calls: seq<Call>, n: nat)
    requires n < |calls|
    ensures Run(calls[..n + 1]) == Fragments.Push(Run(calls[..n]), calls[n].src, calls[n].p, calls[n].now).table
  {
    assert calls[..n + 1][..n] == calls[..n];
  }

  // ---------------------------------------------------------------- lifetimes

  /** The creation times of the assemblies in `after`: an assembly that was there and was not expired
      by this call keeps its own, any other was created by this call. */
  ghost function BornStep(before: Table, born: map<FragmentKey, int>, c: Call, after: Table): (m: map<FragmentKey, int>)
    requires born.Keys == before.Keys
    ensures m.Keys == after.Keys
  {
    map k | k in after :: if k in before && !(Reaches(c.p) && Expired(before[k], c.now)) then born[k] else c.now
  }

  /** When each retained assembly was created. */
  ghost function Born(calls: seq<Call>): (m: map<FragmentKey, int>)
    ensures m.Keys == Run(calls).Keys
  {
    if calls == [] then map[] else
    BornStep(Run(calls[..|calls| - 1]), Born(calls[..|calls| - 1]), calls[|calls| - 1], Run(calls))
  }

  /** The last new part came less than one TTL per earlier part after the creation. */
  ghost predicate Young(a: Assembly, born: int) {
    && (a.received == 1 ==> a.updated == born)
    && (a.received > 1 ==> a.updated - born < (a.received - 1) * TTL)
  }

  ghost predicate AllYoung(t: Table, born: map<FragmentKey, int>)
    requires born.Keys == t.Keys
  {
    forall k :: k in t ==> Young(t[k], born[k])
  }

  /** A push that reaches the table leaves an assembly as it was, gives it one new part, or creates
      it with its first part; an expired one never survives. */
  lemma PushTouches(t: Table, c: Call, k: FragmentKey)
    requires Inv(t) && Reaches(c.p)
    ensures var t' := Fragments.Push(t, c.src, c.p, c.now).table;
            k in t' ==>
              if k in t && !Expired(t[k], c.now)
              then t'[k] == t[k] || (t'[k].received == t[k].received + 1 && t'[k].updated == c.now)
              else t'[k].received == 1 && t'[k].updated == c.now
  {
    var h, t1 := Parse(c.p), Expire(t, c.now);
    ExpireKeeps(t, c.now);
    if k != FragmentKey(c.src, h.id) {
      AcceptElsewhere(t1, FragmentKey(c.src, h.id), h, c.now, k);
    } else {
      AcceptTouches(t1, k, h, c.now);
    }
  }

  lemma AcceptTouches(t: Table, k: FragmentKey, h: Header, now: int)
    requires Inv(t) && WellFormed(h)
    ensures var t' := Accept(t, k, h, now).table;
            k in t' ==>
              if k in t then t'[k] == t[k] || (t'[k].received == t[k].received + 1 && t'[k].updated == now)
              else t'[k].received == 1 && t'[k].updated == now
  {
  }

  lemma {:induction false} YoungAlways(calls: seq<Call>)
    ensures AllYoung(Run(calls), Born(calls))
  {
    if calls != [] {
      var before, c := calls[..|calls| - 1], calls[|calls| - 1];
      YoungAlways(before);
      forall k | k in Run(calls) ensures Young(Run(calls)[k], Born(calls)[k]) {
        if Reaches(c.p) { PushTouches(Run(before), c, k); }
      }
    }
  }

  /** After any push that reaches the cleanup at time `now`, an assembly of c parts was created less
      than (c - 1) x 30 s ago: repeating a part cannot keep it alive. */
  lemma LifetimeBounded(calls: seq<Call>, k: FragmentKey)
    requires calls != [] && Reaches(calls[|calls| - 1].p) && k in Run(calls)
    ensures calls[|calls| - 1].now - Born(calls)[k] < (Run(calls)[k].count - 1) * 30_000_000_000
  {
    var before, c := calls[..|calls| - 1], calls[|calls| - 1];
    YoungAlways(calls);
    PushTouches(Run(before), c, k);
    var a := Run(calls)[k];
    assert Sane(a);
    assert c.now - a.updated < TTL;
    assert (a.received - 1) * TTL + TTL == a.received * TTL;
    assert a.received * TTL <= (a.count - 1) * TTL;
  }
}
