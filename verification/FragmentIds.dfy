/** nextMasqueWGFragmentID: a clock reading plus an atomic counter, by callers in any interleaving. */
module FragmentIds {
  import opened Fragments

  /** A call has read the clock, or has also drawn its number. `begun` is the counter's value when
      the call began, so a call that drew number n had returned before this one began exactly when
      n <= begun. */
  datatype Call =
    | Reading(clock: nat, begun: nat)
    | Returned(clock: nat, begun: nat, number: nat, id: nat)

  datatype State = State(clock: nat, counter: nat, calls: seq<Call>)

  datatype Event = Tick(d: nat) | ReadClock | Draw(i: nat)

  function Step(s: State, e: Event): (t: State) {
    match e
    case Tick(d) => s.(clock := s.clock + d)
    case ReadClock => s.(calls := s.calls + [Reading(s.clock, s.counter)])
    case Draw(i) =>
      if i < |s.calls| && s.calls[i].Reading? then
        var n := s.counter + 1;
        var c := s.calls[i];
        s.(counter := n, calls := s.calls[i := Returned(c.clock, c.begun, n, (c.clock + n) % ID_LIMIT)])
      else s
  }

  function Run(start: nat, events: seq<Event>): (s: State) {
    if events == [] then State(start, 0, []) else Step(Run(start, events[..|events| - 1]), events[|events| - 1])
  }

  predicate CallOk(s: State, c: Call) {
    && c.clock <= s.clock && c.begun <= s.counter
    && (c.Returned? ==> c.begun < c.number <= s.counter && c.id == (c.clock + c.number) % ID_LIMIT)
  }

  predicate Before(a: Call, b: Call) { a.Returned? && a.number <= b.begun }

  predicate Ok(s: State) {
    && (forall i :: 0 <= i < |s.calls| ==> CallOk(s, s.calls[i]))
    && (forall i, j :: 0 <= i < |s.calls| && 0 <= j < |s.calls| && Before(s.calls[i], s.calls[j]) ==>
          s.calls[i].clock <= s.calls[j].clock)
    && (forall i, j :: 0 <= i < j < |s.calls| && s.calls[i].Returned? && s.calls[j].Returned? ==>
          s.calls[i].number != s.calls[j].number)
  }

  lemma {:induction false} OkStep(s: State, e: Event)
    requires Ok(s)
    ensures Ok(Step(s, e))
  {
    match e
    case Tick(_) =>
    case ReadClock =>
    case Draw(i) => if i < |s.calls| && s.calls[i].Reading? { DrawOk(s, i); }
  }

  lemma {:induction false} DrawOk(s: State, i: nat)
    requires Ok(s) && i < |s.calls| && s.calls[i].Reading?
    ensures Ok(Step(s, Draw(i)))
  {
    var t := Step(s, Draw(i));
    assert forall j :: 0 <= j < |t.calls| && j != i ==> t.calls[j] == s.calls[j];
    assert t.calls[i].number > s.counter;
  }

  lemma {:induction false} OkAlways(start: nat, events: seq<Event>)
    ensures Ok(Run(start, events))
  {
    if events != [] {
      OkAlways(start, events[..|events| - 1]);
      OkStep(Run(start, events[..|events| - 1]), events[|events| - 1]);
    }
  }

  lemma {:induction false} NoWrap(s: State, c: Call)
    requires CallOk(s, c) && c.Returned? && s.clock + s.counter < ID_LIMIT
    ensures c.id == c.clock + c.number
  {
  }

  /** Of two calls that do not overlap, the later one gets the greater ID, as long as clock and counter
      together fit 64 bits. */
  lemma {:induction false} SequentialIdsIncrease(start: nat, events: seq<Event>, i: nat, j: nat)
    requires var s := Run(start, events);
             && i < |s.calls| && j < |s.calls| && s.calls[j].Returned? && Before(s.calls[i], s.calls[j])
             && s.clock + s.counter < ID_LIMIT
    ensures Run(start, events).calls[i].id < Run(start, events).calls[j].id
  {
    OkAlways(start, events);
    var s := Run(start, events);
    NoWrap(s, s.calls[i]);
    NoWrap(s, s.calls[j]);
  }

  /** Calls with the same ID overlapped. */
  lemma {:induction false} CollidingCallsOverlap(start: nat, events: seq<Event>, i: nat, j: nat)
    requires var s := Run(start, events);
             && i < |s.calls| && j < |s.calls| && i != j && s.calls[i].Returned? && s.calls[j].Returned?
             && s.clock + s.counter < ID_LIMIT && s.calls[i].id == s.calls[j].id
    ensures var a, b := Run(start, events).calls[i], Run(start, events).calls[j]; !Before(a, b) && !Before(b, a)
  {
    OkAlways(start, events);
    var s := Run(start, events);
    NoWrap(s, s.calls[i]);
    NoWrap(s, s.calls[j]);
  }

  // ---------------------------------------------------------------- when a collision can be reached

  predicate BothReading(s: State, i: nat, j: nat) {
    i < |s.calls| && j < |s.calls| && i != j && s.calls[i].Reading? && s.calls[j].Reading?
  }

  /** The two calls have returned the same ID, and the counter has not wrapped. */
  predicate Collided(s: State, i: nat, j: nat) {
    && i < |s.calls| && j < |s.calls| && s.calls[i].Returned? && s.calls[j].Returned?
    && s.calls[i].id == s.calls[j].id && s.counter < ID_LIMIT
  }

  function RunFrom(s: State, events: seq<Event>): (t: State) {
    if events == [] then s else Step(RunFrom(s, events[..|events| - 1]), events[|events| - 1])
  }

  lemma {:induction false} RunOn(start: nat, events: seq<Event>, more: seq<Event>)
    ensures RunFrom(Run(start, events), more) == Run(start, events + more)
  {
    if more == [] {
      assert events + more == events;
    } else {
      var n := |more| - 1;
      RunOn(start, events, more[..n]);
      assert (events + more)[..|events + more| - 1] == events + more[..n];
    }
  }

  lemma {:induction false} ExtendFrom(s: State, events: seq<Event>, e: Event)
    ensures RunFrom(s, events + [e]) == Step(RunFrom(s, events), e)
  {
    assert (events + [e])[..|events|] == events;
  }

  /** What a call has read stays with it, and so does its ID. */
  predicate SameCall(a: Call, b: Call) { b.clock == a.clock && (a.Returned? ==> b == a) }

  lemma {:induction false} CallsStay(s: State, events: seq<Event>)
    ensures var t := RunFrom(s, events);
            |s.calls| <= |t.calls| && forall i :: 0 <= i < |s.calls| ==> SameCall(s.calls[i], t.calls[i])
  {
    if events != [] {
      CallsStay(s, events[..|events| - 1]);
    }
  }

  /** d other calls read the clock and draw their numbers. */
  lemma {:induction false} Others(s: State, d: nat) returns (events: seq<Event>)
    ensures RunFrom(s, events).counter == s.counter + d && |s.calls| <= |RunFrom(s, events).calls|
    ensures forall i :: 0 <= i < |s.calls| ==> RunFrom(s, events).calls[i] == s.calls[i]
  {
    if d == 0 {
      events := [];
    } else {
      var before := Others(s, d - 1);
      var t := RunFrom(s, before);
      ExtendFrom(s, before, ReadClock);
      ExtendFrom(s, before + [ReadClock], Draw(|t.calls|));
      events := before + [ReadClock] + [Draw(|t.calls|)];
    }
  }

  /** The schedule: the call with the later reading draws at once, the other one after as many others as
      their readings differ. */
  lemma {:induction false} CollisionSchedule(s: State, i: nat, j: nat) returns (more: seq<Event>)
    requires BothReading(s, i, j) && s.calls[j].clock < s.calls[i].clock <= s.clock
    requires s.clock + s.counter + 1 < ID_LIMIT
    ensures Collided(RunFrom(s, more), i, j)
  {
    var d := s.calls[i].clock - s.calls[j].clock;
    var t := Step(s, Draw(i));
    var between := Others(t, d - 1);
    var u := RunFrom(t, between);
    RunFromStep(s, Draw(i), between);
    ExtendFrom(s, [Draw(i)] + between, Draw(j));
    more := [Draw(i)] + between + [Draw(j)];
    assert u.calls[i] == t.calls[i] && u.calls[j] == s.calls[j];
    assert u.counter + 1 == t.calls[i].number + d;
  }

  lemma {:induction false} RunFromStep(s: State, e: Event, events: seq<Event>)
    ensures RunFrom(s, [e] + events) == RunFrom(Step(s, e), events)
  {
    if events == [] {
      assert [e] + events == [] + [e];
      ExtendFrom(s, [], e);
    } else {
      var n := |events| - 1;
      RunFromStep(s, e, events[..n]);
      assert ([e] + events)[..|[e] + events| - 1] == [e] + events[..n];
    }
  }

  /** Equal readings never collide: the numbers differ. */
  lemma {:induction false} EqualReadingsDiffer(t: State, i: nat, j: nat)
    requires Ok(t) && i < |t.calls| && j < |t.calls| && i != j && t.calls[i].clock == t.calls[j].clock
    ensures !Collided(t, i, j)
  {
    var a, b := t.calls[i], t.calls[j];
    assert CallOk(t, a) && CallOk(t, b);
    if a.Returned? && b.Returned? && t.counter < ID_LIMIT { DifferentRests(a.clock, a.number, b.number); }
  }

  lemma {:induction false} DifferentRests(c: nat, m: nat, n: nat)
    requires m < ID_LIMIT && n < ID_LIMIT && m != n
    ensures (c + m) % ID_LIMIT != (c + n) % ID_LIMIT
  {
  }

  ghost predicate CollisionAhead(start: nat, events: seq<Event>, i: nat, j: nat) {
    exists more: seq<Event> :: Collided(Run(start, events + more), i, j)
  }

  /** Two calls that have both read the clock can still come to the same ID exactly when their readings
      differ: it then depends on the schedule alone. */
  lemma {:induction false} CollisionExactly(start: nat, events: seq<Event>, i: nat, j: nat)
    requires BothReading(Run(start, events), i, j)
    requires Run(start, events).clock + Run(start, events).counter + 1 < ID_LIMIT
    ensures var calls := Run(start, events).calls;
            CollisionAhead(start, events, i, j) <==> calls[i].clock != calls[j].clock
  {
    var s := Run(start, events);
    OkAlways(start, events);
    assert CallOk(s, s.calls[i]) && CallOk(s, s.calls[j]);
    if s.calls[i].clock > s.calls[j].clock {
      var more := CollisionSchedule(s, i, j);
      RunOn(start, events, more);
    } else if s.calls[i].clock < s.calls[j].clock {
      var more := CollisionSchedule(s, j, i);
      RunOn(start, events, more);
      assert Collided(Run(start, events + more), i, j);
    } else {
      forall more: seq<Event> ensures !Collided(Run(start, events + more), i, j) {
        NeverFromEqual(start, events, i, j, more);
      }
    }
  }

  lemma {:induction false} NeverFromEqual(start: nat, events: seq<Event>, i: nat, j: nat, more: seq<Event>)
    requires BothReading(Run(start, events), i, j)
    requires Run(start, events).calls[i].clock == Run(start, events).calls[j].clock
    ensures !Collided(Run(start, events + more), i, j)
  {
    RunOn(start, events, more);
    CallsStay(Run(start, events), more);
    OkAlways(start, events + more);
    EqualReadingsDiffer(Run(start, events + more), i, j);
  }

  lemma {:induction false} Extend(start: nat, events: seq<Event>, e: Event)
    ensures Run(start, events + [e]) == Step(Run(start, events), e)
  {
    assert (events + [e])[..|events|] == events;
  }

  lemma {:induction false} NextIs(start: nat, events: seq<Event>, e: Event, longer: seq<Event>, s: State)
    requires longer == events + [e] && s == Run(start, events)
    ensures Run(start, longer) == Step(s, e)
  {
    Extend(start, events, e);
  }

  /** The counter alone does not make IDs unique: two overlapping calls, the second drawing its number
      first. */
  lemma {:induction false} OverlapMayCollide()
    ensures Collided(Run(7, [ReadClock, Tick(1), ReadClock, Draw(1), Draw(0)]), 0, 1)
  {
    var s0 := State(7, 0, []);
    var s1 := Step(s0, ReadClock);
    var s2 := Step(s1, Tick(1));
    var s3 := Step(s2, ReadClock);
    NextIs(7, [], ReadClock, [ReadClock], s0);
    NextIs(7, [ReadClock], Tick(1), [ReadClock, Tick(1)], s1);
    NextIs(7, [ReadClock, Tick(1)], ReadClock, [ReadClock, Tick(1), ReadClock], s2);
    NextIs(7, [ReadClock, Tick(1), ReadClock], Draw(1), [ReadClock, Tick(1), ReadClock, Draw(1)], s3);
    NextIs(7, [ReadClock, Tick(1), ReadClock, Draw(1)], Draw(0), [ReadClock, Tick(1), ReadClock, Draw(1), Draw(0)],
        Step(s3, Draw(1)));
    DrawBoth(s3);
  }

  lemma {:induction false} DrawBoth(s: State)
    requires s == State(8, 0, [Reading(7, 0), Reading(8, 0)])
    ensures Collided(Step(Step(s, Draw(1)), Draw(0)), 0, 1)
  {
  }
}
