/** Operations, Status and Close in any interleaving, over any number of restarts. */
module LeaseRun {
  import opened Lease
  import opened Wrappers

  /** Close keeps the mutex from its first line to its last, also while it waits. */
  datatype Lock = Free | WaitingForOps | ClosingPath | ClosingCore

  datatype State = State(
    f: Fields,
    lock: Lock,
    next: Generation,
    leases: map<nat, Generation>,
    closedCores: set<Generation>,
    closedPaths: set<Generation>)

  datatype Event =
    | Ensure(dialOk: bool)
    | Grant(op: nat)
    | Status(op: nat)
    | Release(op: nat)
    | BeginClose
    | WaitOver
    | ClosePath
    | CloseCore

  const INIT := State(EMPTY, Free, 0, map[], {}, {})

  function Lend(s: State, op: nat): (t: State)
    requires s.f.core.Some?
  {
    s.(f := s.f.(activeOps := s.f.activeOps + 1), leases := s.leases[op := s.f.core.value])
  }

  function Step(s: State, e: Event): (t: State) {
    match e
    case Ensure(dialOk) =>
      if s.lock.Free? && dialOk && !s.f.started then s.(f := Started(s.f, s.next), next := s.next + 1) else s
    case Grant(op) => if s.lock.Free? && op !in s.leases && Grants(s.f) then Lend(s, op) else s
    case Status(op) => if s.lock.Free? && op !in s.leases && s.f.core.Some? then Lend(s, op) else s
    case Release(op) =>
      if op in s.leases && s.f.activeOps > 0 then s.(f := s.f.(activeOps := s.f.activeOps - 1),
          leases := s.leases - {op}) else s
    case BeginClose => if s.lock.Free? then s.(lock := WaitingForOps) else s
    case WaitOver => if s.lock.WaitingForOps? && s.f.activeOps == 0 then s.(lock := ClosingPath) else s
    case ClosePath =>
      if s.lock.ClosingPath?
      then s.(lock := ClosingCore, f := s.f.(path := None),
              closedPaths := s.closedPaths + if s.f.path.Some? then {s.f.path.value} else {}) else s
    case CloseCore =>
      if s.lock.ClosingCore?
      then s.(lock := Free, f := s.f.(core := None, started := false),
              closedCores := s.closedCores + if s.f.core.Some? then {s.f.core.value} else {}) else s
  }

  function Run(events: seq<Event>): (s: State) {
    if events == [] then INIT else Step(Run(events[..|events| - 1]), events[|events| - 1])
  }

  /** Every loan is on the current core, which is not closed; the count is the number of loans; from
      the end of the wait to the end of Close there is none. */
  ghost predicate Inv(s: State) {
    && s.f.activeOps == |s.leases|
    && (forall op :: op in s.leases ==> s.f.core == Some(s.leases[op]))
    && (s.lock.ClosingPath? || s.lock.ClosingCore? ==> s.leases == map[])
    && (s.f.core.Some? ==> s.f.core.value < s.next && s.f.core.value !in s.closedCores)
    && (s.f.core.Some? && !s.lock.ClosingCore? ==> s.f.core.value !in s.closedPaths)
    && (s.f.started <==> s.f.core.Some?)
    && (if s.lock.ClosingCore? then s.f.path == None else s.f.path == s.f.core)
    && (forall g :: g in s.closedCores || g in s.closedPaths ==> g < s.next)
  }

  lemma LendKeeps(s: State, op: nat)
    requires Inv(s) && s.lock.Free? && op !in s.leases && s.f.core.Some?
    ensures Inv(Lend(s, op))
  {
    var more := s.leases[op := s.f.core.value];
    assert more.Keys == s.leases.Keys + {op};
    assert |more| == |more.Keys| && |s.leases| == |s.leases.Keys|;
  }

  lemma ReleaseKeeps(s: State, op: nat)
    requires Inv(s) && op in s.leases
    ensures Inv(Step(s, Release(op)))
  {
    var less := s.leases - {op};
    assert less.Keys == s.leases.Keys - {op};
    assert |less| == |less.Keys| && |s.leases| == |s.leases.Keys|;
  }

  lemma InvStep(s: State, e: Event)
    requires Inv(s)
    ensures Inv(Step(s, e))
  {
    match e
    case Release(op) => if op in s.leases { ReleaseKeeps(s, op); }
    case Grant(op) => if s.lock.Free? && op !in s.leases && Grants(s.f) { LendKeeps(s, op); }
    case Status(op) => if s.lock.Free? && op !in s.leases && s.f.core.Some? { LendKeeps(s, op); }
    case _ =>
  }

  lemma {:induction false} InvAlways(events: seq<Event>)
    ensures Inv(Run(events))
  {
    if events != [] {
      InvAlways(events[..|events| - 1]);
      InvStep(Run(events[..|events| - 1]), events[|events| - 1]);
    }
  }

  /** No run has a loan on a closed core or path: none is granted after the close and none is held
      through it, across any number of restarts. */
  lemma NoLeaseOnClosed(events: seq<Event>, op: nat)
    ensures var s := Run(events);
            op in s.leases ==> s.leases[op] !in s.closedCores && s.leases[op] !in s.closedPaths
  {
    InvAlways(events);
  }

  /** A step closes a core or a path only while nobody holds a loan on it. */
  lemma ClosedOnlyUnlent(events: seq<Event>, e: Event, g: Generation)
    ensures var s := Run(events);
            var t := Step(s, e);
            (g in t.closedCores && g !in s.closedCores) || (g in t.closedPaths && g !in s.closedPaths) ==>
              forall op :: op in s.leases ==> s.leases[op] != g
  {
    InvAlways(events);
  }

  /** Closed stays closed: with NoLeaseOnClosed, a generation is never lent after its close. */
  lemma {:induction false} ClosedStays(events: seq<Event>, more: seq<Event>)
    ensures Run(events).closedCores <= Run(events + more).closedCores
    ensures Run(events).closedPaths <= Run(events + more).closedPaths
  {
    if more == [] {
      assert events + more == events;
    } else {
      var n := |more| - 1;
      ClosedStays(events, more[..n]);
      assert (events + more)[..|events + more| - 1] == events + more[..n];
    }
  }
  // ---------------------------------------------------------------- lending and closing succeed

  lemma {:induction false} Next(events: seq<Event>, e: Event, longer: seq<Event>, s: State)
    requires longer == events + [e] && s == Run(events)
    ensures Run(longer) == Step(s, e)
  {
    assert longer[..|events|] == events;
  }

  /** Whenever no Close is going on, a start that can dial and a grant lend an open core. */
  lemma Lends(events: seq<Event>, op: nat)
    requires Run(events).lock.Free? && op !in Run(events).leases
    ensures var t := Run(events + [Ensure(true), Grant(op)]);
            op in t.leases && t.leases[op] !in t.closedCores && t.leases[op] !in t.closedPaths
  {
    var s, e, g := Run(events), Ensure(true), Grant(op);
    InvAlways(events);
    Next(events, e, events + [e], s);
    Next(events + [e], g, events + [e, g], Step(s, e));
    NoLeaseOnClosed(events + [e, g], op);
  }

  /** ... and so does Status, if there is a core. */
  lemma StatusLends(events: seq<Event>, op: nat)
    requires var s := Run(events); s.lock.Free? && op !in s.leases && s.f.core.Some?
    ensures var s, t := Run(events), Run(events + [Status(op)]); op in t.leases && t.leases[op] == s.f.core.value
  {
    Next(events, Status(op), events + [Status(op)], Run(events));
  }

  /** All operations end. */
  lemma {:induction false} AllRelease(events: seq<Event>) returns (all: seq<Event>)
    requires Run(events).lock.WaitingForOps?
    ensures events <= all && Run(all).leases == map[] && Run(all).lock.WaitingForOps?
    ensures Run(all).f.core == Run(events).f.core && Run(all).f.path == Run(events).f.path
    decreases |Run(events).leases|
  {
    var s := Run(events);
    InvAlways(events);
    if s.leases == map[] {
      all := events;
    } else {
      var op :| op in s.leases;
      Next(events, Release(op), events + [Release(op)], s);
      OneLess(s, op);
      all := AllRelease(events + [Release(op)]);
    }
  }

  lemma OneLess(s: State, op: nat)
    requires Inv(s) && op in s.leases
    ensures var t := Step(s, Release(op)); |t.leases| < |s.leases| && t.lock == s.lock
    ensures var t := Step(s, Release(op)); t.f.core == s.f.core && t.f.path == s.f.path
  {
    var less := s.leases - {op};
    assert less.Keys == s.leases.Keys - {op};
    assert |less| == |less.Keys| && |s.leases| == |s.leases.Keys|;
  }

  /** Nothing is left, and what there was has been closed. */
  predicate ClosedDown(s: State, t: State) {
    && t.f == EMPTY && t.lock.Free? && t.leases == map[]
    && (s.f.core.Some? ==> s.f.core.value in t.closedCores)
    && (s.f.path.Some? ==> s.f.path.value in t.closedPaths)
  }

  ghost predicate CanClose(events: seq<Event>) {
    exists all: seq<Event> :: events <= all && ClosedDown(Run(events), Run(all))
  }

  /** Whenever no Close is going on, one can run through: it waits until the operations have ended, closes path
      and core, and leaves the client as new. */
  lemma Closes(events: seq<Event>)
    requires Run(events).lock.Free?
    ensures CanClose(events)
  {
    var s := Run(events);
    InvAlways(events);
    Next(events, BeginClose, events + [BeginClose], s);
    var waited := AllRelease(events + [BeginClose]);
    InvAlways(waited);
    var all := FinishesClose(waited);
    assert ClosedDown(s, Run(all));
  }

  lemma {:induction false} FinishesClose(events: seq<Event>) returns (all: seq<Event>)
    requires Run(events).lock.WaitingForOps? && Run(events).leases == map[] && Inv(Run(events))
    ensures events <= all && ClosedDown(Run(events), Run(all))
  {
    var s := Run(events);
    all := events + [WaitOver, ClosePath, CloseCore];
    Next(events, WaitOver, events + [WaitOver], s);
    Next(events + [WaitOver], ClosePath, events + [WaitOver, ClosePath], Step(s, WaitOver));
    Next(events + [WaitOver, ClosePath], CloseCore, all, Step(Step(s, WaitOver), ClosePath));
  }
}
