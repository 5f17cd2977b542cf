/** Accept loops, connection goroutines and Close calls in any interleaving. */
module ShutdownRun {
  import opened Shutdown

  /** An accept loop: its deferred function takes it off the table and then counts down. */
  datatype Loop = Accepting | Got(c: Id) | Refusing(c: Id) | Leaving | Unlisted | Finished

  datatype Conn = Serving | Shut | Delisted | Ended

  datatype Closer = Closing | Waiting | Returned

  /** `todoListeners` and `todoConns` are what the first Close has still to close. */
  datatype State = State(
    closed: bool,
    listeners: set<Id>,
    conns: set<Id>,
    wg: int,
    loops: map<Id, Loop>,
    served: map<Id, Conn>,
    accepted: nat,
    closedListeners: set<Id>,
    closedConns: set<Id>,
    closers: seq<Closer>,
    todoListeners: set<Id>,
    todoConns: set<Id>)

  datatype Event =
    | Register(ln: Id)
    | AcceptConn(ln: Id)
    | AcceptError(ln: Id)
    | Admit(ln: Id)
    | CloseRefused(ln: Id)
    | Unlist(ln: Id)
    | LoopDone(ln: Id)
    | ConnOver(c: Id)
    | Delist(c: Id)
    | ConnDone(c: Id)
    | CloseCall
    | CloseListener(ln: Id)
    | CloseConn(c: Id)
    | CloseWaits(j: nat)
    | CloseReturns(j: nat)

  const INIT := State(false, {}, {}, 0, map[], map[], 0, {}, {}, [], {}, {})

  predicate LoopAt(s: State, ln: Id, l: Loop) { ln in s.loops && s.loops[ln] == l }

  predicate ConnAt(s: State, c: Id, x: Conn) { c in s.served && s.served[c] == x }

  function Step(s: State, e: Event): (t: State) {
    match e
    case Register(ln) =>
      if !s.closed && ln !in s.loops
      then s.(listeners := s.listeners + {ln}, wg := s.wg + 1, loops := s.loops[ln := Accepting]) else s
    case AcceptConn(ln) =>
      if LoopAt(s, ln, Accepting) then s.(loops := s.loops[ln := Got(s.accepted)], accepted := s.accepted + 1) else s
    case AcceptError(ln) => if LoopAt(s, ln, Accepting) then s.(loops := s.loops[ln := Leaving]) else s
    case Admit(ln) => if ln in s.loops && s.loops[ln].Got? then Admitted(s, ln, s.loops[ln].c) else s
    case CloseRefused(ln) =>
      if ln in s.loops && s.loops[ln].Refusing?
      then s.(closedConns := s.closedConns + {s.loops[ln].c}, loops := s.loops[ln := Leaving]) else s
    case Unlist(ln) =>
      if LoopAt(s, ln, Leaving) then s.(listeners := s.listeners - {ln}, loops := s.loops[ln := Unlisted]) else s
    case LoopDone(ln) => if LoopAt(s, ln, Unlisted) then s.(wg := s.wg - 1, loops := s.loops[ln := Finished]) else s
    case ConnOver(c) =>
      if ConnAt(s, c, Serving) then s.(closedConns := s.closedConns + {c}, served := s.served[c := Conn.Shut]) else s
    case Delist(c) =>
      if ConnAt(s, c, Conn.Shut) then s.(conns := s.conns - {c}, served := s.served[c := Delisted]) else s
    case ConnDone(c) => if ConnAt(s, c, Delisted) then s.(wg := s.wg - 1, served := s.served[c := Ended]) else s
    case CloseCall =>
      if s.closed then s.(closers := s.closers + [Waiting])
      else s.(closed := true, closers := s.closers + [Closing], todoListeners := s.listeners, todoConns := s.conns)
    case CloseListener(ln) =>
      if ln in s.todoListeners
      then s.(closedListeners := s.closedListeners + {ln}, todoListeners := s.todoListeners - {ln}) else s
    case CloseConn(c) =>
      if c in s.todoConns && s.todoListeners == {}
      then s.(closedConns := s.closedConns + {c}, todoConns := s.todoConns - {c}) else s
    case CloseWaits(j) =>
      if j < |s.closers| && s.closers[j].Closing? && s.todoListeners == {} && s.todoConns == {}
      then s.(closers := s.closers[j := Waiting]) else s
    case CloseReturns(j) =>
      if j < |s.closers| && s.closers[j].Waiting? && s.wg == 0 then s.(closers := s.closers[j := Returned]) else s
  }

  function Admitted(s: State, ln: Id, c: Id): (t: State) {
    if s.closed then s.(loops := s.loops[ln := Refusing(c)])
    else s.(conns := s.conns + {c}, wg := s.wg + 1, served := s.served[c := Serving], loops := s.loops[ln := Accepting])
  }

  function Run(events: seq<Event>): (s: State) {
    if events == [] then INIT else Step(Run(events[..|events| - 1]), events[|events| - 1])
  }

  function TablesOf(s: State): (t: Tables) { Tables(s.closed, s.listeners, s.conns, s.wg) }

  /** The steps do to the tables what the object's methods do; the two halves of a goroutine's end are
      two steps. */
  lemma StepsOnTables(s: State, id: Id)
    ensures id !in s.loops ==> TablesOf(Step(s, Register(id))) == WithListener(TablesOf(s), id)
    ensures id in s.loops && s.loops[id].Got? ==> TablesOf(Step(s, Admit(id))) == WithConn(TablesOf(s), s.loops[id].c)
    ensures LoopAt(s, id, Leaving) ==>
              TablesOf(Step(Step(s, Unlist(id)), LoopDone(id))) ==
                  TablesOf(s).(listeners := s.listeners - {id}, wg := s.wg - 1)
    ensures ConnAt(s, id, Conn.Shut) ==>
              TablesOf(Step(Step(s, Delist(id)), ConnDone(id))) == TablesOf(s).(conns := s.conns - {id}, wg := s.wg - 1)
    ensures TablesOf(Step(s, CloseCall)) == TablesOf(s).(closed := true)
  {
    if LoopAt(s, id, Leaving) { LoopEnds(s, id); }
    if ConnAt(s, id, Conn.Shut) { ConnEnds(s, id); }
  }

  lemma LoopEnds(s: State, id: Id)
    requires LoopAt(s, id, Leaving)
    ensures TablesOf(Step(Step(s, Unlist(id)), LoopDone(id))) ==
        TablesOf(s).(listeners := s.listeners - {id}, wg := s.wg - 1)
  {
    assert LoopAt(Step(s, Unlist(id)), id, Unlisted);
  }

  lemma ConnEnds(s: State, id: Id)
    requires ConnAt(s, id, Conn.Shut)
    ensures TablesOf(Step(Step(s, Delist(id)), ConnDone(id))) == TablesOf(s).(conns := s.conns - {id}, wg := s.wg - 1)
  {
    assert ConnAt(Step(s, Delist(id)), id, Delisted);
  }

  // ---------------------------------------------------------------- the count

  function LiveLoops(loops: map<Id, Loop>): (r: set<Id>) { set ln | ln in loops && loops[ln] != Finished }

  function LiveConns(served: map<Id, Conn>): (r: set<Id>) { set c | c in served && served[c] != Ended }

  /** The wait group counts the goroutines that have not finished. */
  predicate Counted(s: State) { s.wg == |LiveLoops(s.loops)| + |LiveConns(s.served)| }

  /** The tables list exactly the goroutines that have not yet taken themselves off. */
  ghost predicate Listed(s: State) {
    && (forall ln :: ln in s.listeners <==> ln in s.loops && s.loops[ln] != Unlisted && s.loops[ln] != Finished)
    && (forall c :: c in s.conns <==> c in s.served && (s.served[c] == Serving || s.served[c] == Conn.Shut))
  }

  /** An accept loop holds a connection of its own. */
  ghost predicate OwnConns(s: State) {
    && (forall ln :: ln in s.loops && Busy(s.loops[ln]) ==> s.loops[ln].c < s.accepted && s.loops[ln].c !in s.served)
    && (forall a, b :: a in s.loops && b in s.loops && a != b && Busy(s.loops[a]) && Busy(s.loops[b]) ==>
         s.loops[a].c != s.loops[b].c)
  }

  /** Connection numbers are used once, and a connection goroutine closes its connection first. */
  ghost predicate Tracked(s: State) {
    && (forall c :: c in s.served ==> c < s.accepted)
    && (forall c :: c in s.served && s.served[c] != Serving ==> c in s.closedConns)
    && OwnConns(s)
  }

  /** Every accepted connection is in somebody's hands or closed. */
  ghost predicate NoneLost(s: State) { forall c: nat :: c < s.accepted ==> InHand(s, c) }

  predicate Busy(l: Loop) { l.Got? || l.Refusing? }

  predicate Holds(l: Loop, c: Id) { Busy(l) && l.c == c }

  ghost predicate InHand(s: State, c: Id) {
    c in s.served || c in s.closedConns || exists ln :: ln in s.loops && Holds(s.loops[ln], c)
  }

  /** Changing one entry changes the number of live ones by what that entry contributes. */
  lemma LoopMoves(loops: map<Id, Loop>, ln: Id, l: Loop)
    ensures |LiveLoops(loops[ln := l])| ==
            |LiveLoops(loops)| + (if l == Finished then 0 else 1)
            - if ln in loops && loops[ln] != Finished then 1 else 0
  {
    var before, after := LiveLoops(loops), LiveLoops(loops[ln := l]);
    assert after == if l == Finished then before - {ln} else before + {ln};
    assert ln in before <==> ln in loops && loops[ln] != Finished;
  }

  lemma ConnMoves(served: map<Id, Conn>, c: Id, x: Conn)
    ensures |LiveConns(served[c := x])| ==
            |LiveConns(served)| + (if x == Ended then 0 else 1) - if c in served && served[c] != Ended then 1 else 0
  {
    var before, after := LiveConns(served), LiveConns(served[c := x]);
    assert after == if x == Ended then before - {c} else before + {c};
    assert c in before <==> c in served && served[c] != Ended;
  }

  lemma CountedStep(s: State, e: Event)
    requires Counted(s) && Tracked(s)
    ensures Counted(Step(s, e))
  {
    var t := Step(s, e);
    match e
    case Register(ln) => LoopMoves(s.loops, ln, Accepting);
    case AcceptConn(ln) => LoopMoves(s.loops, ln, Got(s.accepted));
    case AcceptError(ln) => LoopMoves(s.loops, ln, Leaving);
    case Admit(ln) =>
      if ln in s.loops && s.loops[ln].Got? {
        LoopMoves(s.loops, ln, Refusing(s.loops[ln].c));
        LoopMoves(s.loops, ln, Accepting);
        ConnMoves(s.served, s.loops[ln].c, Serving);
      }
    case CloseRefused(ln) => LoopMoves(s.loops, ln, Leaving);
    case Unlist(ln) => LoopMoves(s.loops, ln, Unlisted);
    case LoopDone(ln) => LoopMoves(s.loops, ln, Finished);
    case ConnOver(c) => ConnMoves(s.served, c, Conn.Shut);
    case Delist(c) => ConnMoves(s.served, c, Delisted);
    case ConnDone(c) => ConnMoves(s.served, c, Ended);
    case _ =>
  }

  lemma ListedStep(s: State, e: Event)
    requires Listed(s)
    ensures Listed(Step(s, e))
  {
  }

  lemma OwnConnsStep(s: State, e: Event)
    requires Tracked(s)
    ensures OwnConns(Step(s, e))
  {
    match e
    case AcceptConn(ln) => if LoopAt(s, ln, Accepting) { AcceptOwns(s, ln); }
    case Admit(ln) => if ln in s.loops && s.loops[ln].Got? { AdmitOwns(s, ln, s.loops[ln].c); }
    case Register(ln) => Unburdened(s, ln, Accepting);
    case AcceptError(ln) => Unburdened(s, ln, Leaving);
    case CloseRefused(ln) => Unburdened(s, ln, Leaving);
    case Unlist(ln) => Unburdened(s, ln, Unlisted);
    case LoopDone(ln) => Unburdened(s, ln, Finished);
    case _ => SameOwners(s, e);
  }

  /** One loop holds no connection any more. */
  lemma Unburdened(s: State, ln: Id, l: Loop)
    requires OwnConns(s) && !Busy(l)
    ensures OwnConns(s.(loops := s.loops[ln := l]))
  {
  }

  lemma SameOwners(s: State, e: Event)
    requires OwnConns(s)
    requires (e.ConnOver? || e.Delist? || e.ConnDone? || e.CloseCall? || e.CloseListener? || e.CloseConn?
        || e.CloseWaits? || e.CloseReturns?)
    ensures OwnConns(Step(s, e))
  {
    var t := Step(s, e);
    assert t.loops == s.loops && t.accepted == s.accepted;
    assert forall c :: c in t.served ==> c in s.served;
  }

  lemma AcceptOwns(s: State, ln: Id)
    requires Tracked(s) && LoopAt(s, ln, Accepting)
    ensures OwnConns(s.(loops := s.loops[ln := Got(s.accepted)], accepted := s.accepted + 1))
  {
    var t := s.(loops := s.loops[ln := Got(s.accepted)], accepted := s.accepted + 1);
    assert forall a :: a in t.loops && a != ln ==> a in s.loops && t.loops[a] == s.loops[a];
  }

  lemma AdmitOwns(s: State, ln: Id, c: Id)
    requires Tracked(s) && ln in s.loops && s.loops[ln] == Got(c)
    ensures OwnConns(Admitted(s, ln, c))
  {
    var t := Admitted(s, ln, c);
    assert forall a :: a in t.loops && a != ln ==> a in s.loops && t.loops[a] == s.loops[a];
  }

  lemma TrackedStep(s: State, e: Event)
    requires Tracked(s)
    ensures Tracked(Step(s, e))
  {
    OwnConnsStep(s, e);
  }

  lemma NoneLostStep(s: State, e: Event)
    requires NoneLost(s)
    ensures NoneLost(Step(s, e))
  {
    var t := Step(s, e);
    forall c: nat | c < t.accepted ensures InHand(t, c) {
      if c < s.accepted {
        assert InHand(s, c);
        StaysInHand(s, e, c);
      } else {
        assert e.AcceptConn? && Holds(t.loops[e.ln], c);
      }
    }
  }

  lemma StaysInHand(s: State, e: Event, c: Id)
    requires InHand(s, c)
    ensures InHand(Step(s, e), c)
  {
    var t := Step(s, e);
    if c !in s.served && c !in s.closedConns {
      var ln :| ln in s.loops && Holds(s.loops[ln], c);
      assert ln in t.loops;
      assert Holds(t.loops[ln], c) || c in t.served || c in t.closedConns;
    }
  }

  // ---------------------------------------------------------------- closing

  /** Once closed is set, every listener and connection still on the tables has been closed or is about
      to be closed by the first Close, so its goroutine will come to an end. */
  predicate Covered(s: State) {
    && (!s.closed ==> s.closers == [] && s.todoListeners == {} && s.todoConns == {})
    && (s.closed ==> s.listeners <= s.closedListeners + s.todoListeners && s.conns <= s.closedConns + s.todoConns)
  }

  lemma CoveredStep(s: State, e: Event)
    requires Covered(s)
    ensures Covered(Step(s, e))
  {
  }

  /** A returned Close means a closed server with a zero count. */
  predicate ReturnedAtZero(s: State) {
    forall j :: 0 <= j < |s.closers| && s.closers[j].Returned? ==> s.closed && s.wg == 0
  }

  /** Once closed is set, the count never rises. */
  lemma CountNeverRises(s: State, e: Event)
    requires s.closed
    ensures Step(s, e).closed && Step(s, e).wg <= s.wg
  {
  }

  lemma ReturnedStep(s: State, e: Event)
    requires ReturnedAtZero(s) && Covered(s) && Counted(Step(s, e))
    ensures ReturnedAtZero(Step(s, e))
  {
    if s.closed { CountNeverRises(s, e); }
  }

  ghost predicate Inv(s: State) {
    Counted(s) && Listed(s) && Tracked(s) && NoneLost(s) && Covered(s) && ReturnedAtZero(s)
  }

  lemma {:induction false} InvAlways(events: seq<Event>)
    ensures Inv(Run(events))
  {
    if events != [] {
      var s, e := Run(events[..|events| - 1]), events[|events| - 1];
      InvAlways(events[..|events| - 1]);
      CountedStep(s, e);
      ListedStep(s, e);
      TrackedStep(s, e);
      NoneLostStep(s, e);
      CoveredStep(s, e);
      ReturnedStep(s, e);
    } else {
      assert LiveLoops(map[]) == {} && LiveConns(map[]) == {};
    }
  }

  /** When a Close has returned, whichever call it was: both tables are empty, every accept loop and
      every connection goroutine has finished, and every connection ever accepted has been closed. */
  lemma ReturnedMeansOver(events: seq<Event>, j: nat)
    ensures var s := Run(events);
            j < |s.closers| && s.closers[j].Returned? ==>
              && s.closed && s.listeners == {} && s.conns == {}
              && (forall ln :: ln in s.loops ==> s.loops[ln] == Finished)
              && (forall c :: c in s.served ==> s.served[c] == Ended)
              && (forall c: nat :: c < s.accepted ==> c in s.closedConns)
  {
    var s := Run(events);
    InvAlways(events);
    if j < |s.closers| && s.closers[j].Returned? {
      assert LiveLoops(s.loops) == {} && LiveConns(s.served) == {};
      forall ln | ln in s.loops ensures s.loops[ln] == Finished { assert ln !in LiveLoops(s.loops); }
      forall c | c in s.served ensures s.served[c] == Ended { assert c !in LiveConns(s.served); }
      forall c: nat | c < s.accepted ensures c in s.closedConns { assert InHand(s, c); }
    }
  }
  // ---------------------------------------------------------------- serving and ending succeed

  lemma {:induction false} Next(events: seq<Event>, e: Event, longer: seq<Event>, s: State)
    requires longer == events + [e] && s == Run(events)
    ensures Run(longer) == Step(s, e)
  {
    assert longer[..|events|] == events;
  }

  /** An open server takes a new listener, and a connection that it accepts is served, listed and counted. */
  lemma Admits(events: seq<Event>, ln: Id)
    requires !Run(events).closed && ln !in Run(events).loops
    ensures var s, t := Run(events), Run(events + [Register(ln), AcceptConn(ln), Admit(ln)]);
            && ln in t.listeners && s.accepted in t.conns && ConnAt(t, s.accepted, Serving)
            && LoopAt(t, ln, Accepting) && t.wg == s.wg + 2
  {
    var s := Run(events);
    Next(events, Register(ln), events + [Register(ln)], s);
    Next(events + [Register(ln)], AcceptConn(ln), events + [Register(ln), AcceptConn(ln)], Step(s, Register(ln)));
    Next(events + [Register(ln), AcceptConn(ln)], Admit(ln), events + [Register(ln), AcceptConn(ln), Admit(ln)],
         Step(Step(s, Register(ln)), AcceptConn(ln)));
    AdmitsSteps(s, ln);
  }

  lemma AdmitsSteps(s: State, ln: Id)
    requires !s.closed && ln !in s.loops
    ensures var t := Step(Step(Step(s, Register(ln)), AcceptConn(ln)), Admit(ln));
            && ln in t.listeners && s.accepted in t.conns && ConnAt(t, s.accepted, Serving)
            && LoopAt(t, ln, Accepting) && t.wg == s.wg + 2
  {
  }

  /** What an accept loop comes to once the server is closed; steps that it is past do nothing. */
  function LoopOver(s: State, ln: Id): (t: State) {
    Step(Step(Step(Step(Step(s, AcceptError(ln)), Admit(ln)), CloseRefused(ln)), Unlist(ln)), LoopDone(ln))
  }

  lemma LoopFinishes(s: State, ln: Id)
    requires s.closed && ln in s.loops
    ensures var t := LoopOver(s, ln);
            && t.closed && t.loops == s.loops[ln := Finished] && t.served == s.served && t.closers == s.closers
            && t.todoListeners == s.todoListeners && t.todoConns == s.todoConns
  {
    match s.loops[ln]
    case Accepting =>
    case Got(c) =>
    case Refusing(c) =>
    case Leaving =>
    case Unlisted =>
    case Finished => assert s.loops[ln := Finished] == s.loops;
  }

  function ConnDown(s: State, c: Id): (t: State) { Step(Step(Step(s, ConnOver(c)), Delist(c)), ConnDone(c)) }

  lemma ConnFinishes(s: State, c: Id)
    requires s.closed && c in s.served
    ensures var t := ConnDown(s, c);
            && t.closed && t.served == s.served[c := Ended] && t.loops == s.loops && t.closers == s.closers
            && t.todoListeners == s.todoListeners && t.todoConns == s.todoConns
  {
    match s.served[c]
    case Serving =>
    case Shut =>
    case Delisted =>
    case Ended => assert s.served[c := Ended] == s.served;
  }

  lemma {:induction false} RunLoopOver(events: seq<Event>, ln: Id) returns (all: seq<Event>)
    ensures events <= all && Run(all) == LoopOver(Run(events), ln)
  {
    var s := Run(events);
    var a := events + [AcceptError(ln)];
    Next(events, AcceptError(ln), a, s);
    var b := a + [Admit(ln)];
    Next(a, Admit(ln), b, Run(a));
    var c := b + [CloseRefused(ln)];
    Next(b, CloseRefused(ln), c, Run(b));
    var d := c + [Unlist(ln)];
    Next(c, Unlist(ln), d, Run(c));
    all := d + [LoopDone(ln)];
    Next(d, LoopDone(ln), all, Run(d));
  }

  lemma {:induction false} RunConnDown(events: seq<Event>, c: Id) returns (all: seq<Event>)
    ensures events <= all && Run(all) == ConnDown(Run(events), c)
  {
    var s := Run(events);
    var a := events + [ConnOver(c)];
    Next(events, ConnOver(c), a, s);
    var b := a + [Delist(c)];
    Next(a, Delist(c), b, Run(a));
    all := b + [ConnDone(c)];
    Next(b, ConnDone(c), all, Run(b));
  }

  /** What the goroutines' ends leave alone: the Close calls and their work. */
  predicate SameCalls(s: State, t: State) {
    && t.closed == s.closed && t.closers == s.closers
    && t.todoListeners == s.todoListeners && t.todoConns == s.todoConns
  }

  lemma {:induction false} LoopsEnd(events: seq<Event>) returns (all: seq<Event>)
    requires Run(events).closed
    ensures events <= all && SameCalls(Run(events), Run(all))
    ensures LiveLoops(Run(all).loops) == {} && Run(all).served == Run(events).served
    decreases |LiveLoops(Run(events).loops)|
  {
    var s := Run(events);
    if LiveLoops(s.loops) == {} {
      all := events;
    } else {
      var ln :| ln in LiveLoops(s.loops);
      LoopFinishes(s, ln);
      assert LiveLoops(s.loops[ln := Finished]) == LiveLoops(s.loops) - {ln};
      all := RunLoopOver(events, ln);
      all := LoopsEnd(all);
    }
  }

  lemma {:induction false} ConnsEnd(events: seq<Event>) returns (all: seq<Event>)
    requires Run(events).closed
    ensures events <= all && SameCalls(Run(events), Run(all))
    ensures LiveConns(Run(all).served) == {} && Run(all).loops == Run(events).loops
    decreases |LiveConns(Run(events).served)|
  {
    var s := Run(events);
    if LiveConns(s.served) == {} {
      all := events;
    } else {
      var c :| c in LiveConns(s.served);
      ConnFinishes(s, c);
      assert LiveConns(s.served[c := Ended]) == LiveConns(s.served) - {c};
      all := RunConnDown(events, c);
      all := ConnsEnd(all);
    }
  }

  /** The first Close works through what it has to close. */
  lemma {:induction false} AllClosed(events: seq<Event>) returns (all: seq<Event>)
    requires Run(events).closed
    ensures events <= all && Run(all).closed && Run(all).closers == Run(events).closers
    ensures Run(all).todoListeners == {} && Run(all).todoConns == {}
    decreases |Run(events).todoListeners| + |Run(events).todoConns|
  {
    var s := Run(events);
    if s.todoListeners != {} {
      var ln :| ln in s.todoListeners;
      Next(events, CloseListener(ln), events + [CloseListener(ln)], s);
      all := AllClosed(events + [CloseListener(ln)]);
    } else if s.todoConns != {} {
      var c :| c in s.todoConns;
      Next(events, CloseConn(c), events + [CloseConn(c)], s);
      all := AllClosed(events + [CloseConn(c)]);
    } else {
      all := events;
    }
  }

  ghost predicate CanReturn(events: seq<Event>, j: nat) {
    exists all: seq<Event> :: events <= all && j < |Run(all).closers| && Run(all).closers[j].Returned?
  }

  lemma {:induction false} WaitsAndReturns(events: seq<Event>, j: nat) returns (all: seq<Event>)
    requires var s := Run(events);
             && j < |s.closers| && !s.closers[j].Returned? && s.wg == 0 && s.todoListeners == {} && s.todoConns == {}
    ensures events <= all && j < |Run(all).closers| && Run(all).closers[j].Returned?
  {
    var mid := events + [CloseWaits(j)];
    all := mid + [CloseReturns(j)];
    Next(events, CloseWaits(j), mid, Run(events));
    Next(mid, CloseReturns(j), all, Run(mid));
  }

  /** From every reachable state, every Close that has been called can return: what it has to close can be
      closed, and then every accept loop and connection goroutine comes to its end. */
  lemma CloseCanReturn(events: seq<Event>, j: nat)
    requires j < |Run(events).closers|
    ensures CanReturn(events, j)
  {
    InvAlways(events);
    if Run(events).closers[j].Returned? {
      assert events <= events;
    } else {
      var all := AllClosed(events);
      all := LoopsEnd(all);
      all := ConnsEnd(all);
      InvAlways(all);
      all := WaitsAndReturns(all, j);
      assert events <= all;
    }
  }
}
