/** Writers, the run loop and any number of Close calls, interleaved at their mutex sections. */
module PathRun {
  import opened Path
  import opened Wrappers

  /** ForwardPacket under writeMu: it takes the current carrier, writes, and on a failure that is not
      a too-large datagram retires the carrier it wrote to. */
  datatype Writer = Resting | Writing(c: Carrier) | WriterClosing(c: Carrier)

  /** run and reconnect. */
  datatype Runner =
    | Top
    | Reading(c: Carrier)
    | ReadFailed(c: Carrier)
    | Retiring(c: Carrier)
    | RunnerClosing(c: Carrier)
    | Reconnecting
    | Dialled(c: Carrier)
    | Swapping(c: Carrier, installed: bool)
    | Stopped

  /** `dialled` counts the carriers made so far, the first one by the constructor; `handed` are those
      given to the path; `closing` is the carrier that a Close call has dropped and not yet closed. */
  datatype State = State(
    slot: Slot,
    writer: Writer,
    runner: Runner,
    closing: Option<Carrier>,
    dialled: nat,
    handed: set<Carrier>,
    closedCarriers: set<Carrier>)

  datatype Event =
    | WriterGet
    | WriteDone
    | WriteFailed
    | WriterClose
    | RunnerGet
    | ReadOk(stop: bool)
    | ReadError
    | CheckClosed(cancelled: bool)
    | RetireRead
    | RunnerClose
    | GiveUp
    | Dial
    | Swap
    | SwapClose
    | CloseCall
    | CloseDropped

  const INIT := State(Slot(Some(0), false), Resting, Top, None, 1, {0}, {})

  function Step(s: State, e: Event): (t: State) {
    match e
    case WriterGet =>
      if s.writer.Resting? && Current(s.slot).Some? then s.(writer := Writing(Current(s.slot).value)) else s
    case WriteDone => if s.writer.Writing? then s.(writer := Resting) else s
    case WriteFailed =>
      if s.writer.Writing? then s.(slot := Retire(s.slot, s.writer.c).slot, writer := WriterClosing(s.writer.c)) else s
    case WriterClose =>
      if s.writer.WriterClosing? then s.(closedCarriers := s.closedCarriers + {s.writer.c}, writer := Resting) else s
    case RunnerGet =>
      if !s.runner.Top? then s
      else if Current(s.slot).Some? then s.(runner := Reading(Current(s.slot).value))
      else s.(runner := Stopped)
    case ReadOk(stop) => if s.runner.Reading? then s.(runner := if stop then Stopped else Top) else s
    case ReadError => if s.runner.Reading? then s.(runner := ReadFailed(s.runner.c)) else s
    case CheckClosed(cancelled) =>
      if !s.runner.ReadFailed? then s
      else if cancelled || s.slot.closed then s.(runner := Stopped)
      else s.(runner := Retiring(s.runner.c))
    case RetireRead =>
      if s.runner.Retiring? then s.(slot := Retire(s.slot, s.runner.c).slot, runner := RunnerClosing(s.runner.c)) else s
    case RunnerClose =>
      if s.runner.RunnerClosing? then s.(closedCarriers := s.closedCarriers + {s.runner.c}, runner := Reconnecting)
          else s
    case GiveUp => if s.runner.Reconnecting? then s.(runner := Stopped) else s
    case Dial =>
      if s.runner.Reconnecting? then s.(runner := Dialled(s.dialled), dialled := s.dialled + 1) else s
    case Swap =>
      if s.runner.Dialled? then Swapped(s, s.runner.c) else s
    case SwapClose =>
      if s.runner.Swapping?
      then s.(closedCarriers := s.closedCarriers + {s.runner.c},
              runner := if s.runner.installed then Top else Stopped) else s
    case CloseCall =>
      if s.closing.None? then s.(slot := Shut(s.slot).slot, closing := Shut(s.slot).drop)
          else s.(slot := Shut(s.slot).slot)
    case CloseDropped =>
      if s.closing.Some? then s.(closedCarriers := s.closedCarriers + {s.closing.value}, closing := None) else s
  }

  /** replacePacketConn inside reconnect. */
  function Swapped(s: State, c: Carrier): (t: State) {
    var r := Replace(s.slot, c);
    s.(slot := r.slot, handed := s.handed + {c},
       runner := if r.drop.Some? then Swapping(r.drop.value, !s.slot.closed) else Top)
  }

  function Run(events: seq<Event>): (s: State) {
    if events == [] then INIT else Step(Run(events[..|events| - 1]), events[|events| - 1])
  }

  // ---------------------------------------------------------------- ownership

  /** Some step that dropped the carrier is about to close it. */
  predicate BeingClosed(s: State, c: Carrier) {
    || s.writer == WriterClosing(c) || s.runner == RunnerClosing(c) || s.closing == Some(c)
    || (s.runner.Swapping? && s.runner.c == c)
  }

  predicate Owned(s: State, c: Carrier) {
    s.slot.pc == Some(c) || c in s.closedCarriers || BeingClosed(s, c)
  }

  /** What is known of the carriers that the threads hold. */
  predicate Sensible(s: State) {
    && (forall c :: c in s.handed ==> c < s.dialled)
    && (forall c :: c in s.closedCarriers ==> c in s.handed)
    && (s.slot.closed ==> s.slot.pc == None)
    && (s.slot.pc.Some? ==> s.slot.pc.value in s.handed)
    && (s.writer.Writing? || s.writer.WriterClosing? ==> s.writer.c in s.handed)
    && (s.runner.Reading? || s.runner.ReadFailed? || s.runner.Retiring? ==> s.runner.c in s.handed)
    && (s.runner.RunnerClosing? || s.runner.Swapping? ==> s.runner.c in s.handed)
    && (s.closing.Some? ==> s.closing.value in s.handed && s.slot.closed)
    && (s.runner.Dialled? ==> s.runner.c < s.dialled && s.runner.c !in s.handed)
  }

  /** Every carrier ever handed to the path is the current one, closed, or about to be closed; the
      current one is neither closed nor about to be; once closed, the path has no carrier. */
  predicate Ownership(s: State) {
    && (forall c :: c in s.handed ==> Owned(s, c))
    && (s.slot.pc.Some? ==> s.slot.pc.value !in s.closedCarriers && !BeingClosed(s, s.slot.pc.value))
  }

  predicate Inv(s: State) { Sensible(s) && Ownership(s) }

  lemma OwnershipStep(s: State, e: Event)
    requires Inv(s)
    ensures Inv(Step(s, e))
  {
    var t := Step(s, e);
    forall c | c in t.handed ensures Owned(t, c) {
      assert c in s.handed ==> Owned(s, c);
    }
  }

  lemma {:induction false} OwnershipAlways(events: seq<Event>)
    ensures Inv(Run(events))
  {
    if events != [] {
      OwnershipAlways(events[..|events| - 1]);
      OwnershipStep(Run(events[..|events| - 1]), events[|events| - 1]);
    }
  }

  /** A late failure on an old carrier never takes its replacement away: a step that removes the
      current carrier is a failure on that very carrier, its replacement by a new one, or Close. */
  lemma OnlyOwnFailureRetires(s: State, e: Event, c: Carrier)
    requires s.slot.pc == Some(c) && Step(s, e).slot.pc != Some(c)
    ensures || (e.WriteFailed? && s.writer == Writing(c))
            || (e.RetireRead? && s.runner == Retiring(c))
            || (e.Swap? && s.runner.Dialled? && Step(s, e).slot.pc == Some(s.runner.c))
            || e.CloseCall?
  {
  }

  /** Once closed, always closed and empty, whatever happens. */
  lemma {:induction false} ClosedForGood(s: State, events: seq<Event>)
    requires Inv(s) && s.slot.closed
    ensures var t := RunFrom(s, events); t.slot.closed && t.slot.pc == None && Inv(t)
  {
    if events != [] {
      ClosedForGood(s, events[..|events| - 1]);
      OwnershipStep(RunFrom(s, events[..|events| - 1]), events[|events| - 1]);
    }
  }

  function RunFrom(s: State, events: seq<Event>): (t: State) {
    if events == [] then s else Step(RunFrom(s, events[..|events| - 1]), events[|events| - 1])
  }

  // ---------------------------------------------------------------- where reconnection ends

  /** At event n a writer's failure took the current carrier away, and none has been installed since. */
  predicate LostAt(events: seq<Event>, n: nat)
    requires n < |events|
  {
    && events[n].WriteFailed?
    && Run(events[..n]).writer.Writing? && Run(events[..n]).slot.pc == Some(Run(events[..n]).writer.c)
    && forall m :: n < m <= |events| ==> Run(events[..m]).slot.pc == None
  }

  ghost predicate LostToWriter(events: seq<Event>) { exists n: nat :: n < |events| && LostAt(events, n) }

  /** The run loop is not busy replacing the carrier itself. */
  predicate NotReplacing(r: Runner) { r.Top? || r.Reading? || r.ReadFailed? || r.Retiring? || r.Swapping? }

  lemma LostStays(before: seq<Event>, e: Event)
    requires LostToWriter(before) && Run(before + [e]).slot.pc == None
    ensures LostToWriter(before + [e])
  {
    var n: nat :| n < |before| && LostAt(before, n);
    var events := before + [e];
    forall m | n < m <= |events| ensures Run(events[..m]).slot.pc == None {
      if m <= |before| {
        assert events[..m] == before[..m];
      } else {
        assert events[..m] == events;
      }
    }
    assert events[..n] == before[..n];
    assert LostAt(events, n);
  }

  lemma LostNow(before: seq<Event>, c: Carrier)
    requires Run(before).writer == Writing(c) && Run(before).slot.pc == Some(c)
    requires Run(before + [WriteFailed]).slot.pc == None
    ensures LostToWriter(before + [WriteFailed])
  {
    var events := before + [WriteFailed];
    assert events[..|before|] == before && events[..|events|] == events;
    assert LostAt(events, |before|);
  }

  /** What one step does to the slot of an open path. */
  lemma SlotStep(s: State, e: Event)
    requires Inv(s) && !Step(s, e).slot.closed && Step(s, e).slot.pc == None && NotReplacing(Step(s, e).runner)
    ensures s.slot.pc == None ==> NotReplacing(s.runner)
    ensures s.slot.pc.Some? ==> e.WriteFailed? && s.writer == Writing(s.slot.pc.value)
  {
  }

  /** In every run: an open path without a carrier, whose run loop is not itself replacing it, lost the
      carrier to a failed write. */
  lemma {:induction false} EmptyMeansLost(events: seq<Event>)
    ensures var s := Run(events); !s.slot.closed && s.slot.pc == None && NotReplacing(s.runner) ==> LostToWriter(events)
  {
    if events != [] {
      var before, e := events[..|events| - 1], events[|events| - 1];
      var s, t := Run(before), Run(events);
      assert events == before + [e];
      EmptyMeansLost(before);
      OwnershipAlways(before);
      if !t.slot.closed && t.slot.pc == None && NotReplacing(t.runner) {
        SlotStep(s, e);
        if s.slot.pc == None {
          LostStays(before, e);
        } else {
          LostNow(before, s.slot.pc.value);
        }
      }
    }
  }

  /** In every run, the run loop at its top stops exactly when the path has been closed, or a writer's
      failure has taken its carrier away and none has been installed since; it then does not reconnect. */
  lemma RunnerStopsExactly(events: seq<Event>)
    requires Run(events).runner.Top?
    ensures Step(Run(events), RunnerGet).runner.Stopped? <==> Run(events).slot.closed || LostToWriter(events)
  {
    OwnershipAlways(events);
    EmptyMeansLost(events);
    if LostToWriter(events) {
      var n: nat :| n < |events| && LostAt(events, n);
      assert events[..|events|] == events;
    }
  }

  /** A reachable, unclosed path whose run loop has stopped because a writer retired the carrier. */
  lemma StopsWithoutClose()
    ensures var s := Run([WriterGet, WriteFailed, RunnerGet]);
            !s.slot.closed && s.runner.Stopped? && s.slot.pc == None
  {
    var a, b, c := WriterGet, WriteFailed, RunnerGet;
    assert [a, b, c][..2] == [a, b] && [a, b][..1] == [a] && [a][..0] == [];
    assert Run([a]) == Step(INIT, a);
    assert Run([a, b]) == Step(Run([a]), b);
    assert Run([a, b, c]) == Step(Run([a, b]), c);
  }

  /** After the run loop has stopped no carrier is ever installed again. */
  lemma {:induction false} NoCarrierAfterStop(s: State, events: seq<Event>)
    requires Inv(s) && s.runner.Stopped?
    ensures var t := RunFrom(s, events);
            t.runner.Stopped? && (t.slot.pc == s.slot.pc || t.slot.pc == None)
  {
    if events != [] {
      NoCarrierAfterStop(s, events[..|events| - 1]);
    }
  }
  // ---------------------------------------------------------------- reconnecting

  lemma {:induction false} Next(events: seq<Event>, e: Event, longer: seq<Event>, s: State)
    requires longer == events + [e] && s == Run(events)
    ensures Run(longer) == Step(s, e)
  {
    assert longer[..|events|] == events;
  }

  lemma {:induction false} FourEvents(events: seq<Event>, a: Event, b: Event, c: Event, d: Event)
    ensures Run(events + [a, b, c, d]) == Step(Step(Step(Step(Run(events), a), b), c), d)
  {
    var s := Run(events);
    Next(events, a, events + [a], s);
    Next(events + [a], b, events + [a, b], Step(s, a));
    Next(events + [a, b], c, events + [a, b, c], Step(Step(s, a), b));
    Next(events + [a, b, c], d, events + [a, b, c, d], Step(Step(Step(s, a), b), c));
  }

  /** The read fails, the carrier is retired and closed. */
  lemma ReadLost(s: State)
    requires Inv(s) && s.runner.Reading? && !s.slot.closed
    ensures var t := Step(Step(Step(Step(s, ReadError), CheckClosed(false)), RetireRead), RunnerClose);
            && Inv(t) && t.runner.Reconnecting? && !t.slot.closed && t.slot.pc != Some(s.runner.c)
            && s.runner.c in t.closedCarriers && t.dialled == s.dialled
  {
    InvFour(s, ReadError, CheckClosed(false), RetireRead, RunnerClose);
  }

  lemma InvFour(s: State, a: Event, b: Event, c: Event, d: Event)
    requires Inv(s)
    ensures Inv(Step(Step(Step(Step(s, a), b), c), d))
  {
    OwnershipStep(s, a);
    OwnershipStep(Step(s, a), b);
    OwnershipStep(Step(Step(s, a), b), c);
    OwnershipStep(Step(Step(Step(s, a), b), c), d);
  }

  /** A new carrier is dialled, installed and read from. */
  lemma Redialled(s: State)
    requires Inv(s) && s.runner.Reconnecting? && !s.slot.closed
    ensures var t := Step(Step(Step(Step(s, Dial), Swap), SwapClose), RunnerGet);
            t.slot == Slot(Some(s.dialled), false) && t.runner == Reading(s.dialled)
  {
  }

  /** From every reachable state in which the path is open and the run loop reads, a failed read leads to a
      new carrier that is installed and read from, and the failed one is closed. */
  lemma Reconnects(events: seq<Event>)
    requires var s := Run(events); s.runner.Reading? && !s.slot.closed
    ensures var s := Run(events);
            var t := Run(events + [ReadError, CheckClosed(false), RetireRead, RunnerClose]
                         + [Dial, Swap, SwapClose, RunnerGet]);
            t.slot == Slot(Some(s.dialled), false) && t.runner == Reading(s.dialled)
    ensures Run(events).runner.c in
            Run(events + [ReadError, CheckClosed(false), RetireRead, RunnerClose]).closedCarriers
  {
    var mid := events + [ReadError, CheckClosed(false), RetireRead, RunnerClose];
    OwnershipAlways(events);
    FourEvents(events, ReadError, CheckClosed(false), RetireRead, RunnerClose);
    ReadLost(Run(events));
    FourEvents(mid, Dial, Swap, SwapClose, RunnerGet);
    Redialled(Run(mid));
  }

  /** Whenever the path is open and has a carrier, a resting writer takes that carrier. */
  lemma WriterTakesCurrent(events: seq<Event>, c: Carrier)
    requires var s := Run(events); s.writer.Resting? && !s.slot.closed && s.slot.pc == Some(c)
    ensures Run(events + [WriterGet]).writer == Writing(c)
  {
    Next(events, WriterGet, events + [WriterGet], Run(events));
  }

  /** A read that fails after the context was cancelled or the path closed ends the run loop, and leaves the
      carrier to whoever closes the path. */
  lemma CancelledStops(events: seq<Event>, cancelled: bool)
    requires Run(events).runner.ReadFailed? && (cancelled || Run(events).slot.closed)
    ensures var s, t := Run(events), Run(events + [CheckClosed(cancelled)]);
            t.runner.Stopped? && t.slot == s.slot && t.closedCarriers == s.closedCarriers
  {
    Next(events, CheckClosed(cancelled), events + [CheckClosed(cancelled)], Run(events));
  }
}
