/** No deadlock between two ends: from every reachable state the frames under way can be worked off
    until every call in progress is complete, every byte is delivered and all credit is back. A writer
    that sleeps needs its wake-up for that. */
module Drain {
  import opened Bytes
  import opened FlowControl
  import opened CallLog
  import opened TwoEnds
  import opened Delivery

  // ---------------------------------------------------------------- wake-ups

  predicate PostPending(c: Chore) { c.PostAndAck? || c.PostOnly? }

  /** A sleeping writer with usable credit has a token, a reader that is about to post one, or an ended
      connection. */
  predicate WakeOk(x: Endpoint) {
    && (x.phase.Live? ==> x.streamOpen)
    && (Busy(x.wr) ==> x.phase.Live?)
    && (x.wr.waiting && Usable(x.w, |x.wr.rest|) > 0 ==> x.token || PostPending(x.chore) || x.life.Down?)
    && (x.wr.waiting ==> Busy(x.wr))
  }

  lemma WakeByWriter(x: Endpoint, client: bool, e: Local)
    requires WakeOk(x) && OfWriter(e) && LogOk(x.wr)
    ensures WakeOk(Writing(x, client, e).me)
  {
    match e
    case Write(p, end) =>
    case Check =>
    case Wake =>
    case GiveUp =>
    case Emit =>
  }

  lemma WakeByReader(x: Endpoint, client: bool, f: Frame, ok: bool)
    requires WakeOk(x) && x.chore.NoChore? && x.life.Up?
    ensures WakeOk(Receiving(x, client, f, ok))
  {
    match f
    case Settings(_) =>
    case SettingsAck =>
    case Headers =>
    case Data(_, _) =>
    case Update(_, _) =>
  }

  lemma WakeByPaying(x: Endpoint, client: bool, e: Local)
    requires WakeOk(x) && !OfOpening(e) && !OfWriter(e) && !e.Receive?
    ensures WakeOk(Paying(x, client, e).me)
  {
    match e
    case PayConn =>
    case PayStream =>
    case PayAck =>
    case Post =>
    case Die =>
  }

  lemma WakeStep(x: Endpoint, client: bool, inbox: Channel, e: Local)
    requires WakeOk(x) && LogOk(x.wr)
    ensures WakeOk(Act(x, client, inbox, e).me)
  {
    if OfWriter(e) {
      WakeByWriter(x, client, e);
    } else if OfOpening(e) {
    } else if e.Receive? {
      if Act(x, client, inbox, e).pop { WakeByReader(x, client, inbox[0], e.pipeOk); }
    } else {
      WakeByPaying(x, client, e);
    }
  }

  /** No wake-up is lost between the two ends either. */
  lemma {:induction false} WakeAlways(events: seq<Event>)
    ensures WakeOk(Run(events).client) && WakeOk(Run(events).server)
  {
    if events != [] {
      var s, e := Run(events[..|events| - 1]), events[|events| - 1];
      WakeAlways(events[..|events| - 1]);
      LogAlways(events[..|events| - 1]);
      match e
      case AtClient(l) => WakeStep(s.client, true, s.s2c, l);
      case AtServer(l) => WakeStep(s.server, false, s.c2s, l);
    }
  }

  // ---------------------------------------------------------------- the work left

  /** How much work a frame stands for: a DATA frame costs two credits to return, each a frame; a
      SETTINGS frame costs an acknowledgement and a token. */
  function FrameWork(f: Frame): (n: nat) {
    match f
    case Data(_, _) => 8
    case Settings(_) => 5
    case SettingsAck => 1
    case Headers => 1
    case Update(_, _) => 1
  }

  function ChannelWork(ch: Channel): (n: nat) {
    if ch == [] then 0 else FrameWork(ch[0]) + ChannelWork(ch[1..])
  }

  lemma {:induction false} WorkAppend(ch: Channel, f: Frame)
    ensures ChannelWork(ch + [f]) == ChannelWork(ch) + FrameWork(f)
  {
    if ch == [] {
      assert ch + [f] == [f];
    } else {
      assert (ch + [f])[1..] == ch[1..] + [f];
      WorkAppend(ch[1..], f);
    }
  }

  function ChoreWork(c: Chore): (n: nat) {
    match c
    case NoChore => 0
    case PostAndAck => 3
    case AckOnly => 2
    case PostOnly => 1
  }

  function WriterWork(x: Writer): (n: nat) {
    20 * |x.rest| + (if x.hand == [] then 0 else 10) + if x.waiting then 1 else 0
  }

  function EndWork(x: Endpoint): (n: nat) {
    WriterWork(x.wr)
    + (if x.phase.Greet0? then 20 else if x.phase.Greet1? then 10 else 0)
    + (if x.oweConn > 0 then 3 else 0) + (if x.oweStream > 0 then 3 else 0) + ChoreWork(x.chore)
  }

  function Work(s: System): (n: nat) {
    EndWork(s.client) + EndWork(s.server) + ChannelWork(s.c2s) + ChannelWork(s.s2c)
  }

  /** The next thing an endpoint has to do; Idle if there is none. */
  datatype Todo = Idle | Do(e: Local)

  function Next(x: Endpoint, client: bool, inbox: Channel): (t: Todo) {
    if !Running(x.phase) then Do(Greet)
    else if x.oweConn > 0 then Do(PayConn)
    else if x.oweStream > 0 then Do(PayStream)
    else if !x.chore.NoChore? then Do(if x.chore.AckOnly? || (client && x.chore.PostAndAck?) then PayAck else Post)
    else if x.wr.hand != [] then Do(Emit)
    else if inbox != [] then Do(Receive(true))
    else Idle
  }

  function OutWork(out: Channel): (n: nat) { if out == [] then 0 else FrameWork(out[0]) }

  /** The application has not asked for END_STREAM. */
  predicate Open(x: Writer) { !x.end && !x.ended }

  predicate Ends(f: Frame) { f.Data? && f.end }

  /** The log once the call in progress is complete. */
  function Finished(x: Writer): (calls: seq<Call>) {
    if !Busy(x) || x.calls == [] then x.calls else
    var n := |x.calls| - 1;
    x.calls[n := Call(x.calls[n].input, x.calls[n].input)]
  }

  /** What a step of the drain leaves alone. */
  predicate Keeps(x: Endpoint, y: Endpoint) {
    && Finished(y.wr) == Finished(x.wr) && y.w.maxFrame == x.w.maxFrame
    && (x.streamOpen ==> y.streamOpen) && (x.phase.Live? ==> y.phase.Live?)
    && (!y.overflowed ==> y.life.Up?) && (Open(x.wr) ==> Open(y.wr)) && y.wr.quit == x.wr.quit
  }

  lemma ReceiveWorks(x: Endpoint, client: bool, f: Frame)
    requires x.life.Up? && x.oweConn == 0 && x.oweStream == 0 && x.chore.NoChore? && (client ==> !Ends(f))
    ensures EndWork(Receiving(x, client, f, true)) < EndWork(x) + FrameWork(f)
    ensures Keeps(x, Receiving(x, client, f, true))
  {
    match f
    case Data(p, _) =>
    case Update(t, n) =>
    case Settings(v) =>
    case SettingsAck =>
    case Headers =>
  }

  lemma PayWorks(x: Endpoint, client: bool, e: Local)
    requires x.life.Up? && Running(x.phase)
    requires || (e.PayConn? && x.oweConn > 0)
             || (e.PayStream? && x.oweConn == 0 && x.oweStream > 0)
             || (e.PayAck? && (x.chore.AckOnly? || (client && x.chore.PostAndAck?)))
             || (e.Post? && (x.chore.PostOnly? || (!client && x.chore.PostAndAck?)))
    ensures var r := Paying(x, client, e); EndWork(r.me) + OutWork(r.out) < EndWork(x) && Keeps(x, r.me)
  {
    match e
    case PayConn =>
    case PayStream =>
    case PayAck =>
    case Post =>
  }

  lemma GreetWorks(x: Endpoint, client: bool)
    requires x.life.Up? && !Running(x.phase)
    ensures var r := Beginning(x, client, Greet); EndWork(r.me) + OutWork(r.out) < EndWork(x) && Keeps(x, r.me)
  {
  }

  /** A chunk put into a frame is not lost to the finished log. */
  lemma PutFinished(x: Writer)
    requires LogOk(x) && x.hand != []
    ensures Finished(PutChunk(x)) == Finished(x)
  {
    var n := |x.calls| - 1;
    var c := x.calls[n];
    Put(c, c.(sent := c.sent + x.hand), x.hand, x.rest);
  }

  lemma EmitWorks(x: Endpoint, client: bool)
    requires x.life.Up? && x.wr.hand != [] && LogOk(x.wr)
    ensures var r := Writing(x, client, Emit); EndWork(r.me) + OutWork(r.out) < EndWork(x) && Keeps(x, r.me)
  {
    PutFinished(x.wr);
    assert WriterWork(PutChunk(x.wr)) <= WriterWork(x.wr) - 10;
  }

  lemma OutGrows(out: Channel, r: Effect)
    requires |r.out| <= 1
    ensures ChannelWork(out + r.out) == ChannelWork(out) + OutWork(r.out)
  {
    if r.out == [] {
      assert out + r.out == out;
    } else {
      WorkAppend(out, r.out[0]);
      assert r.out == [r.out[0]];
    }
  }

  /** Every step that Next names does some of the work. */
  lemma NextWorks(x: Endpoint, client: bool, out: Channel, inbox: Channel)
    requires x.life.Up? && LogOk(x.wr) && Next(x, client, inbox).Do? && (client && inbox != [] ==> !Ends(inbox[0]))
    ensures var r := Act(x, client, inbox, Next(x, client, inbox).e);
            && Keeps(x, r.me)
            && EndWork(r.me) + ChannelWork(out + r.out) + ChannelWork(Rest(inbox, r.pop)) <
               EndWork(x) + ChannelWork(out) + ChannelWork(inbox)
  {
    var e := Next(x, client, inbox).e;
    OutGrows(out, Act(x, client, inbox, e));
    match e
    case Receive(_) => ReceiveWorks(x, client, inbox[0]);
    case Emit => EmitWorks(x, client);
    case Greet => GreetWorks(x, client);
    case _ => PayWorks(x, client, e);
  }

  // ---------------------------------------------------------------- the whole system

  predicate AtRest(s: System) { Next(s.client, true, s.s2c).Idle? && Next(s.server, false, s.c2s).Idle? }

  /** Both readers are running, the server has not ended the stream, and honest ends never lower the
      frame limit. */
  predicate BothUp(s: System) {
    && s.client.life.Up? && s.server.life.Up? && Open(s.server.wr)
    && s.client.w.maxFrame > 0 && s.server.w.maxFrame > 0
  }

  /** No END_STREAM is under way from an end that has not ended its stream. */
  predicate NoneEnds(x: Endpoint, out: Channel) { !x.wr.ended ==> forall i :: 0 <= i < |out| ==> !Ends(out[i]) }

  lemma NoneEndsStep(x: Endpoint, client: bool, out: Channel, inbox: Channel, e: Local)
    requires NoneEnds(x, out)
    ensures var r := Act(x, client, inbox, e); NoneEnds(r.me, out + r.out)
  {
    var r := Act(x, client, inbox, e);
    if OfWriter(e) {
      EndsWritten(x, client, e);
    } else {
      assert r.out != [] ==> !Ends(r.out[0]);
    }
  }

  lemma EndsWritten(x: Endpoint, client: bool, e: Local)
    requires OfWriter(e)
    ensures var r := Writing(x, client, e);
            && (x.wr.ended ==> r.me.wr.ended || e.Write?)
            && (r.out != [] && Ends(r.out[0]) ==> r.me.wr.ended)
            && (e.Write? && x.wr.ended ==> r.me == x)
  {
    match e
    case Write(p, end) =>
    case Check =>
    case Wake =>
    case GiveUp =>
    case Emit =>
  }

  lemma {:induction false} NoneEndsAlways(events: seq<Event>)
    ensures NoneEnds(Run(events).server, Run(events).s2c)
  {
    if events != [] {
      var s, e := Run(events[..|events| - 1]), events[|events| - 1];
      NoneEndsAlways(events[..|events| - 1]);
      match e
      case AtClient(l) => assert forall f :: f in Step(s, e).s2c ==> f in s.s2c;
      case AtServer(l) => NoneEndsStep(s.server, false, s.s2c, s.c2s, l);
    }
  }

  /** The next event of the drain, if anything is left to do. */
  datatype Plan = Over | Then(e: Event)

  /** A sleeping writer has to be woken, one that is awake tests the windows. */
  function Resume(x: Writer): (e: Local) { if x.waiting then Wake else Check }

  function PlanFor(s: System): (p: Plan) {
    if Next(s.client, true, s.s2c).Do? then Then(AtClient(Next(s.client, true, s.s2c).e))
    else if Next(s.server, false, s.c2s).Do? then Then(AtServer(Next(s.server, false, s.c2s).e))
    else if s.client.wr.rest != [] then Then(AtClient(Resume(s.client.wr)))
    else if s.server.wr.rest != [] then Then(AtServer(Resume(s.server.wr)))
    else Over
  }

  /** With nothing under way all credit is with the senders, so a waiting writer can go on. */
  lemma CreditAtRest(s: System)
    requires Inv(s) && AtRest(s)
    ensures s.client.w.conn == WINDOW && s.server.w.conn == WINDOW
    ensures s.client.streamOpen ==> s.client.w.stream == WINDOW
    ensures s.server.streamOpen ==> s.server.w.stream == WINDOW
    ensures s.c2s == [] && s.s2c == []
  {
    assert s.c2s == [] && s.s2c == [];
  }

  lemma TakeFinished(x: Writer, n: nat)
    requires x.hand == [] && 0 < n <= |x.rest|
    ensures Finished(TakeChunk(x, n)) == Finished(x)
    ensures WriterWork(TakeChunk(x, n)) < WriterWork(x)
  {
    assert |TakeChunk(x, n).rest| == |x.rest| - n && TakeChunk(x, n).hand != [];
  }

  /** With full windows the sleeping writer finds its token, and the one awake takes a chunk. */
  lemma ResumeWorks(x: Endpoint, client: bool, inbox: Channel)
    requires x.life.Up? && x.wr.hand == [] && x.wr.rest != [] && x.w.conn == x.w.stream == WINDOW && x.w.maxFrame > 0
    requires WakeOk(x) && x.chore.NoChore?
    ensures var r := Act(x, client, inbox, Resume(x.wr));
            EndWork(r.me) < EndWork(x) && r.out == [] && !r.pop && Keeps(x, r.me)
  {
    if x.wr.waiting { WakeWorks(x, client); } else { CheckWorks(x, client); }
  }

  lemma WakeWorks(x: Endpoint, client: bool)
    requires x.life.Up? && x.wr.rest != [] && x.w.conn == x.w.stream == WINDOW && x.w.maxFrame > 0
    requires WakeOk(x) && x.chore.NoChore? && x.wr.waiting
    ensures var r := Writing(x, client, Wake); EndWork(r.me) < EndWork(x) && r.out == [] && Keeps(x, r.me)
  {
    assert Usable(x.w, |x.wr.rest|) > 0;
    assert x.token;
  }

  lemma CheckWorks(x: Endpoint, client: bool)
    requires x.life.Up? && x.wr.hand == [] && x.wr.rest != [] && x.w.conn == x.w.stream == WINDOW && x.w.maxFrame > 0
    requires !x.wr.waiting
    ensures var r := Writing(x, client, Check); EndWork(r.me) < EndWork(x) && r.out == [] && Keeps(x, r.me)
  {
    var n := Usable(x.w, |x.wr.rest|);
    assert n > 0;
    TakeFinished(x.wr, n);
  }

  lemma PlanWorks(s: System)
    requires Inv(s) && BothUp(s) && NoneEnds(s.server, s.s2c) && PlanFor(s).Then?
    requires LogOk(s.client.wr) && LogOk(s.server.wr) && WakeOk(s.client) && WakeOk(s.server)
    ensures var t := Step(s, PlanFor(s).e);
            && Work(t) < Work(s) && Keeps(s.client, t.client) && Keeps(s.server, t.server)
            && (Inv(t) ==> BothUp(t))
  {
    if Next(s.client, true, s.s2c).Do? {
      NextWorks(s.client, true, s.c2s, s.s2c);
    } else if Next(s.server, false, s.c2s).Do? {
      NextWorks(s.server, false, s.s2c, s.c2s);
    } else {
      RestWorks(s);
    }
  }

  lemma RestWorks(s: System)
    requires Inv(s) && BothUp(s) && AtRest(s) && PlanFor(s).Then?
    requires WakeOk(s.client) && WakeOk(s.server)
    ensures var t := Step(s, PlanFor(s).e);
            && Work(t) < Work(s) && Keeps(s.client, t.client) && Keeps(s.server, t.server)
            && (Inv(t) ==> BothUp(t))
  {
    CreditAtRest(s);
    assert s.c2s + [] == s.c2s && s.s2c + [] == s.s2c;
    if s.client.wr.rest != [] {
      ResumeWorks(s.client, true, s.s2c);
    } else {
      ResumeWorks(s.server, false, s.c2s);
    }
  }

  lemma {:induction false} FrameLimitAlways(events: seq<Event>)
    ensures Run(events).client.w.maxFrame == DEFAULT_FRAME && Run(events).server.w.maxFrame == DEFAULT_FRAME
  {
    if events != [] {
      FrameLimitAlways(events[..|events| - 1]);
    }
  }

  /** Everything that went into frames is delivered, no call is in progress, and every window is full. */
  predicate Drained(t: System) {
    && t.c2s == [] && t.s2c == [] && AtRest(t) && !Busy(t.client.wr) && !Busy(t.server.wr)
    && t.server.delivered == t.client.wr.emitted && t.client.delivered == t.server.wr.emitted
    && t.client.w.conn == WINDOW && t.server.w.conn == WINDOW
    && (t.client.streamOpen ==> t.client.w.stream == WINDOW)
    && (t.server.streamOpen ==> t.server.w.stream == WINDOW)
  }

  predicate DrainedAfter(events: seq<Event>) { Drained(Run(events)) }

  /** The two logs once the calls in progress are complete. */
  function Goals(events: seq<Event>): (r: (seq<Call>, seq<Call>)) {
    (Finished(Run(events).client.wr), Finished(Run(events).server.wr))
  }

  /** What an end may do stays: it is past its HEADERS frame, has not ended its stream, has not quit. */
  predicate MayStill(x: Endpoint, y: Endpoint) {
    (x.phase.Live? ==> y.phase.Live?) && (Open(x.wr) ==> Open(y.wr)) && y.wr.quit == x.wr.quit
  }

  predicate LiveStays(events: seq<Event>, all: seq<Event>) {
    MayStill(Run(events).client, Run(all).client) && MayStill(Run(events).server, Run(all).server)
  }

  predicate BothReading(events: seq<Event>) { BothUp(Run(events)) }

  function WorkAfter(events: seq<Event>): (n: nat) { Work(Run(events)) }

  function PlanAfter(events: seq<Event>): (p: Plan) { PlanFor(Run(events)) }

  lemma OverIsDrained(events: seq<Event>)
    requires BothReading(events) && PlanAfter(events).Over?
    ensures DrainedAfter(events)
  {
    InvAlways(events);
    CreditAtRest(Run(events));
    FaithfulAlways(events);
  }

  /** The planned step, as the next event of the run. */
  lemma PlannedStep(events: seq<Event>)
    requires BothReading(events) && PlanAfter(events).Then?
    ensures var next := events + [PlanAfter(events).e];
            && BothReading(next) && WorkAfter(next) < WorkAfter(events)
            && Goals(next) == Goals(events) && LiveStays(events, next)
  {
    var e := PlanFor(Run(events)).e;
    InvAlways(events);
    LogAlways(events);
    WakeAlways(events);
    NoneEndsAlways(events);
    PlanWorks(Run(events));
    assert (events + [e])[..|events|] == events;
    InvAlways(events + [e]);
  }

  /** `all` continues `events` until everything is drained: no new call is taken and none given up. */
  ghost predicate Drainable(events: seq<Event>, all: seq<Event>) {
    events <= all && DrainedAfter(all) && Goals(all) == Goals(events) && LiveStays(events, all) && BothReading(all)
  }

  lemma {:induction false} DrainsFrom(events: seq<Event>) returns (all: seq<Event>)
    requires BothReading(events)
    ensures Drainable(events, all)
    decreases WorkAfter(events)
  {
    if PlanAfter(events).Over? {
      all := events;
      OverIsDrained(events);
    } else {
      PlannedStep(events);
      all := DrainsFrom(events + [PlanAfter(events).e]);
    }
  }

  /** From every reachable state in which neither reader has stopped and the server has not been asked to
      end the stream (on END_STREAM the client's reader returns for good), a finite run of the two ends
      alone wakes the sleeping writers, completes every call in progress, delivers every byte and brings
      all credit back: flow control never deadlocks. */
  lemma Drains(events: seq<Event>)
    requires Run(events).client.life.Up? && Run(events).server.life.Up? && Open(Run(events).server.wr)
    ensures exists all: seq<Event> :: Drainable(events, all)
  {
    FrameLimitAlways(events);
    var all := DrainsFrom(events);
    assert Drainable(events, all);
  }
}
