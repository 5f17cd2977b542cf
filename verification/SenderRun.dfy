/** One endpoint's writer and frame reader, interleaved at their mutex sections, against any peer:
    window accounting, frame contents and wake-ups in every run. */
module SenderRun {
  import opened Bytes
  import opened FlowControl

  datatype Side = Server | Client

  /** The reader inside handleSettings applies settings one mutex section at a time, then posts a
      token and acknowledges; the server posts first, the client acknowledges first. */
  datatype Reader = Reading | InSettings(left: seq<Setting>) | Posting | Acking | Stopped

  datatype Writer = Resting | Checking | Waiting | Holding(n: nat, at: Windows)

  datatype Call = Call(input: seq<Byte>, end: bool, frames: seq<Chunk>)

  datatype State = State(
    side: Side,
    w: Windows,
    started: bool,
    token: bool,
    closed: bool,
    reader: Reader,
    writer: Writer,
    call: Call,
    rest: seq<Byte>,
    finished: seq<Call>,
    aborted: seq<Call>,
    // history
    connCredit: nat,
    streamCredit: nat,
    reserved: nat)

  datatype Event =
    | PeerSettings(settings: seq<Setting>)
    | NextSetting
    | Post
    | Ack(written: bool)
    | PeerUpdate(target: Target, increment: nat)
    | ReaderError
    | Close
    | Start
    | Write(p: seq<Byte>, end: bool)
    | Check
    | Wake
    | GiveUp
    | Emit(written: bool)

  function Init(side: Side): (s: State) {
    State(side, if side.Server? then SERVER_START else CLIENT_START, false, false, false, Reading, Resting,
          Call([], false, []), [], [], [], 0, 0, 0)
  }

  function AfterSettings(side: Side): Reader { if side.Server? then Posting else Acking }
  function AfterPost(side: Side): Reader { if side.Server? then Acking else Reading }
  function AfterAck(side: Side): Reader { if side.Server? then Reading else Posting }

  /** The framer's own test: INITIAL_WINDOW_SIZE above 2^31-1 is a connection error. */
  predicate WireOk(settings: seq<Setting>) {
    forall i :: 0 <= i < |settings| && settings[i].InitialWindowSize? ==> settings[i].value <= MAX_WINDOW
  }

  /** One step; an event that is not enabled leaves the state alone. */
  function Step(s: State, e: Event): (t: State) {
    match e
    case PeerSettings(settings) =>
      if !s.reader.Reading? then s else s.(reader := if WireOk(settings) then InSettings(settings) else Stopped)
    case NextSetting =>
      if !s.reader.InSettings? then s
      else if s.reader.left == [] then s.(reader := AfterSettings(s.side))
      else if Refused(s.reader.left[0], s.side.Client?) then s.(reader := Stopped)
      else s.(w := OnSetting(s.w, s.reader.left[0]), reader := InSettings(s.reader.left[1..]))
    case Post => if s.reader.Posting? then s.(token := true, reader := AfterPost(s.side)) else s
    case Ack(written) =>
      if !s.reader.Acking? then s
      else if written then s.(reader := AfterAck(s.side)) else s.(reader := Stopped)
    case PeerUpdate(target, increment) => if s.reader.Reading? then Updated(s, target, increment) else s
    case ReaderError => s.(reader := Stopped)
    case Close => s.(closed := true, token := true)
    case Start => if s.started then s else s.(w := StartStream(s.w), started := true, streamCredit := 0)
    case Write(p, end) =>
      if s.started && s.writer.Resting?
      then s.(call := Call(p, end, []), rest := p, writer := if p == [] then Holding(0, s.w) else Checking)
      else s
    case Check => if s.writer.Checking? then Checked(s) else s
    case Wake => if s.writer.Waiting? && s.token then s.(token := false, writer := Checking) else s
    case GiveUp => if s.writer.Waiting? then Abort(s) else s
    case Emit(written) =>
      if !s.writer.Holding? || s.writer.n > |s.rest| then s
      else if written then Emitted(s) else Abort(s)
  }

  function Updated(s: State, target: Target, increment: nat): (t: State) {
    var w := OnUpdate(s.w, target, increment);
    var t := s.(w := w,
                connCredit := s.connCredit + if target.Connection? then increment else 0,
                streamCredit := s.streamCredit + if target.Stream? then increment else 0);
    if Overflow(w) then t.(reader := Stopped) else t.(token := true)
  }

  /** One turn of the reserveWriteWindow loop. */
  function Checked(s: State): (t: State) {
    var n := Usable(s.w, |s.rest|);
    if n > 0 then s.(w := Reserve(s.w, n), writer := Holding(n, s.w), reserved := s.reserved + n)
    else s.(writer := Waiting)
  }

  function Abort(s: State): (t: State) { s.(writer := Resting, aborted := s.aborted + [s.call]) }

  /** The frame write of writeData. */
  function Emitted(s: State): (t: State)
    requires s.writer.Holding? && s.writer.n <= |s.rest|
  {
    var n := s.writer.n;
    var call := s.call.(frames := s.call.frames + [Chunk(s.rest[..n], s.call.end && n == |s.rest|, s.writer.at)]);
    if n == |s.rest| then s.(call := call, rest := [], writer := Resting, finished := s.finished + [call])
    else s.(call := call, rest := s.rest[n..], writer := Checking)
  }

  function Run(side: Side, events: seq<Event>): (s: State) {
    if events == [] then Init(side) else Step(Run(side, events[..|events| - 1]), events[|events| - 1])
  }

  // ---------------------------------------------------------------- window accounting

  /** Connection window = 65535 + connection credit - reserved bytes, never negative; after the
      stream has started, stream window = the peer's current initial window + stream credit -
      reserved bytes. */
  predicate Accounted(s: State) {
    && s.w.conn == DEFAULT_WINDOW + s.connCredit - s.reserved
    && s.w.conn >= 0
    && (s.started ==> s.w.live && s.w.stream == s.w.initial + s.streamCredit - s.reserved)
    && (!s.started ==> s.reserved == 0 && s.writer.Resting?)
  }

  lemma AccountedStep(s: State, e: Event)
    requires Accounted(s)
    ensures Accounted(Step(s, e))
  {
    match e
    case NextSetting => AccountedSetting(s, e);
    case PeerUpdate(target, increment) => AccountedUpdate(s, target, increment);
    case Start =>
    case Check => AccountedCheck(s);
    case Emit(_) => AccountedEmit(s, e);
    case Write(_, _) => SameAccounts(s, Step(s, e));
    case Wake => SameAccounts(s, Step(s, e));
    case GiveUp => SameAccounts(s, Step(s, e));
    case _ => AccountedReader(s, e);
  }

  lemma AccountedReader(s: State, e: Event)
    requires Accounted(s) && (e.PeerSettings? || e.Post? || e.Ack? || e.ReaderError? || e.Close?)
    ensures Accounted(Step(s, e))
  {
    match e
    case PeerSettings(_) => SameAccounts(s, Step(s, e));
    case Post => SameAccounts(s, Step(s, e));
    case Ack(_) => SameAccounts(s, Step(s, e));
    case ReaderError => SameAccounts(s, Step(s, e));
    case Close => SameAccounts(s, Step(s, e));
  }

  lemma SameAccounts(s: State, t: State)
    requires Accounted(s)
    requires (t.w, t.started, t.connCredit, t.streamCredit, t.reserved) ==
        (s.w, s.started, s.connCredit, s.streamCredit, s.reserved)
    requires !t.started ==> t.writer.Resting?
    ensures Accounted(t)
  {
  }

  lemma AccountedSetting(s: State, e: Event)
    requires Accounted(s) && e.NextSetting?
    ensures Accounted(Step(s, e))
  {
  }

  lemma AccountedUpdate(s: State, target: Target, increment: nat)
    requires Accounted(s)
    ensures Accounted(Updated(s, target, increment))
  {
  }

  lemma AccountedCheck(s: State)
    requires Accounted(s)
    ensures s.writer.Checking? ==> Accounted(Checked(s))
  {
  }

  lemma AccountedEmit(s: State, e: Event)
    requires Accounted(s) && e.Emit?
    ensures Accounted(Step(s, e))
  {
    SameAccounts(s, Step(s, e));
  }

  /** In every run, against every peer. */
  lemma {:induction false} AccountedAlways(side: Side, events: seq<Event>)
    ensures Accounted(Run(side, events))
  {
    if events != [] {
      AccountedAlways(side, events[..|events| - 1]);
      AccountedStep(Run(side, events[..|events| - 1]), events[|events| - 1]);
    }
  }

  /** The credit that a step brings: a WINDOW_UPDATE that the reader takes. */
  function Grants(s: State, e: Event, target: Target): (n: nat) {
    if e.PeerUpdate? && s.reader.Reading? && e.target == target then e.increment else 0
  }

  /** All credit granted so far for the connection. */
  function ConnGranted(side: Side, events: seq<Event>): (n: nat) {
    if events == [] then 0 else
    var before := events[..|events| - 1];
    ConnGranted(side, before) + Grants(Run(side, before), events[|events| - 1], Connection)
  }

  /** All credit granted for the stream since it started. */
  function StreamGranted(side: Side, events: seq<Event>): (n: nat) {
    if events == [] then 0 else
    var before, e := events[..|events| - 1], events[|events| - 1];
    if e.Start? && !Run(side, before).started then 0
    else StreamGranted(side, before) + Grants(Run(side, before), e, Stream)
  }

  lemma CreditStep(s: State, e: Event)
    ensures Step(s, e).connCredit == s.connCredit + Grants(s, e, Connection)
    ensures Step(s, e).streamCredit == if e.Start? && !s.started then 0 else s.streamCredit + Grants(s, e, Stream)
    ensures Step(s, e).started == (s.started || e.Start?)
  {
    match e
    case PeerUpdate(_, _) =>
    case Start =>
    case Check =>
    case Emit(_) =>
    case NextSetting =>
    case _ => CreditKept(s, e);
  }

  lemma CreditKept(s: State, e: Event)
    requires !e.NextSetting? && !e.PeerUpdate? && !e.Start? && !e.Check? && !e.Emit?
    ensures var t := Step(s, e);
            t.connCredit == s.connCredit && t.streamCredit == s.streamCredit && t.started == s.started
  {
    match e
    case PeerSettings(_) =>
    case Post =>
    case Ack(_) =>
    case ReaderError =>
    case Close =>
    case Write(_, _) =>
    case Wake =>
    case GiveUp =>
  }

  /** The two counters are the credit in the events. */
  lemma {:induction false} CreditGranted(side: Side, events: seq<Event>)
    ensures Run(side, events).connCredit == ConnGranted(side, events)
    ensures Run(side, events).streamCredit == StreamGranted(side, events)
  {
    if events != [] {
      CreditGranted(side, events[..|events| - 1]);
      CreditStep(Run(side, events[..|events| - 1]), events[|events| - 1]);
    }
  }

  /** The payload bytes in the frames of these calls. */
  function BytesIn(calls: seq<Call>): (n: nat) {
    if calls == [] then 0 else BytesIn(calls[..|calls| - 1]) + |Sent(calls[|calls| - 1].frames)|
  }

  lemma {:induction false} BytesInMore(calls: seq<Call>, c: Call)
    ensures BytesIn(calls + [c]) == BytesIn(calls) + |Sent(c.frames)|
  {
    assert (calls + [c])[..|calls|] == calls;
  }

  /** All payload bytes put into frames so far. */
  function BytesSent(s: State): (n: nat) {
    BytesIn(s.finished) + BytesIn(s.aborted) + if s.writer.Resting? then 0 else |Sent(s.call.frames)|
  }

  /** Every byte in a frame, and in the writer's hand, has been reserved. */
  predicate Paid(s: State) { BytesSent(s) + (if s.writer.Holding? then s.writer.n else 0) <= s.reserved }

  lemma {:induction false} PaidEmit(s: State)
    requires Paid(s) && s.writer.Holding? && s.writer.n <= |s.rest|
    ensures Paid(Emitted(s))
  {
    var t := Emitted(s);
    var c := t.call.frames[|s.call.frames|];
    assert t.call.frames == s.call.frames + [c] && |c.data| == s.writer.n;
    SentAppend(s.call.frames, c);
    BytesInMore(s.finished, t.call);
  }

  lemma {:induction false} PaidAbort(s: State)
    requires Paid(s) && !s.writer.Resting?
    ensures Paid(Abort(s))
  {
    BytesInMore(s.aborted, s.call);
  }

  lemma {:induction false} PaidStep(s: State, e: Event)
    requires Paid(s)
    ensures Paid(Step(s, e))
  {
    match e
    case Write(_, _) => assert Sent([]) == [];
    case Check => if s.writer.Checking? { PaidCheck(s); }
    case Wake =>
    case GiveUp => if s.writer.Waiting? { PaidAbort(s); }
    case Emit(written) =>
      if s.writer.Holding? && s.writer.n <= |s.rest| {
        if written { PaidEmit(s); } else { PaidAbort(s); }
      }
    case _ => PaidByReader(s, e);
  }

  lemma PaidCheck(s: State)
    requires Paid(s) && s.writer.Checking?
    ensures Paid(Checked(s))
  {
  }

  lemma PaidByReader(s: State, e: Event)
    requires Paid(s) && !e.Write? && !e.Check? && !e.Wake? && !e.GiveUp? && !e.Emit?
    ensures Paid(Step(s, e))
  {
    SameFrames(s, e);
    match e
    case PeerSettings(_) =>
    case NextSetting =>
    case Post =>
    case Ack(_) =>
    case PeerUpdate(_, _) =>
    case ReaderError =>
    case Close =>
    case Start =>
  }

  lemma {:induction false} PaidAlways(side: Side, events: seq<Event>)
    ensures Paid(Run(side, events))
  {
    if events != [] {
      PaidAlways(side, events[..|events| - 1]);
      PaidStep(Run(side, events[..|events| - 1]), events[|events| - 1]);
    } else {
      assert Sent([]) == [];
    }
  }

  /** In every run, against every peer: the payload bytes put into frames are at most 65535 and the connection
      credit granted. */
  lemma SentWithinCredit(side: Side, events: seq<Event>)
    ensures BytesSent(Run(side, events)) <= 65535 + ConnGranted(side, events)
  {
    AccountedAlways(side, events);
    PaidAlways(side, events);
    CreditGranted(side, events);
  }

  /** ... and once the stream has started, the stream window is the initial window announced last, and the
      credit granted since, less the bytes put into frames, reserved or lost. */
  lemma StreamWindowIs(side: Side, events: seq<Event>)
    requires Run(side, events).started
    ensures var s := Run(side, events);
            s.w.stream <= LastInitial(Announced(side, events), 65535) + StreamGranted(side, events) - BytesSent(s)
  {
    AccountedAlways(side, events);
    PaidAlways(side, events);
    CreditGranted(side, events);
    LimitsAnnounced(side, events);
  }

  // ---------------------------------------------------------------- frame contents

  predicate CallOk(s: State) {
    match s.writer
    case Resting => true
    case Checking => s.rest != [] && Partial(s.call.input, s.rest, s.call.frames)
    case Waiting => s.rest != [] && Partial(s.call.input, s.rest, s.call.frames)
    case Holding(n, at) =>
      && n <= |s.rest| && (n == 0 ==> s.rest == [])
      && (n > 0 ==> n <= at.conn && n <= at.stream && n <= at.maxFrame)
      && Partial(s.call.input, s.rest, s.call.frames)
  }

  predicate FinishedOk(calls: seq<Call>) {
    forall i :: 0 <= i < |calls| ==> Complete(calls[i].input, calls[i].end, calls[i].frames)
  }

  predicate AbortedOk(calls: seq<Call>) {
    forall i :: 0 <= i < |calls| ==>
      Sent(calls[i].frames) <= calls[i].input && NoEnd(calls[i].frames) && AllInLimits(calls[i].frames)
  }

  /** Every finished writeData call put exactly its input into frames within the limits at
      reservation, END_STREAM on the last only; every aborted one an unended prefix. */
  predicate FramesOk(s: State) { CallOk(s) && FinishedOk(s.finished) && AbortedOk(s.aborted) }

  lemma FramesOkStep(s: State, e: Event)
    requires FramesOk(s)
    ensures FramesOk(Step(s, e))
  {
    match e
    case Write(p, end) => assert Sent([]) == [];
    case Check => if s.writer.Checking? { CheckedOk(s); }
    case Wake =>
    case GiveUp => if s.writer.Waiting? { AbortOk(s); }
    case Emit(written) =>
      if s.writer.Holding? {
        if written { EmittedOk(s); } else { AbortOk(s); }
      }
    case _ => ReaderKeepsFrames(s, e);
  }

  lemma CheckedOk(s: State)
    requires FramesOk(s) && s.writer.Checking?
    ensures FramesOk(Checked(s))
  {
  }

  lemma ReaderKeepsFrames(s: State, e: Event)
    requires FramesOk(s)
    requires !e.Write? && !e.Check? && !e.Wake? && !e.GiveUp? && !e.Emit?
    ensures FramesOk(Step(s, e))
  {
    match e
    case PeerSettings(_) => Untouched(s, Step(s, e));
    case NextSetting => Untouched(s, Step(s, e));
    case PeerUpdate(_, _) => Untouched(s, Step(s, e));
    case Start => Untouched(s, Step(s, e));
    case _ => SignalsKeepFrames(s, e);
  }

  lemma SignalsKeepFrames(s: State, e: Event)
    requires FramesOk(s) && (e.Post? || e.Ack? || e.ReaderError? || e.Close?)
    ensures FramesOk(Step(s, e))
  {
    match e
    case Post => Untouched(s, Step(s, e));
    case Ack(_) => Untouched(s, Step(s, e));
    case ReaderError => Untouched(s, Step(s, e));
    case Close => Untouched(s, Step(s, e));
  }

  /** Steps of the frame reader leave the frames alone. */
  lemma Untouched(s: State, t: State)
    requires FramesOk(s)
    requires (t.writer, t.call, t.rest, t.finished, t.aborted) == (s.writer, s.call, s.rest, s.finished, s.aborted)
    ensures FramesOk(t)
  {
  }

  lemma EmittedOk(s: State)
    requires FramesOk(s) && s.writer.Holding?
    ensures FramesOk(Emitted(s))
  {
    NextChunk(s.call.input, s.call.end, s.rest, s.call.frames, s.writer.n, s.writer.at);
  }

  lemma AbortOk(s: State)
    requires FramesOk(s) && !s.writer.Resting?
    ensures FramesOk(Abort(s))
  {
    assert Partial(s.call.input, s.rest, s.call.frames);
  }

  lemma {:induction false} FramesOkAlways(side: Side, events: seq<Event>)
    ensures FramesOk(Run(side, events))
  {
    if events != [] {
      FramesOkAlways(side, events[..|events| - 1]);
      FramesOkStep(Run(side, events[..|events| - 1]), events[|events| - 1]);
    }
  }

  // ---------------------------------------------------------------- what the peer announced

  /** The setting that a step applies. */
  function Applies(s: State, e: Event): (settings: seq<Setting>) {
    if e.NextSetting? && s.reader.InSettings? && s.reader.left != [] && !Refused(s.reader.left[0], s.side.Client?)
    then [s.reader.left[0]] else []
  }

  /** All settings applied so far, in order. */
  function Announced(side: Side, events: seq<Event>): (settings: seq<Setting>) {
    if events == [] then [] else
    var before := events[..|events| - 1];
    Announced(side, before) + Applies(Run(side, before), events[|events| - 1])
  }

  lemma LimitsStep(s: State, e: Event)
    ensures var t, a := Step(s, e), Applies(s, e);
            && t.w.maxFrame == (if a != [] && a[0].MaxFrameSize? then a[0].value else s.w.maxFrame)
            && t.w.initial == (if a != [] && a[0].InitialWindowSize? then a[0].value else s.w.initial)
  {
    match e
    case NextSetting =>
    case PeerUpdate(_, _) =>
    case Start =>
    case Check =>
    case Emit(_) =>
    case _ => WindowsStay(s, e);
  }

  /** In every run: the frame limit is the last MAX_FRAME_SIZE applied, 16384 before the first; the initial
      window is the last INITIAL_WINDOW_SIZE applied, 65535 before the first. */
  lemma {:induction false} LimitsAnnounced(side: Side, events: seq<Event>)
    ensures Run(side, events).w.maxFrame == LastFrameLimit(Announced(side, events), 16384)
    ensures Run(side, events).w.initial == LastInitial(Announced(side, events), 65535)
  {
    if events != [] {
      var before, e := events[..|events| - 1], events[|events| - 1];
      var s := Run(side, before);
      LimitsAnnounced(side, before);
      LimitsStep(s, e);
      if Applies(s, e) != [] {
        LastOfMore(Announced(side, before), Applies(s, e)[0], 16384, 65535);
        assert Applies(s, e) == [Applies(s, e)[0]];
      } else {
        assert Announced(side, before) + [] == Announced(side, before);
      }
    }
  }

  /** These windows are those in which event n, a turn of the reservation loop, found its credit. */
  predicate SeenAt(side: Side, events: seq<Event>, at: Windows, n: nat)
    requires n < |events|
  {
    events[n].Check? && Run(side, events[..n]).writer.Checking? && Run(side, events[..n]).w == at
  }

  ghost predicate Seen(side: Side, events: seq<Event>, at: Windows) {
    exists n: nat :: n < |events| && SeenAt(side, events, at, n)
  }

  ghost predicate ChunksSeen(side: Side, events: seq<Event>, cs: seq<Chunk>) {
    forall i :: 0 <= i < |cs| && cs[i].data != [] ==> Seen(side, events, cs[i].at)
  }

  ghost predicate CallsSeen(side: Side, events: seq<Event>, calls: seq<Call>) {
    forall i :: 0 <= i < |calls| ==> ChunksSeen(side, events, calls[i].frames)
  }

  /** Every frame with payload, and the chunk in the writer's hand, was reserved at some event. */
  ghost predicate FramesSeen(side: Side, events: seq<Event>, s: State) {
    && ChunksSeen(side, events, s.call.frames)
    && (s.writer.Holding? && s.writer.n > 0 ==> Seen(side, events, s.writer.at))
    && CallsSeen(side, events, s.finished) && CallsSeen(side, events, s.aborted)
  }

  lemma {:induction false} SeenLater(side: Side, events: seq<Event>, e: Event, at: Windows)
    requires Seen(side, events, at)
    ensures Seen(side, events + [e], at)
  {
    var n: nat :| n < |events| && SeenAt(side, events, at, n);
    assert (events + [e])[..n] == events[..n];
    assert SeenAt(side, events + [e], at, n);
  }

  lemma {:induction false} ChunksSeenLater(side: Side, events: seq<Event>, e: Event, cs: seq<Chunk>)
    requires ChunksSeen(side, events, cs)
    ensures ChunksSeen(side, events + [e], cs)
  {
    forall i | 0 <= i < |cs| && cs[i].data != [] ensures Seen(side, events + [e], cs[i].at) {
      SeenLater(side, events, e, cs[i].at);
    }
  }

  lemma {:induction false} CallsSeenLater(side: Side, events: seq<Event>, e: Event, calls: seq<Call>)
    requires CallsSeen(side, events, calls)
    ensures CallsSeen(side, events + [e], calls)
  {
    forall i | 0 <= i < |calls| ensures ChunksSeen(side, events + [e], calls[i].frames) {
      ChunksSeenLater(side, events, e, calls[i].frames);
    }
  }

  lemma {:induction false} FramesSeenLater(side: Side, events: seq<Event>, e: Event, s: State)
    requires FramesSeen(side, events, s)
    ensures FramesSeen(side, events + [e], s)
  {
    ChunksSeenLater(side, events, e, s.call.frames);
    CallsSeenLater(side, events, e, s.finished);
    CallsSeenLater(side, events, e, s.aborted);
    if s.writer.Holding? && s.writer.n > 0 { SeenLater(side, events, e, s.writer.at); }
  }

  /** The frames after a step, if they are seen before it and a new chunk is seen as well. */
  lemma {:induction false} FramesSeenStep(side: Side, all: seq<Event>, s: State, e: Event)
    requires FramesSeen(side, all, s)
    requires e.Check? && s.writer.Checking? ==> Seen(side, all, s.w)
    ensures FramesSeen(side, all, Step(s, e))
  {
    match e
    case Write(_, _) =>
    case Check =>
    case Wake =>
    case GiveUp => if s.writer.Waiting? { AbortSeen(side, all, s); }
    case Emit(written) =>
      if s.writer.Holding? && s.writer.n <= |s.rest| {
        if written { EmitSeen(side, all, s); } else { AbortSeen(side, all, s); }
      }
    case _ => SameFrames(s, e);
  }

  lemma {:induction false} AbortSeen(side: Side, all: seq<Event>, s: State)
    requires FramesSeen(side, all, s)
    ensures FramesSeen(side, all, Abort(s))
  {
  }

  lemma {:induction false} EmitSeen(side: Side, all: seq<Event>, s: State)
    requires FramesSeen(side, all, s) && s.writer.Holding? && s.writer.n <= |s.rest|
    ensures FramesSeen(side, all, Emitted(s))
  {
    var cs, c := s.call.frames, Emitted(s).call.frames[|s.call.frames|];
    assert Emitted(s).call.frames == cs + [c] && c.at == s.writer.at;
    assert ChunksSeen(side, all, cs + [c]);
  }

  lemma SameFrames(s: State, e: Event)
    requires !e.Write? && !e.Check? && !e.Wake? && !e.GiveUp? && !e.Emit?
    ensures var t := Step(s, e); (t.writer, t.call, t.finished, t.aborted) == (s.writer, s.call, s.finished, s.aborted)
  {
    match e
    case PeerSettings(_) =>
    case NextSetting =>
    case Post =>
    case Ack(_) =>
    case PeerUpdate(_, _) =>
    case ReaderError =>
    case Close =>
    case Start =>
  }

  lemma {:induction false} FramesSeenAlways(side: Side, events: seq<Event>)
    ensures FramesSeen(side, events, Run(side, events))
  {
    if events != [] {
      var before, e := events[..|events| - 1], events[|events| - 1];
      var s := Run(side, before);
      assert events == before + [e];
      FramesSeenAlways(side, before);
      FramesSeenLater(side, before, e, s);
      if e.Check? && s.writer.Checking? {
        assert events[..|before|] == before;
        assert SeenAt(side, events, s.w, |before|);
      }
      FramesSeenStep(side, events, s, e);
    }
  }

  /** A frame of this size was within what the peer had announced when its bytes were reserved. */
  ghost predicate WithinAnnounced(side: Side, events: seq<Event>, size: nat) {
    exists n: nat :: n < |events| && events[n].Check? && size <= LastFrameLimit(Announced(side, events[..n]), 16384)
  }

  lemma {:induction false} SeenWithin(side: Side, events: seq<Event>, c: Chunk)
    requires c.data != [] && InLimits(c) && Seen(side, events, c.at)
    ensures WithinAnnounced(side, events, |c.data|)
  {
    var n: nat :| n < |events| && SeenAt(side, events, c.at, n);
    LimitsAnnounced(side, events[..n]);
    assert |c.data| <= LastFrameLimit(Announced(side, events[..n]), 16384);
  }

  /** In every run, every frame with payload of every call, finished, aborted or under way, is at most the
      MAX_FRAME_SIZE that the peer had announced last, or 16384, when its bytes were reserved. */
  lemma {:induction false} FramesWithinAnnounced(side: Side, events: seq<Event>, cs: seq<Chunk>, i: nat)
    requires var s := Run(side, events);
             || (!s.writer.Resting? && cs == s.call.frames)
             || (exists c :: c in s.finished && cs == c.frames)
             || (exists c :: c in s.aborted && cs == c.frames)
    requires i < |cs| && cs[i].data != []
    ensures WithinAnnounced(side, events, |cs[i].data|)
  {
    var s := Run(side, events);
    FramesOkAlways(side, events);
    FramesSeenAlways(side, events);
    if !s.writer.Resting? && cs == s.call.frames {
    } else if exists c :: c in s.finished && cs == c.frames {
      var k :| 0 <= k < |s.finished| && s.finished[k].frames == cs;
      assert Complete(s.finished[k].input, s.finished[k].end, cs);
    } else {
      var k :| 0 <= k < |s.aborted| && s.aborted[k].frames == cs;
    }
    SeenWithin(side, events, cs[i]);
  }

  // ---------------------------------------------------------------- wake-ups

  predicate AboutToPost(s: State) {
    s.reader.InSettings? || s.reader.Posting? || (s.side.Client? && s.reader.Acking?)
  }

  /** The writer never sleeps on usable credit without a wake-up on its way. */
  predicate NoLostWakeUp(s: State) {
    s.writer.Waiting? && Usable(s.w, |s.rest|) > 0 ==> s.token || AboutToPost(s) || s.reader.Stopped? || s.closed
  }

  lemma NoLostWakeUpStep(s: State, e: Event)
    requires Accounted(s) && NoLostWakeUp(s)
    ensures NoLostWakeUp(Step(s, e))
  {
  }

  lemma {:induction false} NoLostWakeUpAlways(side: Side, events: seq<Event>)
    ensures NoLostWakeUp(Run(side, events))
  {
    if events != [] {
      AccountedAlways(side, events[..|events| - 1]);
      NoLostWakeUpAlways(side, events[..|events| - 1]);
      NoLostWakeUpStep(Run(side, events[..|events| - 1]), events[|events| - 1]);
    }
  }

  // ---------------------------------------------------------------- what a wake-up leads to

  function RunFrom(s: State, events: seq<Event>): (t: State) {
    if events == [] then s else Step(RunFrom(s, events[..|events| - 1]), events[|events| - 1])
  }

  lemma {:induction false} RunOn(side: Side, events: seq<Event>, more: seq<Event>)
    ensures RunFrom(Run(side, events), more) == Run(side, events + more)
  {
    if more == [] {
      assert events + more == events;
    } else {
      var n := |more| - 1;
      RunOn(side, events, more[..n]);
      assert (events + more)[..|events + more| - 1] == events + more[..n];
    }
  }

  lemma {:induction false} RunFromAppend(s: State, a: seq<Event>, b: seq<Event>)
    ensures RunFrom(s, a + b) == RunFrom(RunFrom(s, a), b)
  {
    if b == [] {
      assert a + b == a;
    } else {
      var n := |b| - 1;
      RunFromAppend(s, a, b[..n]);
      assert (a + b)[..|a + b| - 1] == a + b[..n];
    }
  }

  lemma {:induction false} RunOne(s: State, e: Event)
    ensures RunFrom(s, [e]) == Step(s, e)
  {
    assert [e][..0] == [];
  }

  /** The reader finishing what it is at, and the writer's own steps; nothing from the peer. */
  predicate OwnStep(e: Event) { e.NextSetting? || e.Post? || e == Ack(true) || e.Wake? || e.Check? }

  predicate OwnSteps(events: seq<Event>) { forall i :: 0 <= i < |events| ==> OwnStep(events[i]) }

  /** The windows once the SETTINGS frame at hand has been applied. */
  function AfterPending(s: State): (w: Windows) {
    if s.reader.InSettings? then ApplyAll(s.w, Nudges(s.reader.left)) else s.w
  }

  lemma {:induction false} ApplyRest(s: State, left: seq<Setting>) returns (more: seq<Event>)
    requires s.reader == InSettings(left)
    ensures OwnSteps(more)
    ensures RunFrom(s, more).reader.Stopped? || RunFrom(s, more) ==
        s.(w := AfterPending(s), reader := AfterSettings(s.side))
    decreases |left|
  {
    var t := Step(s, NextSetting);
    RunOne(s, NextSetting);
    more := [NextSetting];
    if left != [] && !Refused(left[0], s.side.Client?) {
      assert Nudges(left)[1..] == Nudges(left[1..]);
      var rest := ApplyRest(t, left[1..]);
      RunFromAppend(s, [NextSetting], rest);
      more := [NextSetting] + rest;
    }
  }

  /** A reader about to post does so by its own steps. */
  lemma {:induction false} Posts(s: State) returns (more: seq<Event>)
    requires s.reader.Posting? || (s.side.Client? && s.reader.Acking?)
    ensures OwnSteps(more)
    ensures RunFrom(s, more).token
    ensures (RunFrom(s, more).w, RunFrom(s, more).writer, RunFrom(s, more).rest) == (s.w, s.writer, s.rest)
  {
    if s.reader.Posting? {
      more := [Post];
      RunOne(s, Post);
    } else {
      more := [Ack(true)] + [Post];
      RunFromAppend(s, [Ack(true)], [Post]);
      RunOne(s, Ack(true));
      RunOne(Step(s, Ack(true)), Post);
    }
  }

  /** The reader finishes: a token is in the channel and the pending settings are applied, or it stops. */
  lemma {:induction false} Settles(s: State) returns (more: seq<Event>)
    requires AboutToPost(s)
    ensures OwnSteps(more)
    ensures var t := RunFrom(s, more);
            t.reader.Stopped? || (t.token && t.w == AfterPending(s) && t.writer == s.writer && t.rest == s.rest)
  {
    if s.reader.InSettings? {
      more := ApplyRest(s, s.reader.left);
      var t := RunFrom(s, more);
      if !t.reader.Stopped? {
        var rest := Posts(t);
        RunFromAppend(s, more, rest);
        more := more + rest;
      }
    } else {
      more := Posts(s);
    }
  }

  lemma {:induction false} WakesAndTakes(s: State)
    requires s.writer.Waiting? && s.token && Usable(s.w, |s.rest|) > 0
    ensures RunFrom(s, [Wake, Check]).writer == Holding(Usable(s.w, |s.rest|), s.w)
  {
    RunFromAppend(s, [Wake], [Check]);
    assert [Wake] + [Check] == [Wake, Check];
    RunOne(s, Wake);
    RunOne(Step(s, Wake), Check);
  }

  /** The writer holds a chunk of n bytes, or the connection is ending. */
  predicate Served(t: State, n: int) { (t.writer.Holding? && t.writer.n == n) || t.reader.Stopped? || t.closed }

  ghost predicate CanServe(side: Side, events: seq<Event>, n: int) {
    exists more: seq<Event> :: OwnSteps(more) && Served(Run(side, events + more), n)
  }

  /** In every run: a writer that sleeps although the windows, once the SETTINGS frame at hand has been
      applied, have credit for it, comes to hold a chunk of exactly that size by the reader's and its own
      steps alone, or the connection is ending. */
  lemma {:induction false} SleeperServed(side: Side, events: seq<Event>)
    requires var s := Run(side, events); s.writer.Waiting? && Usable(AfterPending(s), |s.rest|) > 0
    ensures var s := Run(side, events); CanServe(side, events, Usable(AfterPending(s), |s.rest|))
  {
    var s := Run(side, events);
    var n := Usable(AfterPending(s), |s.rest|);
    NoLostWakeUpAlways(side, events);
    var more := [];
    if !s.reader.Stopped? && !s.closed {
      if AboutToPost(s) { more := Settles(s); }
      var t := RunFrom(s, more);
      if !t.reader.Stopped? {
        WakesAndTakes(t);
        RunFromAppend(s, more, [Wake, Check]);
        more := more + [Wake, Check];
      }
    }
    RunOn(side, events, more);
    assert Served(Run(side, events + more), n);
  }

  // ---------------------------------------------------------------- what the peer says takes effect

  /** Any SETTINGS frame that the framer passes and the client does not refuse is applied in full by the
      reader's own steps. */
  ghost predicate CanApply(side: Side, events: seq<Event>, settings: seq<Setting>) {
    exists more: seq<Event> ::
      OwnSteps(more) && Announced(side, events + [PeerSettings(settings)] + more) == Announced(side, events) + settings
  }

  lemma {:induction false} AnnouncedNext(side: Side, events: seq<Event>, e: Event, longer: seq<Event>)
    requires longer == events + [e]
    ensures Announced(side, longer) == Announced(side, events) + Applies(Run(side, events), e)
    ensures Run(side, longer) == Step(Run(side, events), e)
  {
    assert longer[..|events|] == events;
  }

  lemma {:induction false} OneApplied(side: Side, events: seq<Event>, left: seq<Setting>, longer: seq<Event>)
    requires Run(side, events).reader == InSettings(left) && Run(side, events).side == side && left != []
    requires !Refused(left[0], side.Client?) && longer == events + [NextSetting]
    ensures Announced(side, longer) == Announced(side, events) + [left[0]]
    ensures Run(side, longer).reader == InSettings(left[1..]) && Run(side, longer).side == side
  {
    AnnouncedNext(side, events, NextSetting, longer);
  }

  lemma {:induction false} AppliesRest(side: Side, events: seq<Event>, left: seq<Setting>) returns (all: seq<Event>)
    requires Run(side, events).reader == InSettings(left) && Run(side, events).side == side
    requires forall i :: 0 <= i < |left| ==> !Refused(left[i], side.Client?)
    ensures events <= all && OwnSteps(all[|events|..]) && Announced(side, all) == Announced(side, events) + left
    decreases |left|
  {
    if left == [] {
      all := events;
      assert Announced(side, events) + [] == Announced(side, events);
    } else {
      var next := events + [NextSetting];
      OneApplied(side, events, left, next);
      all := AppliesRest(side, next, left[1..]);
      Joined(Announced(side, events), left);
      OwnLonger(events, next, all);
    }
  }

  lemma {:induction false} Joined(a: seq<Setting>, left: seq<Setting>)
    requires left != []
    ensures a + [left[0]] + left[1..] == a + left
  {
  }

  lemma {:induction false} OwnLonger(events: seq<Event>, next: seq<Event>, all: seq<Event>)
    requires next == events + [NextSetting] && next <= all && OwnSteps(all[|next|..])
    ensures OwnSteps(all[|events|..])
  {
    assert forall i :: 0 <= i < |all| - |events| ==>
        all[|events|..][i] == if i == 0 then NextSetting else all[|next|..][i - 1];
  }

  lemma {:induction false} SettingsTaken(side: Side, events: seq<Event>, settings: seq<Setting>)
    requires Run(side, events).reader.Reading? && WireOk(settings)
    requires forall i :: 0 <= i < |settings| ==> !Refused(settings[i], side.Client?)
    ensures CanApply(side, events, settings)
  {
    var given := events + [PeerSettings(settings)];
    SideStays(side, events);
    AnnouncedNext(side, events, PeerSettings(settings), given);
    NoneApplied(Announced(side, events));
    var all := AppliesRest(side, given, settings);
    assert given + all[|given|..] == all;
  }

  lemma {:induction false} NoneApplied(a: seq<Setting>)
    ensures a + [] == a
  {
  }

  lemma {:induction false} SideStays(side: Side, events: seq<Event>)
    ensures Run(side, events).side == side
  {
    if events != [] {
      SideStays(side, events[..|events| - 1]);
      SideStep(Run(side, events[..|events| - 1]), events[|events| - 1]);
    }
  }

  lemma SideStep(s: State, e: Event)
    ensures Step(s, e).side == s.side
  {
    match e
    case PeerSettings(_) =>
    case NextSetting =>
    case Post =>
    case Ack(_) =>
    case PeerUpdate(_, _) =>
    case ReaderError =>
    case Close =>
    case Start =>
    case Write(_, _) =>
    case Check =>
    case Wake =>
    case GiveUp =>
    case Emit(_) =>
  }

  // ---------------------------------------------------------------- a write that completes

  /** The windows hold all that is left of the call. */
  predicate Roomy(s: State) {
    s.writer.Checking? && 0 < |s.rest| && |s.rest| <= s.w.conn && |s.rest| <= s.w.stream && s.w.maxFrame > 0
  }

  /** One chunk reserved and written: the call is finished, or there is room for the rest. */
  lemma {:induction false} ChunkServed(s: State)
    requires Roomy(s)
    ensures var t := RunFrom(s, [Check, Emit(true)]);
            && t.call.input == s.call.input && t.call.end == s.call.end
            && if t.writer.Resting? then t.finished == s.finished + [t.call]
               else Roomy(t) && t.finished == s.finished && |t.rest| < |s.rest|
  {
    TwoSteps(s, Check, Emit(true));
    ChunkWritten(s, Step(s, Check), Usable(s.w, |s.rest|));
  }

  lemma {:induction false} TwoSteps(s: State, a: Event, b: Event)
    ensures RunFrom(s, [a, b]) == Step(Step(s, a), b)
  {
    RunFromAppend(s, [a], [b]);
    assert [a] + [b] == [a, b];
    RunOne(s, a);
    RunOne(Step(s, a), b);
  }

  lemma {:induction false} ChunkWritten(s: State, t: State, n: nat)
    requires Roomy(s) && n == Usable(s.w, |s.rest|) && t == Checked(s)
    ensures var u := Step(t, Emit(true));
            && u.call.input == s.call.input && u.call.end == s.call.end
            && if u.writer.Resting? then u.finished == s.finished + [u.call]
               else Roomy(u) && u.finished == s.finished && |u.rest| < |s.rest|
  {
    assert |s.rest[n..]| == |s.rest| - n;
  }

  predicate WriterSteps(events: seq<Event>) {
    forall i :: 0 <= i < |events| ==> events[i].Check? || events[i] == Emit(true)
  }

  lemma {:induction false} CallServed(s: State) returns (more: seq<Event>)
    requires Roomy(s)
    ensures WriterSteps(more)
    ensures var t := RunFrom(s, more);
            && t.writer.Resting? && t.finished == s.finished + [t.call]
            && t.call.input == s.call.input && t.call.end == s.call.end
    decreases |s.rest|
  {
    more := [Check, Emit(true)];
    var t := RunFrom(s, more);
    ChunkServed(s);
    if !t.writer.Resting? {
      var rest := CallServed(t);
      RunFromAppend(s, more, rest);
      more := more + rest;
    }
  }

  ghost predicate WriteCompletes(side: Side, events: seq<Event>, p: seq<Byte>, end: bool) {
    exists more: seq<Event> :: WriterSteps(more) && Finishes(side, events, events + [Write(p, end)] + more, p, end)
  }

  predicate Finishes(side: Side, events: seq<Event>, all: seq<Event>, p: seq<Byte>, end: bool) {
    && |Run(side, all).finished| == |Run(side, events).finished| + 1
    && Run(side, all).finished[..|Run(side, events).finished|] == Run(side, events).finished
    && var c := Run(side, all).finished[|Run(side, events).finished|];
    c.input == p && c.end == end && Complete(p, end, c.frames)
  }

  /** From every reachable state in which the stream has started, the writer is idle and the windows hold
      the bytes, a writeData call runs through by the writer's own steps and is complete. */
  lemma {:induction false} WriteServed(side: Side, events: seq<Event>, p: seq<Byte>, end: bool)
    requires var s := Run(side, events); s.started && s.writer.Resting?
    requires var s := Run(side, events); |p| <= s.w.conn && |p| <= s.w.stream && s.w.maxFrame > 0
    ensures WriteCompletes(side, events, p, end)
  {
    var s := Run(side, events);
    var given := events + [Write(p, end)];
    Extend(side, events, Write(p, end));
    var t := Run(side, given);
    var more: seq<Event>;
    if p == [] {
      more := [Emit(true)];
      RunOne(t, Emit(true));
    } else {
      more := CallServed(t);
    }
    RunOn(side, given, more);
    var u := Run(side, given + more);
    FramesOkAlways(side, given + more);
    assert u.finished == s.finished + [u.call];
    assert Complete(u.finished[|s.finished|].input, u.finished[|s.finished|].end, u.finished[|s.finished|].frames);
    assert Finishes(side, events, given + more, p, end);
  }

  // ---------------------------------------------------------------- the upper bound

  /** The setting about to be applied keeps the stream window within 2^31-1. handleSettings does not
      test this. */
  predicate Guard(s: State, e: Event) {
    e.NextSetting? && s.reader.InSettings? && s.reader.left != [] && s.reader.left[0].InitialWindowSize? && s.w.live ==>
      s.w.stream + s.reader.left[0].value - s.w.initial <= MAX_WINDOW
  }

  function After(side: Side, events: seq<Event>, m: nat): (s: State)
    requires m <= |events|
  {
    Run(side, events[..m])
  }

  predicate StoppedBy(side: Side, events: seq<Event>, m: nat)
    requires m <= |events|
  {
    After(side, events, m).reader.Stopped?
  }

  /** Every setting was applied, up to the end of the reader, with its guard true. */
  predicate Guarded(side: Side, events: seq<Event>) {
    forall m :: 0 <= m < |events| ==> StoppedBy(side, events, m) || Guard(After(side, events, m), events[m])
  }

  /** Neither window ever passed 2^31-1 before the reader stopped. */
  predicate Bounded(side: Side, events: seq<Event>) {
    forall m :: 0 <= m <= |events| ==> StoppedBy(side, events, m) || !Overflow(After(side, events, m).w)
  }

  /** The initial window, now and in the SETTINGS frame at hand. */
  predicate InitialOk(s: State) {
    s.w.initial <= MAX_WINDOW && (s.reader.InSettings? ==> WireOk(s.reader.left))
  }

  lemma InitialOkStep(s: State, e: Event)
    requires InitialOk(s)
    ensures InitialOk(Step(s, e))
  {
    match e
    case NextSetting => if s.reader.InSettings? { InitialOkSetting(s); }
    case PeerSettings(_) =>
    case Post =>
    case Ack(_) =>
    case PeerUpdate(_, _) =>
    case _ =>
  }

  lemma InitialOkSetting(s: State)
    requires InitialOk(s) && s.reader.InSettings?
    ensures InitialOk(Step(s, NextSetting))
  {
    if s.reader.left != [] {
      var rest := s.reader.left[1..];
      assert forall i :: 0 <= i < |rest| ==> rest[i] == s.reader.left[i + 1];
    }
  }

  lemma {:induction false} InitialOkAlways(side: Side, events: seq<Event>)
    ensures InitialOk(Run(side, events))
  {
    if events != [] {
      InitialOkAlways(side, events[..|events| - 1]);
      InitialOkStep(Run(side, events[..|events| - 1]), events[|events| - 1]);
    }
  }

  /** Apart from settings, no step that the reader survives takes a window over the bound. */
  lemma BoundedStep(s: State, e: Event)
    requires InitialOk(s) && !s.reader.Stopped? && !Overflow(s.w) && !Step(s, e).reader.Stopped?
    ensures Guard(s, e) <==> !Overflow(Step(s, e).w)
  {
    match e
    case NextSetting =>
    case PeerUpdate(_, _) =>
    case Start =>
    case Check =>
    case Emit(_) =>
    case _ => WindowsStay(s, e);
  }

  lemma WindowsStay(s: State, e: Event)
    requires !e.NextSetting? && !e.PeerUpdate? && !e.Start? && !e.Check? && !e.Emit?
    ensures Step(s, e).w == s.w
  {
    match e
    case PeerSettings(_) =>
    case Post =>
    case Ack(_) =>
    case ReaderError =>
    case Close =>
    case Write(_, _) =>
    case Wake =>
    case GiveUp =>
  }

  /** Applying a window setting never stops the reader, and a stopped reader stays stopped. */
  lemma ReaderStep(s: State, e: Event)
    ensures s.reader.Stopped? ==> Step(s, e).reader.Stopped?
    ensures !s.reader.Stopped? && !Guard(s, e) ==> !Step(s, e).reader.Stopped?
  {
    match e
    case NextSetting =>
    case PeerSettings(_) =>
    case Post =>
    case Ack(_) =>
    case PeerUpdate(_, _) =>
    case _ =>
  }

  lemma {:induction false} AfterSame(side: Side, before: seq<Event>, e: Event, m: nat)
    requires m <= |before|
    ensures After(side, before + [e], m) == After(side, before, m)
  {
    assert (before + [e])[..m] == before[..m];
  }

  lemma {:induction false} AfterAll(side: Side, events: seq<Event>)
    ensures After(side, events, |events|) == Run(side, events)
  {
    assert events[..|events|] == events;
  }

  lemma {:induction false} BoundedLonger(side: Side, before: seq<Event>, e: Event)
    ensures var t := Run(side, before + [e]);
            Bounded(side, before + [e]) <==> Bounded(side, before) && (t.reader.Stopped? || !Overflow(t.w))
  {
    forall m: nat | m <= |before| ensures After(side, before + [e], m) == After(side, before, m) {
      AfterSame(side, before, e, m);
    }
    AfterAll(side, before + [e]);
  }

  lemma {:induction false} GuardedLonger(side: Side, before: seq<Event>, e: Event)
    ensures var s := Run(side, before);
            Guarded(side, before + [e]) <==> Guarded(side, before) && (s.reader.Stopped? || Guard(s, e))
  {
    forall m: nat | m <= |before| ensures After(side, before + [e], m) == After(side, before, m) {
      AfterSame(side, before, e, m);
    }
    AfterAll(side, before);
    assert forall m :: 0 <= m < |before| ==> (before + [e])[m] == before[m];
  }

  lemma {:induction false} NowBounded(side: Side, events: seq<Event>)
    requires Bounded(side, events)
    ensures Run(side, events).reader.Stopped? || !Overflow(Run(side, events).w)
  {
    AfterAll(side, events);
  }

  /** In every run, against every peer, both windows stay within 2^31-1 as long as the reader has not
      stopped, exactly when each INITIAL_WINDOW_SIZE had its guard true when it was applied. */
  lemma {:induction false} BoundedExactly(side: Side, events: seq<Event>)
    ensures Bounded(side, events) <==> Guarded(side, events)
  {
    if events == [] {
      assert events[..0] == [];
    } else {
      var before, e := events[..|events| - 1], events[|events| - 1];
      var s := Run(side, before);
      assert events == before + [e];
      BoundedExactly(side, before);
      BoundedLonger(side, before, e);
      GuardedLonger(side, before, e);
      InitialOkAlways(side, before);
      ReaderStep(s, e);
      if Bounded(side, before) && !s.reader.Stopped? {
        NowBounded(side, before);
        if !Step(s, e).reader.Stopped? { BoundedStep(s, e); }
      }
    }
  }

  /** A peer that fills the stream window and then raises the initial window by one takes it to 2^31: the
      reader goes on. */
  lemma SettingsMayOverflow()
    ensures var s := Run(Server, [Start, PeerUpdate(Stream, MAX_WINDOW - DEFAULT_WINDOW),
                                  PeerSettings([InitialWindowSize(DEFAULT_WINDOW + 1)]), NextSetting]);
            s.w.stream == MAX_WINDOW + 1 && !s.reader.Stopped?
  {
    var e1, e2 := PeerUpdate(Stream, MAX_WINDOW - DEFAULT_WINDOW),
        PeerSettings([InitialWindowSize(DEFAULT_WINDOW + 1)]);
    var s0 := Init(Server);
    var s1 := Step(s0, Start);
    var s2 := Step(s1, e1);
    var s3 := Step(s2, e2);
    NextIs(Server, [], Start, [Start], s0);
    NextIs(Server, [Start], e1, [Start, e1], s1);
    NextIs(Server, [Start, e1], e2, [Start, e1, e2], s2);
    NextIs(Server, [Start, e1, e2], NextSetting, [Start, e1, e2, NextSetting], s3);
    WindowFilled(s2, e1);
  }

  lemma WindowFilled(s: State, e1: Event)
    requires e1 == PeerUpdate(Stream, MAX_WINDOW - DEFAULT_WINDOW) && s == Step(Step(Init(Server), Start), e1)
    ensures s.reader.Reading? && s.w.live && s.w.stream == MAX_WINDOW && s.w.initial == DEFAULT_WINDOW
  {
  }

  // ---------------------------------------------------------------- the lower bound

  /** A SETTINGS reduction can leave the stream window negative: the bound that holds for the
      connection window does not hold for it. */
  lemma StreamWindowMayBeNegative()
    ensures Run(Server, [Start, Write([7], false), Check, PeerSettings([InitialWindowSize(0)]),
        NextSetting]).w.stream == -1
  {
    var e0, e1, e2: Event, e3, e4: Event := Start, Write([7], false), Check, PeerSettings([InitialWindowSize(0)]),
        NextSetting;
    var s0 := Init(Server);
    var s1 := Step(s0, e0);
    var s2 := Step(s1, e1);
    var s3 := Step(s2, e2);
    OneByteTaken(s3);
    var s4 := Step(s3, e3);
    NextIs(Server, [], e0, [e0], s0);
    NextIs(Server, [e0], e1, [e0, e1], s1);
    NextIs(Server, [e0, e1], e2, [e0, e1, e2], s2);
    NextIs(Server, [e0, e1, e2], e3, [e0, e1, e2, e3], s3);
    NextIs(Server, [e0, e1, e2, e3], e4, [e0, e1, e2, e3, e4], s4);
  }

  /** One byte has been reserved before the SETTINGS frame. */
  lemma {:induction false} OneByteTaken(s: State)
    requires s == Step(Step(Step(Init(Server), Start), Write([7], false)), Check)
    ensures s.reader.Reading? && s.side.Server? && s.w.live && s.w.stream == s.w.initial - 1
  {
  }

  lemma {:induction false} Extend(side: Side, events: seq<Event>, e: Event)
    ensures Run(side, events + [e]) == Step(Run(side, events), e)
  {
    assert (events + [e])[..|events|] == events;
  }

  lemma {:induction false} NextIs(side: Side, events: seq<Event>, e: Event, longer: seq<Event>, s: State)
    requires longer == events + [e] && s == Run(side, events)
    ensures Run(side, longer) == Step(s, e)
  {
    assert longer[..|events|] == events;
  }
}
