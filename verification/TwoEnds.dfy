/** A client and a server connection of this program joined by two FIFO channels of frames. The writer
    of each end sleeps on flowCh and may give up; the reader wakes it. Flow control credit is conserved. */
module TwoEnds {
  import opened Bytes
  import opened FlowControl
  import opened CallLog

  const WINDOW := 0x10_0000
  const GREETING_CREDIT := WINDOW - DEFAULT_WINDOW

  datatype Frame =
    | Settings(initial: nat)
    | SettingsAck
    | Headers
    | Data(payload: seq<Byte>, end: bool)
    | Update(target: Target, increment: nat)

  type Channel = seq<Frame>

  /** How far an endpoint has come: SETTINGS and the connection WINDOW_UPDATE are two frame writes,
      the reader runs after both, DATA follows HEADERS. */
  datatype Phase = Greet0 | Greet1 | Ready | Live

  predicate Running(p: Phase) { p.Ready? || p.Live? }

  /** The frame reader: the client's returns after END_STREAM, once it has returned the credit. */
  datatype Life = Up | Finishing | Down

  /** What handleSettings has still to do: the server posts a token and then acknowledges, the client
      acknowledges and then posts. */
  datatype Chore = NoChore | PostAndAck | AckOnly | PostOnly

  // ---------------------------------------------------------------- the writer

  /** `hand` is a reserved chunk not yet written, `rest` what is left of the current writeData call;
      `waiting` says that the writer sleeps on flowCh; `quit` that it gave up and its carrier was
      retired, so that it sends no more bytes. `calls` logs the calls, `emitted` all bytes put into
      DATA frames. */
  datatype Writer = Writer(
    hand: seq<Byte>,
    rest: seq<Byte>,
    waiting: bool,
    end: bool,
    ended: bool,
    quit: bool,
    calls: seq<Call>,
    emitted: seq<Byte>)

  const NO_WRITER := Writer([], [], false, false, false, false, [], [])

  predicate Busy(x: Writer) { x.hand != [] || x.rest != [] }

  function StartCall(x: Writer, p: seq<Byte>, end: bool): (y: Writer) {
    x.(rest := p, end := end, calls := x.calls + [Call(p, [])])
  }

  function TakeChunk(x: Writer, n: nat): (y: Writer)
    requires n <= |x.rest|
  {
    x.(hand := x.rest[..n], rest := x.rest[n..])
  }

  /** The current call has put more bytes into frames. */
  function Extended(calls: seq<Call>, more: seq<Byte>): (r: seq<Call>)
    ensures |r| == |calls|
  {
    if calls == [] then [] else
    var n := |calls| - 1;
    calls[n := calls[n].(sent := calls[n].sent + more)]
  }

  predicate Last(x: Writer) { x.end && x.rest == [] }

  function PutChunk(x: Writer): (y: Writer) {
    x.(hand := [], ended := x.ended || Last(x), calls := Extended(x.calls, x.hand), emitted := x.emitted + x.hand)
  }

  /** reserveWriteWindow gives up: the rest of the call is dropped. On the client the failed write
      retires the carrier; the server may write again. */
  function Dropped(x: Writer, client: bool): (y: Writer) {
    x.(waiting := false, rest := [], quit := x.quit || client)
  }

  // ---------------------------------------------------------------- an endpoint

  /** `oweConn` and `oweStream` are credit the reader has taken from a DATA frame and not yet
      returned (two frame writes); `token` says that flowCh holds a token; `delivered` are all bytes
      put into the receive pipe. */
  datatype Endpoint = Endpoint(
    w: Windows,
    phase: Phase,
    settled: bool,
    streamOpen: bool,
    life: Life,
    overflowed: bool,
    oweConn: nat,
    oweStream: nat,
    chore: Chore,
    token: bool,
    wr: Writer,
    delivered: seq<Byte>)

  datatype Local =
    | Greet
    | OpenStream
    | SendHeaders
    | Write(p: seq<Byte>, end: bool)
    | Check
    | Wake
    | GiveUp
    | Emit
    | Receive(pipeOk: bool)
    | PayConn
    | PayStream
    | PayAck
    | Post
    | Die

  datatype Effect = Effect(me: Endpoint, pop: bool, out: Channel)

  function Nothing(me: Endpoint): Effect { Effect(me, false, []) }

  function Act(me: Endpoint, client: bool, inbox: Channel, e: Local): (r: Effect)
    ensures r.pop ==> inbox != [] && e.Receive? && r.out == []
    ensures |r.out| <= 1
    ensures !e.Receive? ==> r.me.delivered == me.delivered && (!r.me.life.Down? ==> !me.life.Down?)
    ensures OfWriter(e) || r.me.wr == me.wr
    ensures r.me.w.maxFrame == me.w.maxFrame && (me.streamOpen ==> r.me.streamOpen)
    ensures me.phase.Live? ==> r.me.phase.Live?
  {
    if OfWriter(e) then Writing(me, client, e)
    else if OfOpening(e) then Beginning(me, client, e)
    else if !e.Receive? then Paying(me, client, e)
    else if me.life.Up? && Running(me.phase) && me.oweConn == 0 && me.oweStream == 0 && me.chore.NoChore? && inbox != []
    then Effect(Receiving(me, client, inbox[0], e.pipeOk), true, []) else Nothing(me)
  }

  predicate OfOpening(e: Local) { e.Greet? || e.OpenStream? || e.SendHeaders? }

  predicate OfWriter(e: Local) { e.Write? || e.Check? || e.Wake? || e.GiveUp? || e.Emit? }

  /** The greeting, and the opening of the stream. */
  function Beginning(me: Endpoint, client: bool, e: Local): (r: Effect)
    requires OfOpening(e)
    ensures !r.pop && |r.out| <= 1 && r.me.wr == me.wr && r.me.delivered == me.delivered && r.me.life == me.life
    ensures r.me.w.maxFrame == me.w.maxFrame && (me.streamOpen ==> r.me.streamOpen)
    ensures me.phase.Live? ==> r.me.phase.Live?
  {
    match e
    case Greet =>
      if me.phase.Greet0? then Effect(me.(phase := Greet1), false, [Settings(WINDOW)])
      else if me.phase.Greet1? then Effect(me.(phase := Ready), false, [Update(Connection, GREETING_CREDIT)])
      else Nothing(me)
    case OpenStream =>
      if client && me.phase.Ready? && me.settled && !me.streamOpen
      then Effect(me.(w := StartStream(me.w), streamOpen := true), false, []) else Nothing(me)
    case SendHeaders =>
      if me.phase.Ready? && me.streamOpen then Effect(me.(phase := Live), false, [Headers]) else Nothing(me)
  }

  /** writeData and reserveWriteWindow. */
  function Writing(me: Endpoint, client: bool, e: Local): (r: Effect)
    requires OfWriter(e)
    ensures !r.pop && |r.out| <= 1 && r.me.delivered == me.delivered && r.me.life == me.life && r.me.phase == me.phase
    ensures r.me.w.maxFrame == me.w.maxFrame && r.me.streamOpen == me.streamOpen
  {
    match e
    case Write(p, end) =>
      if !me.phase.Live? || me.wr.ended || Busy(me.wr) then Nothing(me)
      else if p == [] then Effect(me.(wr := me.wr.(ended := end)), false, [Data([], end)])
      else if me.wr.quit then Nothing(me)
      else Effect(me.(wr := StartCall(me.wr, p, end)), false, [])
    case Check =>
      if me.wr.hand != [] || me.wr.rest == [] || me.wr.waiting then Nothing(me) else
      var n := Usable(me.w, |me.wr.rest|);
      if n > 0 then Effect(me.(w := Reserve(me.w, n), wr := TakeChunk(me.wr, n)), false, [])
      else Effect(me.(wr := me.wr.(waiting := true)), false, [])
    case Wake =>
      if me.wr.waiting && me.token then Effect(me.(token := false, wr := me.wr.(waiting := false)), false, [])
          else Nothing(me)
    case GiveUp => if me.wr.waiting then Effect(me.(wr := Dropped(me.wr, client)), false, []) else Nothing(me)
    case Emit =>
      if me.wr.hand == [] then Nothing(me)
      else Effect(me.(wr := PutChunk(me.wr)), false, [Data(me.wr.hand, Last(me.wr))])
  }

  /** What the reader does between two frames. */
  function Paying(me: Endpoint, client: bool, e: Local): (r: Effect)
    requires !OfOpening(e) && !OfWriter(e) && !e.Receive?
    ensures !r.pop && |r.out| <= 1 && r.me.wr == me.wr && r.me.delivered == me.delivered
    ensures !r.me.life.Down? ==> !me.life.Down?
    ensures r.me.w == me.w && r.me.streamOpen == me.streamOpen && r.me.phase == me.phase
  {
    match e
    case PayConn =>
      if !me.life.Down? && me.oweConn > 0 then Effect(me.(oweConn := 0), false, [Update(Connection, me.oweConn)])
          else Nothing(me)
    case PayStream =>
      if !me.life.Down? && me.oweConn == 0 && me.oweStream > 0
      then Effect(me.(oweStream := 0, life := if me.life.Up? then Up else Down), false,
          [Update(Stream, me.oweStream)]) else Nothing(me)
    case PayAck =>
      if me.life.Up? && (me.chore.AckOnly? || (client && me.chore.PostAndAck?))
      then Effect(me.(chore := if me.chore.AckOnly? then NoChore else PostOnly), false, [SettingsAck]) else Nothing(me)
    case Post =>
      if me.life.Up? && (me.chore.PostOnly? || (!client && me.chore.PostAndAck?))
      then Effect(me.(token := true, chore := if me.chore.PostOnly? then NoChore else AckOnly), false, [])
          else Nothing(me)
    case Die => Effect(me.(life := Down, token := true), false, [])
  }

  /** One frame in readLoop. DATA that meets no stream is skipped without returning credit. */
  function Receiving(me: Endpoint, client: bool, f: Frame, pipeOk: bool): (r: Endpoint)
    ensures r.wr == me.wr && r.phase == me.phase && r.w.maxFrame == me.w.maxFrame && (me.streamOpen ==> r.streamOpen)
    ensures !f.Data? ==> r.delivered == me.delivered
  {
    match f
    case Settings(v) => me.(w := OnSetting(me.w, InitialWindowSize(v)), settled := true, chore := PostAndAck)
    case SettingsAck => me
    case Headers => if client || me.streamOpen then me else me.(w := StartStream(me.w), streamOpen := true)
    case Update(t, n) =>
      var w := OnUpdate(me.w, t, n);
      if Overflow(w) then me.(w := w, overflowed := true, life := Down) else me.(w := w, token := true)
    case Data(p, end) =>
      if !client && !me.streamOpen then me
      else if p != [] && !pipeOk then me.(life := Down, oweConn := |p|, oweStream := |p|)
      else me.(delivered := me.delivered + p, oweConn := |p|, oweStream := |p|,
               life := if !client || !end then me.life else if p == [] then Down else Finishing)
  }

  datatype System = System(client: Endpoint, server: Endpoint, c2s: Channel, s2c: Channel)

  datatype Event = AtClient(e: Local) | AtServer(e: Local)

  function Fresh(w: Windows): Endpoint {
    Endpoint(w, Greet0, false, false, Up, false, 0, 0, NoChore, false, NO_WRITER, [])
  }

  const INIT := System(Fresh(CLIENT_START), Fresh(SERVER_START), [], [])

  function Rest(ch: Channel, pop: bool): Channel
    requires pop ==> ch != []
  {
    if pop then ch[1..] else ch
  }

  function Step(s: System, e: Event): (t: System) {
    match e
    case AtClient(l) =>
      var r := Act(s.client, true, s.s2c, l);
      System(r.me, s.server, s.c2s + r.out, Rest(s.s2c, r.pop))
    case AtServer(l) =>
      var r := Act(s.server, false, s.c2s, l);
      System(s.client, r.me, Rest(s.c2s, r.pop), s.s2c + r.out)
  }

  function Run(events: seq<Event>): (s: System) {
    if events == [] then INIT else Step(Run(events[..|events| - 1]), events[|events| - 1])
  }

  // ---------------------------------------------------------------- what is in a channel

  /** Sums over a channel: DATA bytes and frames, credit for connection and stream, SETTINGS and
      HEADERS frames. */
  datatype Tally = Tally(bytes: int, datas: int, conn: int, stream: int, settings: int, headers: int)

  const ZERO := Tally(0, 0, 0, 0, 0, 0)

  function Count(f: Frame): (t: Tally)
    ensures Sound(t)
  {
    match f
    case Settings(_) => ZERO.(settings := 1)
    case SettingsAck => ZERO
    case Headers => ZERO.(headers := 1)
    case Data(p, _) => ZERO.(bytes := |p|, datas := 1)
    case Update(Connection, n) => ZERO.(conn := n)
    case Update(Stream, n) => ZERO.(stream := n)
    case Update(Elsewhere, n) => ZERO
  }

  function Plus(a: Tally, b: Tally): (t: Tally) {
    Tally(a.bytes + b.bytes, a.datas + b.datas, a.conn + b.conn, a.stream + b.stream, a.settings + b.settings,
        a.headers + b.headers)
  }

  /** No sum is negative, and without DATA frames there are no DATA bytes. */
  predicate Sound(t: Tally) {
    && 0 <= t.bytes && 0 <= t.datas && 0 <= t.conn && 0 <= t.stream && 0 <= t.settings && 0 <= t.headers
    && (t.datas == 0 ==> t.bytes == 0)
  }

  function Sum(ch: Channel): (t: Tally)
    ensures Sound(t)
  {
    if ch == [] then ZERO else Plus(Count(ch[0]), Sum(ch[1..]))
  }

  function PayloadOf(f: Frame): (s: seq<Byte>) { if f.Data? then f.payload else [] }

  function Payload(ch: Channel): (s: seq<Byte>) {
    if ch == [] then [] else PayloadOf(ch[0]) + Payload(ch[1..])
  }

  lemma {:induction false} SumAppend(ch: Channel, f: Frame)
    ensures Sum(ch + [f]) == Plus(Sum(ch), Count(f))
  {
    if ch == [] {
      assert ch + [f] == [f];
    } else {
      assert (ch + [f])[1..] == ch[1..] + [f];
      SumAppend(ch[1..], f);
    }
  }

  lemma {:induction false} PayloadAppend(ch: Channel, f: Frame)
    ensures Payload(ch + [f]) == Payload(ch) + PayloadOf(f)
  {
    if ch == [] {
      assert ch + [f] == [f];
    } else {
      assert (ch + [f])[1..] == ch[1..] + [f];
      PayloadAppend(ch[1..], f);
    }
  }

  /** A zero sum means that there is no such frame. */
  lemma {:induction false} Absent(ch: Channel)
    ensures Sum(ch).headers == 0 ==> forall f :: f in ch ==> !f.Headers?
    ensures Sum(ch).datas == 0 ==> forall f :: f in ch ==> !f.Data?
  {
    if ch != [] {
      Absent(ch[1..]);
      assert ch == [ch[0]] + ch[1..];
    }
  }

  lemma {:induction false} AbsentIf(ch: Channel)
    ensures (forall f :: f in ch ==> !f.Headers?) ==> Sum(ch).headers == 0
    ensures (forall f :: f in ch ==> !f.Settings?) ==> Sum(ch).settings == 0
  {
    if ch != [] {
      AbsentIf(ch[1..]);
      assert ch[0] in ch && forall f :: f in ch[1..] ==> f in ch;
    }
  }

  /** SETTINGS before HEADERS before DATA. */
  predicate InOrder(f: Frame, g: Frame) {
    !(f.Headers? && g.Settings?) && !(f.Data? && (g.Settings? || g.Headers?))
  }

  predicate Ordered(ch: Channel) {
    forall i, j :: 0 <= i < j < |ch| ==> InOrder(ch[i], ch[j])
  }

  predicate Honest(f: Frame) { f.Settings? ==> f.initial == WINDOW }

  predicate AllHonest(ch: Channel) { forall i :: 0 <= i < |ch| ==> Honest(ch[i]) }

  // ---------------------------------------------------------------- the invariant

  /** Connection credit of one direction: in the sender's window, reserved, in flight as DATA, held
      by the receiver, still to be granted in its greeting, or in flight back. */
  function ConnCredit(snd: Endpoint, rcv: Endpoint, fwd: Tally, back: Tally): int {
    snd.w.conn + |snd.wr.hand| + fwd.bytes + rcv.oweConn + (if Running(rcv.phase) then 0 else GREETING_CREDIT) +
        back.conn
  }

  function StreamCredit(snd: Endpoint, rcv: Endpoint, fwd: Tally, back: Tally): int {
    snd.w.stream + |snd.wr.hand| + fwd.bytes + rcv.oweStream + back.stream
  }

  predicate Conserved(snd: Endpoint, rcv: Endpoint, fwd: Tally, back: Tally) {
    && ConnCredit(snd, rcv, fwd, back) == WINDOW
    && (snd.streamOpen ==> StreamCredit(snd, rcv, fwd, back) == WINDOW)
    && snd.w.conn >= 0
    && (snd.streamOpen ==> snd.w.stream >= 0)
    && !snd.overflowed
  }

  /** The sender before its stream is open. */
  predicate Opening(snd: Endpoint, sndIsClient: bool, rcv: Endpoint, fwd: Tally, back: Tally) {
    && snd.w.live == (sndIsClient || snd.streamOpen)
    && (snd.streamOpen ==> snd.settled)
    && (!snd.streamOpen ==>
      && !Busy(snd.wr) && fwd.datas == 0
      && rcv.oweConn == 0 && rcv.oweStream == 0 && back.stream == 0
      && snd.w.stream == (if sndIsClient && snd.settled then WINDOW else DEFAULT_WINDOW))
  }

  predicate Settling(snd: Endpoint, rcv: Endpoint, back: Tally) {
    && snd.w.initial == (if snd.settled then WINDOW else DEFAULT_WINDOW)
    && back.settings == (if snd.settled || rcv.phase.Greet0? then 0 else 1)
    && (snd.settled ==> !rcv.phase.Greet0?)
  }

  predicate Ordering(snd: Endpoint, sndIsClient: bool, rcv: Endpoint, fwd: Tally) {
    && (snd.phase.Live? ==> snd.streamOpen)
    && (!snd.phase.Live? ==> fwd.headers == 0 && fwd.datas == 0 && !Busy(snd.wr))
    && (sndIsClient ==> fwd.headers + (if rcv.streamOpen then 1 else 0) == if snd.phase.Live? then 1 else 0)
  }

  predicate Direction(snd: Endpoint, sndIsClient: bool, rcv: Endpoint, fwd: Tally, back: Tally) {
    && Conserved(snd, rcv, fwd, back)
    && Opening(snd, sndIsClient, rcv, fwd, back)
    && Settling(snd, rcv, back)
    && Ordering(snd, sndIsClient, rcv, fwd)
  }

  /** Both directions as seen from one end, given the sums of its outgoing and incoming channel. */
  predicate Pair(me: Endpoint, client: bool, peer: Endpoint, out: Tally, inbox: Tally) {
    && Direction(me, client, peer, out, inbox)
    && Direction(peer, !client, me, inbox, out)
  }

  predicate Inv(s: System) {
    && Pair(s.client, true, s.server, Sum(s.c2s), Sum(s.s2c))
    && Ordered(s.c2s) && Ordered(s.s2c) && AllHonest(s.c2s) && AllHonest(s.s2c)
  }

  // ---------------------------------------------------------------- local steps on the sums

  /** What a frame written by `e` adds to the outgoing sums. */
  function Added(r: Effect): Tally { if r.out == [] then ZERO else Count(r.out[0]) }

  lemma GreetFirst(me: Endpoint, client: bool, peer: Endpoint, out: Tally, inbox: Tally)
    requires Pair(me, client, peer, out, inbox) && Sound(out) && Sound(inbox)
    requires me.phase.Greet0?
    ensures Pair(me.(phase := Greet1), client, peer, Plus(out, Count(Settings(WINDOW))), inbox)
  {
  }

  lemma GreetSecond(me: Endpoint, client: bool, peer: Endpoint, out: Tally, inbox: Tally)
    requires Pair(me, client, peer, out, inbox) && Sound(out) && Sound(inbox)
    requires me.phase.Greet1?
    ensures Pair(me.(phase := Ready), client, peer, Plus(out, Count(Update(Connection, GREETING_CREDIT))), inbox)
  {
  }

  lemma OpenKeeps(me: Endpoint, client: bool, peer: Endpoint, out: Tally, inbox: Tally)
    requires Pair(me, client, peer, out, inbox) && Sound(out) && Sound(inbox)
    ensures var r := Beginning(me, client, OpenStream); Pair(r.me, client, peer, Plus(out, Added(r)), inbox)
  {
    assert Plus(out, ZERO) == out;
  }

  lemma HeadersKeep(me: Endpoint, client: bool, peer: Endpoint, out: Tally, inbox: Tally)
    requires Pair(me, client, peer, out, inbox) && Sound(out) && Sound(inbox)
    ensures var r := Beginning(me, client, SendHeaders); Pair(r.me, client, peer, Plus(out, Added(r)), inbox)
  {
    assert Plus(out, ZERO) == out;
  }

  /** What credit and order do not see. */
  predicate SameFlow(me: Endpoint, you: Endpoint) {
    && you.w == me.w && you.phase == me.phase && you.settled == me.settled && you.streamOpen == me.streamOpen
    && you.overflowed == me.overflowed && you.oweConn == me.oweConn && you.oweStream == me.oweStream
    && |you.wr.hand| == |me.wr.hand| && (Busy(you.wr) ==> Busy(me.wr) || me.phase.Live?)
  }

  lemma Unseen(me: Endpoint, you: Endpoint, client: bool, peer: Endpoint, out: Tally, inbox: Tally)
    requires Pair(me, client, peer, out, inbox) && SameFlow(me, you)
    ensures Pair(you, client, peer, out, inbox)
  {
  }

  lemma WriteKeeps(me: Endpoint, client: bool, peer: Endpoint, out: Tally, inbox: Tally, p: seq<Byte>, end: bool)
    requires Pair(me, client, peer, out, inbox) && Sound(out) && Sound(inbox)
    ensures var r := Writing(me, client, Write(p, end)); Pair(r.me, client, peer, Plus(out, Added(r)), inbox)
  {
    var r := Writing(me, client, Write(p, end));
    assert Plus(out, ZERO) == out;
    Unseen(me, r.me, client, peer, out, inbox);
    if r.out != [] { EmptyFrame(r.me, client, peer, out, inbox, end); }
  }

  lemma EmptyFrame(me: Endpoint, client: bool, peer: Endpoint, out: Tally, inbox: Tally, end: bool)
    requires Pair(me, client, peer, out, inbox) && me.phase.Live?
    ensures Pair(me, client, peer, Plus(out, Count(Data([], end))), inbox)
  {
  }

  lemma CheckKeeps(me: Endpoint, client: bool, peer: Endpoint, out: Tally, inbox: Tally)
    requires Pair(me, client, peer, out, inbox) && Sound(out) && Sound(inbox)
    ensures var r := Writing(me, client, Check); Pair(r.me, client, peer, Plus(out, Added(r)), inbox)
  {
    assert Plus(out, ZERO) == out;
    var r, n := Writing(me, client, Check), Usable(me.w, |me.wr.rest|);
    if me.wr.hand == [] && me.wr.rest != [] && !me.wr.waiting && n > 0 {
      ReserveKeeps(me, client, peer, out, inbox, n);
    } else {
      Unseen(me, r.me, client, peer, out, inbox);
    }
  }

  lemma ReserveKeeps(me: Endpoint, client: bool, peer: Endpoint, out: Tally, inbox: Tally, n: nat)
    requires Pair(me, client, peer, out, inbox) && Sound(out) && Sound(inbox)
    requires me.wr.hand == [] && 0 < n <= |me.wr.rest| && n <= me.w.conn && n <= me.w.stream
    ensures Pair(me.(w := Reserve(me.w, n), wr := TakeChunk(me.wr, n)), client, peer, out, inbox)
  {
    assert |TakeChunk(me.wr, n).hand| == n;
  }

  lemma EmitKeeps(me: Endpoint, client: bool, peer: Endpoint, out: Tally, inbox: Tally)
    requires Pair(me, client, peer, out, inbox) && Sound(out) && Sound(inbox)
    ensures var r := Writing(me, client, Emit); Pair(r.me, client, peer, Plus(out, Added(r)), inbox)
  {
    assert Plus(out, ZERO) == out;
  }

  lemma PayConnKeeps(me: Endpoint, client: bool, peer: Endpoint, out: Tally, inbox: Tally)
    requires Pair(me, client, peer, out, inbox)
    ensures Pair(me.(oweConn := 0), client, peer, Plus(out, Count(Update(Connection, me.oweConn))), inbox)
  {
  }

  lemma PayStreamKeeps(me: Endpoint, client: bool, peer: Endpoint, out: Tally, inbox: Tally)
    requires Pair(me, client, peer, out, inbox)
    ensures Pair(me.(oweStream := 0), client, peer, Plus(out, Count(Update(Stream, me.oweStream))), inbox)
  {
  }

  lemma PayKeeps(me: Endpoint, client: bool, peer: Endpoint, out: Tally, inbox: Tally, e: Local)
    requires Pair(me, client, peer, out, inbox) && Sound(out) && Sound(inbox)
    requires !OfOpening(e) && !OfWriter(e) && !e.Receive?
    ensures var r := Paying(me, client, e); Pair(r.me, client, peer, Plus(out, Added(r)), inbox)
  {
    assert Plus(out, ZERO) == out;
    var r := Paying(me, client, e);
    if r.out == [] || e.PayAck? {
      Unseen(me, r.me, client, peer, out, inbox);
    } else if e.PayConn? {
      PayConnKeeps(me, client, peer, out, inbox);
    } else {
      PayStreamKeeps(me, client, peer, out, inbox);
      Unseen(me.(oweStream := 0), r.me, client, peer, Plus(out, Count(Update(Stream, me.oweStream))), inbox);
    }
  }

  /** One frame taken from the front of the incoming channel. `tail` sums what follows it; the
      order of frames says what cannot follow. */
  lemma ReceiveSettings(me: Endpoint, client: bool, peer: Endpoint, out: Tally, f: Frame, tail: Tally, pipeOk: bool)
    requires Pair(me, client, peer, out, Plus(Count(f), tail)) && Sound(out) && Sound(tail) && Running(me.phase)
    requires f.Settings? && Honest(f)
    ensures Pair(Receiving(me, client, f, pipeOk), client, peer, out, tail)
  {
  }

  lemma ReceiveHeaders(me: Endpoint, client: bool, peer: Endpoint, out: Tally, f: Frame, tail: Tally, pipeOk: bool)
    requires Pair(me, client, peer, out, Plus(Count(f), tail)) && Sound(out) && Sound(tail) && Running(me.phase)
    requires f.Headers? && tail.settings == 0
    ensures Pair(Receiving(me, client, f, pipeOk), client, peer, out, tail)
  {
  }

  lemma ReceiveUpdate(me: Endpoint, client: bool, peer: Endpoint, out: Tally, f: Frame, tail: Tally, pipeOk: bool)
    requires Pair(me, client, peer, out, Plus(Count(f), tail)) && Sound(out) && Sound(tail) && Running(me.phase)
    requires f.Update? || f.SettingsAck?
    ensures Pair(Receiving(me, client, f, pipeOk), client, peer, out, tail)
  {
    if f.Update? {
      var w := OnUpdate(me.w, f.target, f.increment);
      assert w.conn <= WINDOW && w.stream <= WINDOW;
      assert !Overflow(w);
    }
  }

  lemma ReceiveData(me: Endpoint, client: bool, peer: Endpoint, out: Tally, f: Frame, tail: Tally, pipeOk: bool)
    requires Pair(me, client, peer, out, Plus(Count(f), tail)) && Sound(out) && Sound(tail) && Running(me.phase)
    requires f.Data? && tail.headers == 0 && me.oweConn == 0 && me.oweStream == 0
    ensures Pair(Receiving(me, client, f, pipeOk), client, peer, out, tail)
  {
  }

  // ---------------------------------------------------------------- whole steps

  predicate Good(me: Endpoint, client: bool, peer: Endpoint, out: Channel, inbox: Channel) {
    && Pair(me, client, peer, Sum(out), Sum(inbox))
    && Ordered(out) && Ordered(inbox) && AllHonest(out) && AllHonest(inbox)
  }

  lemma SumOut(out: Channel, r: Effect)
    requires |r.out| <= 1
    ensures Sum(out + r.out) == Plus(Sum(out), Added(r))
  {
    if r.out == [] {
      assert out + r.out == out;
    } else {
      SumAppend(out, r.out[0]);
      assert r.out == [r.out[0]];
    }
  }

  lemma SpeakKeeps(me: Endpoint, client: bool, peer: Endpoint, out: Tally, inbox: Tally, ch: Channel, e: Local)
    requires Pair(me, client, peer, out, inbox) && Sound(out) && Sound(inbox) && !e.Receive?
    ensures var r := Act(me, client, ch, e); Pair(r.me, client, peer, Plus(out, Added(r)), inbox)
  {
    if OfWriter(e) {
      WritingKeeps(me, client, peer, out, inbox, e);
    } else if OfOpening(e) {
      BeginningKeeps(me, client, peer, out, inbox, e);
    } else {
      PayKeeps(me, client, peer, out, inbox, e);
    }
  }

  lemma BeginningKeeps(me: Endpoint, client: bool, peer: Endpoint, out: Tally, inbox: Tally, e: Local)
    requires Pair(me, client, peer, out, inbox) && Sound(out) && Sound(inbox) && OfOpening(e)
    ensures var r := Beginning(me, client, e); Pair(r.me, client, peer, Plus(out, Added(r)), inbox)
  {
    match e
    case Greet => GreetKeeps(me, client, peer, out, inbox);
    case OpenStream => OpenKeeps(me, client, peer, out, inbox);
    case SendHeaders => HeadersKeep(me, client, peer, out, inbox);
  }

  lemma WritingKeeps(me: Endpoint, client: bool, peer: Endpoint, out: Tally, inbox: Tally, e: Local)
    requires Pair(me, client, peer, out, inbox) && Sound(out) && Sound(inbox) && OfWriter(e)
    ensures var r := Writing(me, client, e); Pair(r.me, client, peer, Plus(out, Added(r)), inbox)
  {
    match e
    case Write(p, end) => WriteKeeps(me, client, peer, out, inbox, p, end);
    case Check => CheckKeeps(me, client, peer, out, inbox);
    case Wake => SleepKeeps(me, client, peer, out, inbox, e);
    case GiveUp => SleepKeeps(me, client, peer, out, inbox, e);
    case Emit => EmitKeeps(me, client, peer, out, inbox);
  }

  lemma SleepKeeps(me: Endpoint, client: bool, peer: Endpoint, out: Tally, inbox: Tally, e: Local)
    requires Pair(me, client, peer, out, inbox) && (e.Wake? || e.GiveUp?)
    ensures var r := Writing(me, client, e); Pair(r.me, client, peer, Plus(out, Added(r)), inbox)
  {
    assert Plus(out, ZERO) == out;
    Unseen(me, Writing(me, client, e).me, client, peer, out, inbox);
  }

  lemma GreetKeeps(me: Endpoint, client: bool, peer: Endpoint, out: Tally, inbox: Tally)
    requires Pair(me, client, peer, out, inbox) && Sound(out) && Sound(inbox)
    ensures var r := Beginning(me, client, Greet); Pair(r.me, client, peer, Plus(out, Added(r)), inbox)
  {
    match me.phase
    case Greet0 => GreetFirst(me, client, peer, out, inbox);
    case Greet1 => GreetSecond(me, client, peer, out, inbox);
    case _ => assert Plus(out, ZERO) == out;
  }

  /** What a step writes comes in order after what is already in the channel. */
  lemma WrittenInOrder(me: Endpoint, client: bool, peer: Endpoint, out: Channel, inbox: Channel, e: Local)
    requires Direction(me, client, peer, Sum(out), Sum(inbox)) && Ordered(out) && AllHonest(out)
    ensures var r := Act(me, client, inbox, e); Ordered(out + r.out) && AllHonest(out + r.out)
  {
    var r := Act(me, client, inbox, e);
    if r.out == [] {
      assert out + r.out == out;
    } else {
      if OfOpening(e) {
        Absent(out);
        OpeningInOrder(me, client, e, out);
      } else {
        LaterInOrder(me, client, inbox, e, out);
      }
      AppendOrdered(out, r.out[0]);
      assert r.out == [r.out[0]];
    }
  }

  lemma LaterInOrder(me: Endpoint, client: bool, inbox: Channel, e: Local, out: Channel)
    requires !OfOpening(e) && Act(me, client, inbox, e).out != []
    ensures var g := Act(me, client, inbox, e).out[0]; Honest(g) && forall f :: f in out ==> InOrder(f, g)
  {
    var g := Act(me, client, inbox, e).out[0];
    if OfWriter(e) {
      assert g.Data?;
    } else {
      assert g.Update? || g.SettingsAck?;
    }
  }

  lemma OpeningInOrder(me: Endpoint, client: bool, e: Local, out: Channel)
    requires OfOpening(e) && Beginning(me, client, e).out != []
    requires !me.phase.Live? ==> forall f :: f in out ==> !f.Headers? && !f.Data?
    ensures var g := Beginning(me, client, e).out[0]; Honest(g) && forall f :: f in out ==> InOrder(f, g)
  {
  }

  lemma AppendOrdered(out: Channel, g: Frame)
    requires Ordered(out) && AllHonest(out) && Honest(g) && forall f :: f in out ==> InOrder(f, g)
    ensures Ordered(out + [g]) && AllHonest(out + [g])
  {
    assert forall i :: 0 <= i < |out| ==> out[i] in out;
  }

  lemma PopOrdered(ch: Channel)
    requires ch != [] && Ordered(ch) && AllHonest(ch)
    ensures Ordered(ch[1..]) && AllHonest(ch[1..]) && Honest(ch[0])
    ensures ch[0].Data? ==> Sum(ch[1..]).headers == 0
    ensures ch[0].Headers? ==> Sum(ch[1..]).settings == 0
  {
    var tail := ch[1..];
    AbsentIf(tail);
    assert forall i :: 0 <= i < |tail| ==> tail[i] == ch[i + 1] && InOrder(ch[0], ch[i + 1]);
  }

  lemma ReceiveKeeps(me: Endpoint, client: bool, peer: Endpoint, out: Channel, inbox: Channel, pipeOk: bool)
    requires Good(me, client, peer, out, inbox) && inbox != []
    requires Running(me.phase) && me.oweConn == 0 && me.oweStream == 0
    ensures Good(Receiving(me, client, inbox[0], pipeOk), client, peer, out, inbox[1..])
  {
    var f, tail := inbox[0], Sum(inbox[1..]);
    PopOrdered(inbox);
    match f
    case Settings(_) => ReceiveSettings(me, client, peer, Sum(out), f, tail, pipeOk);
    case Headers => ReceiveHeaders(me, client, peer, Sum(out), f, tail, pipeOk);
    case Data(_, _) => ReceiveData(me, client, peer, Sum(out), f, tail, pipeOk);
    case _ => ReceiveUpdate(me, client, peer, Sum(out), f, tail, pipeOk);
  }

  lemma ActKeeps(me: Endpoint, client: bool, peer: Endpoint, out: Channel, inbox: Channel, e: Local)
    requires Good(me, client, peer, out, inbox)
    ensures var r := Act(me, client, inbox, e); Good(r.me, client, peer, out + r.out, Rest(inbox, r.pop))
  {
    var r := Act(me, client, inbox, e);
    if r.pop {
      assert out + r.out == out;
      ReceiveKeeps(me, client, peer, out, inbox, e.pipeOk);
    } else if e.Receive? {
      assert out + r.out == out;
    } else {
      SumOut(out, r);
      SpeakKeeps(me, client, peer, Sum(out), Sum(inbox), inbox, e);
      WrittenInOrder(me, client, peer, out, inbox, e);
    }
  }

  /** Credit conservation in both directions, in every reachable state. */
  lemma {:induction false} InvAlways(events: seq<Event>)
    ensures Inv(Run(events))
  {
    if events != [] {
      var s, e := Run(events[..|events| - 1]), events[|events| - 1];
      InvAlways(events[..|events| - 1]);
      match e
      case AtClient(l) => ActKeeps(s.client, true, s.server, s.c2s, s.s2c, l);
      case AtServer(l) => ActKeeps(s.server, false, s.client, s.s2c, s.c2s, l);
    }
  }

  /** Between honest ends readLoop never has to skip a DATA frame for want of a stream. */
  lemma DataMeetsStream(me: Endpoint, client: bool, peer: Endpoint, out: Channel, inbox: Channel)
    requires Good(me, client, peer, out, inbox) && inbox != []
    ensures inbox[0].Data? ==> client || me.streamOpen
  {
    PopOrdered(inbox);
  }

  // ---------------------------------------------------------------- consequences

  /** Between two honest ends no window passes 2^20, so the overflow error never fires. */
  lemma NeverOverflows(events: seq<Event>)
    ensures var s := Run(events);
            && !s.client.overflowed && !s.server.overflowed
            && 0 <= s.client.w.conn <= WINDOW && 0 <= s.server.w.conn <= WINDOW
            && (s.client.streamOpen ==> 0 <= s.client.w.stream <= WINDOW)
            && (s.server.streamOpen ==> 0 <= s.server.w.stream <= WINDOW)
  {
    InvAlways(events);
  }

  /** A sender whose window is exhausted has bytes or credit outstanding. */
  lemma ExhaustedHasOutstanding(events: seq<Event>)
    ensures var s := Run(events);
            && (s.client.streamOpen && (s.client.w.conn == 0 || s.client.w.stream == 0) ==>
              |s.client.wr.hand| + Sum(s.c2s).bytes + s.server.oweConn + s.server.oweStream + Sum(s.s2c).conn +
                  Sum(s.s2c).stream
              + (if Running(s.server.phase) then 0 else GREETING_CREDIT) > 0)
            && (s.server.streamOpen && (s.server.w.conn == 0 || s.server.w.stream == 0) ==>
              |s.server.wr.hand| + Sum(s.s2c).bytes + s.client.oweConn + s.client.oweStream + Sum(s.c2s).conn +
                  Sum(s.c2s).stream > 0)
  {
    InvAlways(events);
  }

  /** When nothing is under way, all credit is back with the senders. */
  lemma QuiescentWindowsFull(events: seq<Event>)
    requires var s := Run(events);
             && s.c2s == [] && s.s2c == [] && s.client.wr.hand == [] && s.server.wr.hand == []
             && s.client.oweConn == 0 && s.client.oweStream == 0 && s.server.oweConn == 0 && s.server.oweStream == 0
             && s.client.streamOpen && s.server.streamOpen && Running(s.server.phase) && Running(s.client.phase)
    ensures var s := Run(events);
            s.client.w.conn == s.client.w.stream == s.server.w.conn == s.server.w.stream == WINDOW
  {
    InvAlways(events);
  }
}
