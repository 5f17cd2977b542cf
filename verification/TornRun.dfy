/** A run in which the server gives up in the middle of a capsule, writes on, and the client receives
    something other than the packets that were not given up. */
module TornRun {
  import opened Bytes
  import opened FlowControl
  import opened CallLog
  import opened TwoEnds
  import opened Delivery
  import opened Drain
  import opened Liveness
  import opened Capsule
  import Packet

  // ---------------------------------------------------------------- a server ready to write

  /** Both readers run and the server, past its HEADERS, may write; `win` is left of its windows. */
  predicate Ready(x: Endpoint, calls: seq<Call>, win: int) {
    && x.phase.Live? && x.life.Up? && !x.wr.end && !x.wr.ended && !x.wr.quit
    && x.w.conn == win && x.w.stream == win && x.w.maxFrame == DEFAULT_FRAME && x.wr.calls == calls
  }

  predicate Rested(x: Endpoint, calls: seq<Call>, win: int) { Ready(x, calls, win) && !Busy(x.wr) && !x.wr.waiting }

  /** In the middle of a call: k bytes of its input are in frames. */
  predicate Amid(x: Endpoint, done: seq<Call>, input: seq<Byte>, k: nat, win: int) {
    && k <= |input| && Ready(x, done + [Call(input, input[..k])], win)
    && x.wr.hand == [] && x.wr.rest == input[k..] && !x.wr.waiting
  }

  /** Asleep on an exhausted window. */
  predicate Stalled(x: Endpoint, done: seq<Call>, input: seq<Byte>, k: nat) {
    && k < |input| && Ready(x, done + [Call(input, input[..k])], 0)
    && x.wr.hand == [] && x.wr.rest == input[k..] && x.wr.waiting
  }

  predicate ClientUp(events: seq<Event>) { Run(events).client.life.Up? && Run(events).client.w.maxFrame > 0 }

  function ServerAt(events: seq<Event>): (x: Endpoint) { Run(events).server }

  lemma ByServer(events: seq<Event>, e: Local)
    requires OfWriter(e)
    ensures ServerAt(events + [AtServer(e)]) == Writing(ServerAt(events), false, e).me
    ensures ClientUp(events) ==> ClientUp(events + [AtServer(e)])
  {
    Extend(events, AtServer(e));
  }

  lemma Started(x: Endpoint, calls: seq<Call>, win: int, input: seq<Byte>)
    requires Rested(x, calls, win) && input != []
    ensures Amid(Writing(x, false, Write(input, false)).me, calls, input, 0, win)
  {
  }

  /** A chunk of n bytes is reserved and put into a frame. */
  lemma OneChunk(x: Endpoint, done: seq<Call>, input: seq<Byte>, k: nat, win: int)
    requires Amid(x, done, input, k, win) && k < |input| && win > 0
    ensures var n := Usable(x.w, |input| - k);
            var y := Writing(Writing(x, false, Check).me, false, Emit).me;
            && 0 < n <= |input| - k && n <= win
            && Amid(y, done, input, k + n, win - n)
  {
    var n := Usable(x.w, |input| - k);
    ChunkTaken(x, done, input, k, win, n);
    ChunkPut(Writing(x, false, Check).me, done, input, k, win - n, n);
  }

  /** The reserved chunk is in the writer's hand. */
  predicate InHand(x: Endpoint, done: seq<Call>, input: seq<Byte>, k: nat, win: int, n: nat) {
    && 0 < n && k + n <= |input| && Ready(x, done + [Call(input, input[..k])], win)
    && x.wr.hand == input[k..k + n] && x.wr.rest == input[k + n..] && !x.wr.waiting
  }

  lemma {:induction false} CutTwice(s: seq<Byte>, k: nat, n: nat)
    requires k + n <= |s|
    ensures s[k..][..n] == s[k..k + n] && s[k..][n..] == s[k + n..]
  {
  }

  lemma ChunkTaken(x: Endpoint, done: seq<Call>, input: seq<Byte>, k: nat, win: int, n: nat)
    requires Amid(x, done, input, k, win) && k < |input| && n == Usable(x.w, |input| - k) && n > 0
    ensures InHand(Writing(x, false, Check).me, done, input, k, win - n, n)
  {
    CutTwice(input, k, n);
  }

  lemma ChunkPut(x: Endpoint, done: seq<Call>, input: seq<Byte>, k: nat, win: int, n: nat)
    requires InHand(x, done, input, k, win, n)
    ensures Amid(Writing(x, false, Emit).me, done, input, k + n, win)
  {
    assert input[..k] + input[k..k + n] == input[..k + n];
    ExtendedLast(done, Call(input, input[..k]), input[k..k + n]);
  }

  lemma ExtendedLast(done: seq<Call>, c: Call, more: seq<Byte>)
    ensures Extended(done + [c], more) == done + [c.(sent := c.sent + more)]
  {
  }

  lemma Stalls(x: Endpoint, done: seq<Call>, input: seq<Byte>, k: nat)
    requires Amid(x, done, input, k, 0) && k < |input|
    ensures Stalled(Writing(x, false, Check).me, done, input, k)
  {
  }

  lemma Completes(x: Endpoint, done: seq<Call>, input: seq<Byte>, win: int)
    requires Amid(x, done, input, |input|, win)
    ensures Rested(x, done + [Call(input, input)], win)
  {
    assert input[..|input|] == input && input[|input|..] == [];
  }

  /** The server goes on with a call until it is complete or the window is exhausted. */
  lemma {:induction false} SendOn(events: seq<Event>, done: seq<Call>, input: seq<Byte>, k: nat, win: nat)
    returns (all: seq<Event>)
    requires ClientUp(events) && Amid(ServerAt(events), done, input, k, win)
    ensures ClientUp(all)
    ensures |input| - k <= win ==> Rested(ServerAt(all), done + [Call(input, input)], win - (|input| - k))
    ensures |input| - k > win ==> Stalled(ServerAt(all), done, input, k + win)
    decreases |input| - k
  {
    if k == |input| {
      all := events;
      Completes(ServerAt(events), done, input, win);
    } else if win == 0 {
      all := events + [AtServer(Check)];
      ByServer(events, Check);
      Stalls(ServerAt(events), done, input, k);
    } else {
      var next, n := ChunkOn(events, done, input, k, win);
      all := SendOn(next, done, input, k + n, win - n);
    }
  }

  /** One turn of the writeData loop. */
  lemma ChunkOn(events: seq<Event>, done: seq<Call>, input: seq<Byte>, k: nat, win: nat)
    returns (all: seq<Event>, n: nat)
    requires ClientUp(events) && Amid(ServerAt(events), done, input, k, win) && k < |input| && win > 0
    ensures 0 < n <= |input| - k && n <= win && ClientUp(all) && Amid(ServerAt(all), done, input, k + n, win - n)
  {
    n := Usable(ServerAt(events).w, |input| - k);
    OneChunk(ServerAt(events), done, input, k, win);
    ByServer(events, Check);
    ByServer(events + [AtServer(Check)], Emit);
    all := events + [AtServer(Check)] + [AtServer(Emit)];
  }

  /** A whole call from rest: complete if the window has room for it, stalled if not. */
  lemma WriteOn(events: seq<Event>, calls: seq<Call>, input: seq<Byte>, win: nat) returns (all: seq<Event>)
    requires ClientUp(events) && Rested(ServerAt(events), calls, win) && input != []
    ensures ClientUp(all)
    ensures |input| <= win ==> Rested(ServerAt(all), calls + [Call(input, input)], win - |input|)
    ensures |input| > win ==> Stalled(ServerAt(all), calls, input, win)
  {
    Started(ServerAt(events), calls, win, input);
    ByServer(events, Write(input, false));
    all := SendOn(events + [AtServer(Write(input, false))], calls, input, 0, win);
  }

  function Repeat<T>(x: T, n: nat): (s: seq<T>)
    ensures |s| == n && forall i :: 0 <= i < n ==> s[i] == x
  {
    if n == 0 then [] else Repeat(x, n - 1) + [x]
  }

  function Times(n: nat, size: nat): (r: nat) { if n == 0 then 0 else Times(n - 1, size) + size }

  lemma {:induction false} TimesIs(n: nat, size: nat)
    ensures Times(n, size) == n * size
  {
    if n > 0 { TimesIs(n - 1, size); }
  }

  /** n calls with the same input, all complete. */
  lemma {:induction false} Fill(events: seq<Event>, input: seq<Byte>, n: nat, win: nat) returns (all: seq<Event>)
    requires ClientUp(events) && Rested(ServerAt(events), [], win) && input != [] && Times(n, |input|) <= win
    ensures ClientUp(all) && Rested(ServerAt(all), Repeat(Call(input, input), n), win - Times(n, |input|))
  {
    if n == 0 {
      all := events;
    } else {
      all := Fill(events, input, n - 1, win);
      all := WriteOn(all, Repeat(Call(input, input), n - 1), input, win - Times(n - 1, |input|));
    }
  }

  // ---------------------------------------------------------------- the handshake

  lemma {:induction false} NeverQuits(events: seq<Event>)
    ensures !Run(events).server.wr.quit
  {
    if events != [] {
      var s, e := Run(events[..|events| - 1]), events[|events| - 1];
      NeverQuits(events[..|events| - 1]);
      if e.AtServer? && OfWriter(e.e) { KeepsGoing(s.server, e.e); }
    }
  }

  lemma KeepsGoing(x: Endpoint, e: Local)
    requires OfWriter(e) && !x.wr.quit
    ensures !Writing(x, false, e).me.wr.quit
  {
    match e
    case Write(_, _) =>
    case Check =>
    case Wake =>
    case GiveUp =>
    case Emit =>
  }

  /** A drained server past its HEADERS can write, with full windows. */
  lemma DrainedIsRested(events: seq<Event>)
    requires DrainedAfter(events) && BothReading(events) && Run(events).server.phase.Live?
    ensures Rested(ServerAt(events), Run(events).server.wr.calls, WINDOW) && ClientUp(events)
    ensures Run(events).client.delivered == Emitted(Run(events).server.wr.calls)
  {
    NeverQuits(events);
    LogAlways(events);
    FrameLimitAlways(events);
    WakeAlways(events);
  }

  lemma GoalsOfIdle(events: seq<Event>, all: seq<Event>)
    requires Drainable(events, all) && !Busy(Run(events).server.wr)
    ensures Run(all).server.wr.calls == Run(events).server.wr.calls
  {
  }

  lemma Handshake() returns (all: seq<Event>)
    ensures ClientUp(all) && Rested(ServerAt(all), [], WINDOW)
  {
    assert BothReading([]);
    all := Opens([]);
    DrainedIsRested(all);
  }

  // ---------------------------------------------------------------- the damage

  lemma GivenUp(events: seq<Event>, done: seq<Call>, input: seq<Byte>, k: nat) returns (all: seq<Event>)
    requires ClientUp(events) && Stalled(ServerAt(events), done, input, k)
    ensures BothReading(all) && Run(all).server.phase.Live? && !Busy(Run(all).server.wr)
    ensures Run(all).server.wr.calls == done + [Call(input, input[..k])]
  {
    ByServer(events, GiveUp);
    all := events + [AtServer(GiveUp)];
  }

  lemma RestedReads(events: seq<Event>, calls: seq<Call>, win: int)
    requires ClientUp(events) && Rested(ServerAt(events), calls, win)
    ensures BothReading(events) && Run(events).server.phase.Live? && !Busy(Run(events).server.wr)
    ensures Run(events).server.wr.calls == calls
  {
  }

  /** One more call, written whole and delivered. */
  lemma WriteAndDeliver(events: seq<Event>, calls: seq<Call>, input: seq<Byte>) returns (all: seq<Event>)
    requires ClientUp(events) && Rested(ServerAt(events), calls, WINDOW) && 0 < |input| <= WINDOW
    ensures ClientUp(all) && Run(all).server.wr.calls == calls + [Call(input, input)]
    ensures Run(all).client.delivered == Emitted(calls + [Call(input, input)])
  {
    var sent := WriteOn(events, calls, input, WINDOW);
    RestedReads(sent, calls + [Call(input, input)], WINDOW - |input|);
    all := DrainsFrom(sent);
    GoalsOfIdle(sent, all);
    DrainedIsRested(all);
  }

  /** A call for which the window has no room is given up in the middle, and the rest drained. */
  lemma WriteAndGiveUp(events: seq<Event>, calls: seq<Call>, input: seq<Byte>, k: nat) returns (all: seq<Event>)
    requires ClientUp(events) && Rested(ServerAt(events), calls, k) && k < |input|
    ensures ClientUp(all) && Rested(ServerAt(all), calls + [Call(input, input[..k])], WINDOW)
  {
    var e := WriteOn(events, calls, input, k);
    e := GivenUp(e, calls, input, k);
    all := DrainsFrom(e);
    GoalsOfIdle(e, all);
    DrainedIsRested(all);
  }

  /** After n whole calls, one is given up when the window runs out, and another is written behind it. */
  lemma Tear(input: seq<Byte>, n: nat, k: nat, next: seq<Byte>) returns (all: seq<Event>)
    requires Times(n, |input|) + k == WINDOW && 0 < k < |input| && 0 < |next| <= WINDOW
    ensures var calls := Repeat(Call(input, input), n) + [Call(input, input[..k])] + [Call(next, next)];
            ClientUp(all) && Run(all).server.wr.calls == calls && Run(all).client.delivered == Emitted(calls)
  {
    all := Handshake();
    all := Fill(all, input, n, WINDOW);
    all := TearAfter(all, Repeat(Call(input, input), n), input, k, next);
  }

  lemma TearAfter(events: seq<Event>, done: seq<Call>, input: seq<Byte>, k: nat, next: seq<Byte>)
    returns (all: seq<Event>)
    requires ClientUp(events) && Rested(ServerAt(events), done, k) && k < |input| && 0 < |next| <= WINDOW
    ensures var calls := done + [Call(input, input[..k])] + [Call(next, next)];
            ClientUp(all) && Run(all).server.wr.calls == calls && Run(all).client.delivered == Emitted(calls)
  {
    all := WriteAndGiveUp(events, done, input, k);
    all := WriteAndDeliver(all, done + [Call(input, input[..k])], next);
  }

  /** The packets of that run: copies of b, the last of them torn, and c behind them. */
  function Sent(b: Packet.MasquePacket, n: nat, c: Packet.MasquePacket): (ps: seq<Packet.MasquePacket>)
    ensures |ps| == n + 2 && ps[n + 1] == c && forall i :: 0 <= i <= n ==> ps[i] == b
  {
    Repeat(b, n + 1) + [c]
  }

  /** The log of that run. */
  predicate IsLog(calls: seq<Call>, w: seq<Byte>, n: nat, k: nat, next: seq<Byte>) {
    && |calls| == n + 2 && 0 < k < |w|
    && (forall i :: 0 <= i < n ==> calls[i] == Call(w, w))
    && calls[n] == Call(w, w[..k]) && calls[n + 1] == Call(next, next)
  }

  lemma LogWrote(b: Packet.MasquePacket, c: Packet.MasquePacket, n: nat, k: nat, calls: seq<Call>)
    requires FitsCapsule(b) && FitsCapsule(c) && IsLog(calls, WireOf(b), n, k, WireOf(c))
    ensures Wrote(Bodies(Sent(b, n, c)), calls) && forall p :: p in Sent(b, n, c) ==> FitsCapsule(p)
  {
    var ps := Sent(b, n, c);
    forall i | 0 <= i < |ps|
      ensures FitsCapsule(ps[i]) && calls[i].input == WireOf(ps[i]) && calls[i].sent <= calls[i].input
    {
      OneWrote(b, c, n, k, calls, i);
    }
    PacketsWrote(ps, calls);
  }

  lemma {:induction false} OneWrote(b: Packet.MasquePacket, c: Packet.MasquePacket, n: nat, k: nat, calls: seq<Call>,
                                    i: nat)
    requires FitsCapsule(b) && FitsCapsule(c) && IsLog(calls, WireOf(b), n, k, WireOf(c)) && i < n + 2
    ensures var p := Sent(b, n, c)[i]; FitsCapsule(p) && calls[i].input == WireOf(p) && calls[i].sent <= calls[i].input
  {
    if i < n {
      assert calls[i] == Call(WireOf(b), WireOf(b));
    } else if i == n {
      assert WireOf(b)[..k] <= WireOf(b);
    }
  }

  lemma {:induction false} PacketsWrote(ps: seq<Packet.MasquePacket>, calls: seq<Call>)
    requires |ps| == |calls|
    requires forall i :: 0 <= i < |ps| ==>
               FitsCapsule(ps[i]) && calls[i].input == WireOf(ps[i]) && calls[i].sent <= calls[i].input
    ensures Wrote(Bodies(ps), calls)
  {
    var items := Bodies(ps);
    assert forall i :: 0 <= i < |ps| ==> items[i] == Body(Packet.Encode(ps[i])) && WireItem(items[i]) == WireOf(ps[i]);
  }

  lemma LogTorn(w: seq<Byte>, n: nat, k: nat, next: seq<Byte>, calls: seq<Call>)
    requires IsLog(calls, w, n, k, next) && next != []
    ensures Torn(calls[n]) && NoneTorn(calls[..n]) && !Clean(calls) && Whole(calls[n + 1])
  {
    assert |w[..k]| == k;
    assert Torn(calls[n]) && calls[n + 1].sent != [];
  }

  lemma LargestWire(b: Packet.MasquePacket)
    requires |b.payload| == 65470
    ensures FitsCapsule(b) && |WireOf(b)| == 65541
  {
    WireLayout(b);
    FourBytes(65536);
  }

  /** The run itself: the server tears a copy of b, goes on with c, and all bytes reach a client that is
      still reading. */
  lemma TornStream(b: Packet.MasquePacket, n: nat, k: nat, c: Packet.MasquePacket) returns (events: seq<Event>)
    requires FitsCapsule(b) && Times(n, |WireOf(b)|) + k == WINDOW && 0 < k < |WireOf(b)|
    requires FitsCapsule(c) && |WireOf(c)| <= WINDOW
    ensures var s := Run(events);
            && IsLog(s.server.wr.calls, WireOf(b), n, k, WireOf(c)) && Carried(s.server.wr, Bodies(Sent(b, n, c)))
            && s.client.life.Up? && s.client.delivered == s.server.wr.emitted == Emitted(s.server.wr.calls)
  {
    events := Tear(WireOf(b), n, k, WireOf(c));
    var calls := Run(events).server.wr.calls;
    assert IsLog(calls, WireOf(b), n, k, WireOf(c));
    LogWrote(b, c, n, k, calls);
    LogAlways(events);
    PacketsFit(Sent(b, n, c));
  }

  /** Too little behind the torn packet: for every packet of the largest size there is a run in which the
      server tears one copy of it and writes a small packet behind it. All bytes arrive, but the small
      packet is swallowed: the client has not received the packets that were not given up. */
  lemma TornStreamReached(b: Packet.MasquePacket) returns (events: seq<Event>)
    requires |b.payload| == 65470
    ensures var s := Run(events);
            var ps := Sent(b, 15, Probe(b));
            && Carried(s.server.wr, Bodies(ps)) && !Clean(s.server.wr.calls)
            && s.client.life.Up? && s.client.delivered == s.server.wr.emitted
            && ReceiveAll(s.client.delivered).bodies != BodiesOf(Completed(Bodies(ps), s.server.wr.calls))
  {
    LargestWire(b);
    SmallWire(Probe(b));
    TimesIs(15, |WireOf(b)|);
    events := TornStream(b, 15, 65461, Probe(b));
    var calls := Run(events).server.wr.calls;
    LogTorn(WireOf(b), 15, 65461, WireOf(Probe(b)), calls);
    LogWrote(b, Probe(b), 15, 65461, calls);
    Misreceived(Sent(b, 15, Probe(b)), calls, 15);
  }

  /** Enough behind it: whatever packet of 11 to 65469 payload bytes is written behind the torn copy, the
      client is handed a packet that nobody sent. It has the torn one's keys, and its payload is what had
      been sent of the torn one followed by the first bytes of the next capsule; so what the client has
      received is no prefix of the packets that were not given up. (The torn packet's own byte at the cut
      must not happen to be the capsule's first.) */
  lemma MixedDatagramReached(b: Packet.MasquePacket, c: Packet.MasquePacket) returns (events: seq<Event>)
    requires |b.payload| == 65470 && b.payload[65390] != 0 && 11 <= |c.payload| < 65470
    ensures var s := Run(events);
            var ps := Sent(b, 15, c);
            && Carried(s.server.wr, Bodies(ps)) && !Clean(s.server.wr.calls)
            && s.client.life.Up? && s.client.delivered == s.server.wr.emitted
            && FitsCapsule(c) && |WireOf(c)| >= 80
            && var got, m := PacketsIn(s.client.delivered), Mixed(b, 65390, WireOf(c));
            && |got| > 15 && got[15] == m && m !in ps
            && !(got <= PacketsCompleted(Bodies(ps), s.server.wr.calls))
  {
    LargestWire(b);
    WireStart(c);
    TimesIs(15, |WireOf(b)|);
    events := TornStream(b, 15, 65461, c);
    var calls := Run(events).server.wr.calls;
    LogTorn(WireOf(b), 15, 65461, WireOf(c), calls);
    LogWrote(b, c, 15, 65461, calls);
    GotMixed(b, c, 15, 65390, 65461, calls);
    NobodySent(b, c, 15, 65390);
  }

  lemma {:induction false} WireStart(c: Packet.MasquePacket)
    requires 11 <= |c.payload| < 65470
    ensures FitsCapsule(c) && 80 <= |WireOf(c)| <= WINDOW && WireOf(c)[0] == 0
  {
    WireLayout(c);
  }

  lemma {:induction false} NobodySent(b: Packet.MasquePacket, c: Packet.MasquePacket, n: nat, cut: nat)
    requires cut < |b.payload| && FitsCapsule(c) && |b.payload| <= cut + |WireOf(c)| && |c.payload| < |b.payload|
    requires WireOf(c)[0] == 0 && b.payload[cut] != 0
    ensures Mixed(b, cut, WireOf(c)) !in Sent(b, n, c)
  {
    var m, w := Mixed(b, cut, WireOf(c)), WireOf(c);
    assert m.payload[cut] == w[0];
    forall i | 0 <= i < n + 2 ensures Sent(b, n, c)[i] != m { }
  }

  /** Calls that are all whole, packet by packet. */
  lemma {:induction false} AllWhole(items: seq<Item>, calls: seq<Call>)
    requires |items| == |calls| && forall i :: 0 <= i < |calls| ==> Whole(calls[i])
    ensures Completed(items, calls) == items
  {
    if calls != [] {
      AllWhole(items[1..], calls[1..]);
    }
  }

  /** The bodies that the client has got: the whole packets, the mixed one, and perhaps more. */
  lemma {:induction false} GotMixed(b: Packet.MasquePacket, c: Packet.MasquePacket, n: nat, cut: nat, k: nat,
                                    calls: seq<Call>)
    requires FitsCapsule(b) && FitsCapsule(c) && IsLog(calls, WireOf(b), n, k, WireOf(c))
    requires cut < |b.payload| <= cut + |WireOf(c)| && k == |WireOf(b)| - (|b.payload| - cut)
    requires |c.payload| < |b.payload| && Wrote(Bodies(Sent(b, n, c)), calls)
    ensures var got, m := PacketsIn(Emitted(calls)), Mixed(b, cut, WireOf(c));
            && |got| > n && got[n] == m
            && !(got <= PacketsCompleted(Bodies(Sent(b, n, c)), calls))
  {
    var ps, torn := Sent(b, n, c), calls[n].sent;
    LogFacts(b, c, n, k, calls);
    var more := MixedTail(b, cut, k, torn, WireOf(c));
    BothBodies(ps, calls, n, torn + WireOf(c), [Packet.Encode(Mixed(b, cut, WireOf(c)))] + more);
    FromBodies(ps, calls, n, Mixed(b, cut, WireOf(c)), more);
  }

  lemma {:induction false} LogFacts(b: Packet.MasquePacket, c: Packet.MasquePacket, n: nat, k: nat, calls: seq<Call>)
    requires FitsCapsule(b) && FitsCapsule(c) && IsLog(calls, WireOf(b), n, k, WireOf(c))
    ensures forall p :: p in Sent(b, n, c) ==> FitsCapsule(p)
    ensures (forall i :: 0 <= i < n ==> Whole(calls[i])) && !Whole(calls[n]) && Whole(calls[n + 1])
    ensures calls[n].sent == WireOf(b)[..k] && calls[n + 1].sent == WireOf(c)
  {
    assert |WireOf(b)[..k]| == k;
    forall p | p in Sent(b, n, c) ensures FitsCapsule(p) { }
  }

  lemma {:induction false} MixedTail(b: Packet.MasquePacket, cut: nat, k: nat, torn: seq<Byte>, w: seq<Byte>)
    returns (more: seq<seq<Byte>>)
    requires FitsCapsule(b) && cut < |b.payload| <= cut + |w| && k == |WireOf(b)| - (|b.payload| - cut)
    requires torn == WireOf(b)[..k]
    ensures ReceiveAll(torn + w).bodies == [Packet.Encode(Mixed(b, cut, w))] + more
  {
    TornMixes(b, cut, w);
    more := ReceiveAll(w[|b.payload| - cut..]).bodies;
  }

  lemma {:induction false} FromBodies(ps: seq<Packet.MasquePacket>, calls: seq<Call>, n: nat, m: Packet.MasquePacket,
                                      more: seq<seq<Byte>>)
    requires |ps| == |calls| == n + 2 && m != ps[n + 1]
    requires ReceiveAll(Emitted(calls)).bodies == Packet.EncodeAll(ps[..n]) + ([Packet.Encode(m)] + more)
    requires BodiesOf(Completed(Bodies(ps), calls)) == Packet.EncodeAll(ps[..n]) + [Packet.Encode(ps[n + 1])]
    ensures var got := PacketsIn(Emitted(calls));
            |got| > n && got[n] == m && !(got <= PacketsCompleted(Bodies(ps), calls))
  {
    var got, sent := ReceiveAll(Emitted(calls)).bodies, BodiesOf(Completed(Bodies(ps), calls));
    PacketsDiffer(ps[..n], m, more, ps[n + 1], got, sent);
  }

  /** The bodies received and the bodies completed, behind the same n packets. */
  lemma {:induction false} BothBodies(ps: seq<Packet.MasquePacket>, calls: seq<Call>, n: nat, tail: seq<Byte>,
                                      late: seq<seq<Byte>>)
    requires |ps| == n + 2 && Wrote(Bodies(ps), calls) && (forall p :: p in ps ==> FitsCapsule(p))
    requires (forall i :: 0 <= i < n ==> Whole(calls[i])) && !Whole(calls[n]) && Whole(calls[n + 1])
    requires tail == calls[n].sent + calls[n + 1].sent && ReceiveAll(tail).bodies == late
    ensures ReceiveAll(Emitted(calls)).bodies == Packet.EncodeAll(ps[..n]) + late
    ensures BodiesOf(Completed(Bodies(ps), calls)) == Packet.EncodeAll(ps[..n]) + [Packet.Encode(ps[n + 1])]
  {
    WholeBefore(ps, calls, n, tail);
    LastTwo(Bodies(ps), calls, n);
  }

  lemma {:induction false} PacketsDiffer(ps: seq<Packet.MasquePacket>, m: Packet.MasquePacket, more: seq<seq<Byte>>,
                                         c: Packet.MasquePacket, got: seq<seq<Byte>>, sent: seq<seq<Byte>>)
    requires m != c && got == Packet.EncodeAll(ps) + ([Packet.Encode(m)] + more)
    requires sent == Packet.EncodeAll(ps) + [Packet.Encode(c)]
    ensures |Packet.DecodeAll(got)| > |ps| && Packet.DecodeAll(got)[|ps|] == m
    ensures !(Packet.DecodeAll(got) <= Packet.DecodeAll(sent))
  {
    DecodeThree(ps, m, more);
    DecodeThree(ps, c, []);
    assert [Packet.Encode(c)] + [] == [Packet.Encode(c)];
    assert ps + [c] + Packet.DecodeAll([]) == ps + [c];
    NoPrefix(ps, m, Packet.DecodeAll(more), c);
  }

  /** A torn call and a whole one behind n others. */
  lemma {:induction false} LastTwo(items: seq<Item>, calls: seq<Call>, n: nat)
    requires |items| == |calls| == n + 2 && !Whole(calls[n]) && Whole(calls[n + 1]) && items[n + 1].Body?
    ensures Emitted(calls) == Emitted(calls[..n]) + (calls[n].sent + calls[n + 1].sent)
    ensures BodiesOf(Completed(items, calls)) == BodiesOf(Completed(items[..n], calls[..n])) + [items[n + 1].data]
  {
    OneMore(items, calls, n);
    assert calls[..n + 1] + [calls[n + 1]] == calls && items[..n + 1] + [items[n + 1]] == items;
    LastAppended(items[..n + 1], calls[..n + 1], items[n + 1], calls[n + 1]);
    Regroup(Emitted(calls[..n]), calls[n].sent, calls[n + 1].sent);
  }

  lemma {:induction false} NoPrefix(a: seq<Packet.MasquePacket>, x: Packet.MasquePacket,
                                    more: seq<Packet.MasquePacket>, y: Packet.MasquePacket)
    requires x != y
    ensures (a + [x] + more)[|a|] == x && !(a + [x] + more <= a + [y])
  {
    assert (a + [y])[|a|] == y;
  }

  lemma {:induction false} DecodeThree(ps: seq<Packet.MasquePacket>, p: Packet.MasquePacket, more: seq<seq<Byte>>)
    ensures Packet.DecodeAll(Packet.EncodeAll(ps) + ([Packet.Encode(p)] + more)) == ps + [p] + Packet.DecodeAll(more)
  {
    Packet.DecodeAllSplit(Packet.EncodeAll(ps), [Packet.Encode(p)] + more);
    Packet.DecodeEncodeAll(ps);
    Packet.DecodeEncode(p);
    assert ([Packet.Encode(p)] + more)[1..] == more;
  }

  lemma {:induction false} BodiesOfPackets(ps: seq<Packet.MasquePacket>)
    ensures BodiesOf(Bodies(ps)) == Packet.EncodeAll(ps)
  {
    if ps != [] {
      assert Bodies(ps)[1..] == Bodies(ps[1..]);
      BodiesOfPackets(ps[1..]);
    }
  }

  /** What the first n calls, all whole, contribute, and what follows them. */
  lemma {:induction false} WholeBefore(ps: seq<Packet.MasquePacket>, calls: seq<Call>, n: nat, tail: seq<Byte>)
    requires Wrote(Bodies(ps), calls) && n <= |calls| && (forall p :: p in ps ==> FitsCapsule(p))
    requires forall i :: 0 <= i < n ==> Whole(calls[i])
    ensures BodiesOf(Completed(Bodies(ps)[..n], calls[..n])) == Packet.EncodeAll(ps[..n])
    ensures ReceiveAll(Emitted(calls[..n]) + tail).bodies == Packet.EncodeAll(ps[..n]) + ReceiveAll(tail).bodies
  {
    PacketsFit(ps);
    WrotePrefix(Bodies(ps), calls, n);
    AllWhole(Bodies(ps)[..n], calls[..n]);
    assert Bodies(ps)[..n] == Bodies(ps[..n]);
    BodiesOfPackets(ps[..n]);
    ReceiveBehind(Bodies(ps)[..n], calls[..n], tail);
  }

  lemma Misreceived(ps: seq<Packet.MasquePacket>, calls: seq<Call>, n: nat)
    requires |ps| == |calls| == n + 2 && Wrote(Bodies(ps), calls) && (forall p :: p in ps ==> FitsCapsule(p))
    requires Torn(calls[n]) && NoneTorn(calls[..n]) && ps[n + 1] == Probe(ps[n]) && Whole(calls[n + 1])
    ensures ReceiveAll(Emitted(calls)).bodies != BodiesOf(Completed(Bodies(ps), calls))
  {
    TornMisunderstood(ps, calls, n);
    LastWhole(Bodies(ps), calls, ps[n + 1], n + 1);
  }

  /** A last whole call, in terms of Understood. */
  lemma {:induction false} LastWhole(items: seq<Item>, calls: seq<Call>, p: Packet.MasquePacket, m: nat)
    requires |items| == |calls| == m + 1 && FitsCapsule(p) && items[m] == Body(Packet.Encode(p))
    requires calls[m] == Call(WireOf(p), WireOf(p))
    requires !Understood(items, calls, m, p)
    ensures ReceiveAll(Emitted(calls)).bodies != BodiesOf(Completed(items, calls))
  {
    assert calls[..m] + [calls[m]] == calls && items[..m] + [items[m]] == items;
    LastAppended(items[..m], calls[..m], items[m], calls[m]);
  }

  lemma {:induction false} LastAppended(items: seq<Item>, calls: seq<Call>, it: Item, c: Call)
    requires |items| == |calls| && Whole(c) && it.Body?
    ensures Emitted(calls + [c]) == Emitted(calls) + c.sent
    ensures BodiesOf(Completed(items + [it], calls + [c])) == BodiesOf(Completed(items, calls)) + [it.data]
  {
    EmittedAppend(calls, c);
    CompletedAppend(items, calls, it, c);
    BodiesAppend(Completed(items, calls), it);
  }
}
