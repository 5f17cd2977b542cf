/** What is given to a writer is delivered: from every reachable state in which nothing has ended the
    connection, the stream can be opened, and any list of packets written and received. */
module Liveness {
  import opened Bytes
  import opened CallLog
  import opened TwoEnds
  import opened Delivery
  import opened Drain
  import opened Capsule
  import Packet

  lemma Extend(events: seq<Event>, e: Event)
    ensures Run(events + [e]) == Step(Run(events), e)
  {
    assert (events + [e])[..|events|] == events;
  }

  // ---------------------------------------------------------------- opening the stream

  /** What OpenStream and SendHeaders do for the client once the greetings have been exchanged. */
  lemma ClientOpens(events: seq<Event>) returns (all: seq<Event>)
    requires DrainedAfter(events) && BothReading(events)
    ensures events <= all && BothReading(all) && Run(all).client.phase.Live?
    ensures Run(all).server.wr == Run(events).server.wr && Run(all).client.wr == Run(events).client.wr
  {
    var s := Run(events);
    InvAlways(events);
    WakeAlways(events);
    all := events + [AtClient(OpenStream)];
    Extend(events, AtClient(OpenStream));
    assert s.client.settled;
    assert Run(all).client.streamOpen;
    Extend(all, AtClient(SendHeaders));
    all := all + [AtClient(SendHeaders)];
  }

  lemma ServerAnswers(events: seq<Event>) returns (all: seq<Event>)
    requires DrainedAfter(events) && BothReading(events) && Run(events).client.phase.Live?
    ensures events <= all && BothReading(all) && Run(all).server.phase.Live? && Run(all).client.phase.Live?
    ensures Run(all).server.wr == Run(events).server.wr && Run(all).client.wr == Run(events).client.wr
  {
    InvAlways(events);
    assert Run(events).server.streamOpen;
    Extend(events, AtServer(SendHeaders));
    all := events + [AtServer(SendHeaders)];
  }

  /** Both ends are past their HEADERS and have nothing under way. */
  predicate Settled(events: seq<Event>) {
    && DrainedAfter(events) && BothReading(events)
    && Run(events).client.phase.Live? && Run(events).server.phase.Live?
  }

  /** `all` goes on from `events` without a new call: the calls in progress are complete, and what the
      ends may do they may still do. */
  predicate Resumes(events: seq<Event>, all: seq<Event>) {
    && events <= all && Goals(all) == Goals(events)
    && Quit(all) == Quit(events)
    && (Open(Run(events).client.wr) ==> Open(Run(all).client.wr))
  }

  function Quit(events: seq<Event>): (r: (bool, bool)) { (Run(events).client.wr.quit, Run(events).server.wr.quit) }

  lemma DrainResumes(events: seq<Event>) returns (all: seq<Event>)
    requires BothReading(events)
    ensures Drainable(events, all) && Resumes(events, all)
  {
    all := DrainsFrom(events);
  }

  lemma SameWriters(events: seq<Event>, all: seq<Event>)
    requires events <= all && Run(all).server.wr == Run(events).server.wr && Run(all).client.wr == Run(events).client.wr
    ensures Resumes(events, all)
  {
  }

  lemma ResumesOn(a: seq<Event>, b: seq<Event>, c: seq<Event>)
    requires Resumes(a, b) && Resumes(b, c)
    ensures Resumes(a, c)
  {
  }

  /** The handshake can be completed from every reachable state of two running ends. */
  lemma Opens(events: seq<Event>) returns (all: seq<Event>)
    requires BothReading(events)
    ensures Settled(all) && Resumes(events, all)
  {
    var a := DrainResumes(events);
    var b := ClientOpens(a);
    SameWriters(a, b);
    ResumesOn(events, a, b);
    var c := DrainResumes(b);
    ResumesOn(events, b, c);
    var d := ServerAnswers(c);
    SameWriters(c, d);
    ResumesOn(events, c, d);
    all := DrainResumes(d);
    ResumesOn(events, d, all);
  }

  // ---------------------------------------------------------------- one more packet

  function By(toServer: bool, e: Local): (r: Event) { if toServer then AtClient(e) else AtServer(e) }

  function WriterAt(events: seq<Event>, toServer: bool): (x: Writer) { Sender(Run(events), toServer).wr }

  /** The sender may write: it has not ended the stream, and a client has not retired its carrier. */
  predicate MayWrite(x: Writer) { !x.ended && !x.quit }

  /** An idle writer takes a call. */
  lemma Taken(x: Endpoint, client: bool, p: seq<Byte>)
    requires x.phase.Live? && MayWrite(x.wr) && !Busy(x.wr) && p != []
    ensures var r := Writing(x, client, Write(p, false));
            && Finished(r.me.wr) == x.wr.calls + [Call(p, p)]
            && Open(r.me.wr) && !r.me.wr.quit && r.out == []
  {
  }

  lemma TakenInRun(events: seq<Event>, toServer: bool, p: seq<Byte>)
    requires Settled(events) && MayWrite(WriterAt(events, toServer)) && p != []
    ensures var next := events + [By(toServer, Write(p, false))];
            && BothReading(next)
            && Finished(WriterAt(next, toServer)) == WriterAt(events, toServer).calls + [Call(p, p)]
            && Open(WriterAt(next, toServer)) && !WriterAt(next, toServer).quit
  {
    var s := Run(events);
    Extend(events, By(toServer, Write(p, false)));
    Taken(Sender(s, toServer), toServer, p);
  }

  /** From rest: the writer takes one more call, and it arrives. */
  lemma OneMoreCall(events: seq<Event>, toServer: bool, p: seq<Byte>) returns (all: seq<Event>)
    requires Settled(events) && MayWrite(WriterAt(events, toServer)) && p != []
    ensures events <= all && Settled(all) && MayWrite(WriterAt(all, toServer))
    ensures WriterAt(all, toServer).calls == WriterAt(events, toServer).calls + [Call(p, p)]
  {
    var next := events + [By(toServer, Write(p, false))];
    TakenInRun(events, toServer, p);
    StillLive(events, toServer, p);
    all := DrainResumes(next);
    FinishedIdle(all, toServer);
  }

  lemma StillLive(events: seq<Event>, toServer: bool, p: seq<Byte>)
    requires Settled(events)
    ensures var next := Run(events + [By(toServer, Write(p, false))]);
            next.client.phase.Live? && next.server.phase.Live?
  {
    Extend(events, By(toServer, Write(p, false)));
  }

  /** With nothing under way the finished log is the log. */
  lemma FinishedIdle(events: seq<Event>, toServer: bool)
    requires DrainedAfter(events)
    ensures Finished(WriterAt(events, toServer)) == WriterAt(events, toServer).calls
  {
  }

  // ---------------------------------------------------------------- a list of packets

  /** The log carries these items, one each, none torn. */
  ghost predicate LogCarries(items: seq<Item>, calls: seq<Call>) {
    Wrote(items, calls) && NoneTorn(calls) && NoOversize(items)
  }

  /** ... once the call in progress is complete. */
  ghost predicate Carries(x: Writer, items: seq<Item>) { LogCarries(items, Finished(x)) }

  function ItemOf(p: Packet.MasquePacket): (it: Item) { Body(Packet.Encode(p)) }

  function CallOf(p: Packet.MasquePacket): (c: Call)
    requires FitsCapsule(p)
  {
    Call(WireOf(p), WireOf(p))
  }

  lemma {:induction false} CarriesOne(items: seq<Item>, calls: seq<Call>, p: Packet.MasquePacket)
    requires LogCarries(items, calls) && FitsCapsule(p)
    ensures LogCarries(items + [ItemOf(p)], calls + [CallOf(p)])
  {
    var c := CallOf(p);
    assert !Torn(c) && c.input == WireItem(ItemOf(p)) && Sendable(ItemOf(p)) && !Oversize(ItemOf(p));
  }

  lemma {:induction false} BodiesAppend(items: seq<Item>, it: Item)
    requires it.Body?
    ensures BodiesOf(items + [it]) == BodiesOf(items) + [it.data]
  {
    if items == [] {
      assert items + [it] == [it];
      assert BodiesOf([it]) == [it.data] + BodiesOf([]);
    } else {
      var longer, first := items + [it], if items[0].Body? then [items[0].data] else [];
      assert longer[1..] == items[1..] + [it] && longer[0] == items[0];
      BodiesAppend(items[1..], it);
      assert BodiesOf(longer) == first + BodiesOf(longer[1..]);
      Join3(first, BodiesOf(items[1..]), [it.data]);
    }
  }

  lemma {:induction false} Join3(a: seq<seq<Byte>>, b: seq<seq<Byte>>, c: seq<seq<Byte>>)
    ensures a + (b + c) == (a + b) + c
  {
  }

  lemma {:induction false} PacketsOne(items: seq<Item>, calls: seq<Call>, p: Packet.MasquePacket)
    requires |items| == |calls| && FitsCapsule(p)
    ensures PacketsCompleted(items + [ItemOf(p)], calls + [CallOf(p)]) == PacketsCompleted(items, calls) + [p]
  {
    CompletedAppend(items, calls, ItemOf(p), CallOf(p));
    BodiesAppend(Completed(items, calls), ItemOf(p));
    DecodeOne(BodiesOf(Completed(items, calls)), p);
  }

  lemma {:induction false} DecodeOne(bodies: seq<seq<Byte>>, p: Packet.MasquePacket)
    ensures Packet.DecodeAll(bodies + [Packet.Encode(p)]) == Packet.DecodeAll(bodies) + [p]
  {
    Packet.DecodeAllSplit(bodies, [Packet.Encode(p)]);
    Packet.DecodeEncode(p);
    assert Packet.DecodeAll([Packet.Encode(p)]) == [p] + Packet.DecodeAll([]);
  }

  /** The sender at rest has written calls that carry these items, and these packets among them. */
  ghost predicate Stands(events: seq<Event>, toServer: bool, items: seq<Item>, ps: seq<Packet.MasquePacket>) {
    && Settled(events) && MayWrite(WriterAt(events, toServer))
    && LogCarries(items, WriterAt(events, toServer).calls)
    && PacketsCompleted(items, WriterAt(events, toServer).calls) == ps
  }

  lemma {:induction false} WriteOne(events: seq<Event>, toServer: bool, items: seq<Item>,
                                    before: seq<Packet.MasquePacket>, p: Packet.MasquePacket) returns (all: seq<Event>)
    requires Stands(events, toServer, items, before) && FitsCapsule(p)
    ensures events <= all && Stands(all, toServer, items + [ItemOf(p)], before + [p])
  {
    WireLayout(p);
    all := OneMoreCall(events, toServer, WireOf(p));
    CarriesOne(items, WriterAt(events, toServer).calls, p);
    PacketsOne(items, WriterAt(events, toServer).calls, p);
  }

  ghost predicate HasSent(events: seq<Event>, toServer: bool, ps: seq<Packet.MasquePacket>) {
    exists items: seq<Item> :: Stands(events, toServer, items, ps)
  }

  lemma {:induction false} SendOne(events: seq<Event>, toServer: bool, before: seq<Packet.MasquePacket>,
                                   p: Packet.MasquePacket) returns (all: seq<Event>)
    requires HasSent(events, toServer, before) && FitsCapsule(p)
    ensures events <= all && HasSent(all, toServer, before + [p])
  {
    var items: seq<Item> :| Stands(events, toServer, items, before);
    all := WriteOne(events, toServer, items, before, p);
  }

  predicate AllFit(ps: seq<Packet.MasquePacket>) { forall i :: 0 <= i < |ps| ==> FitsCapsule(ps[i]) }

  lemma {:induction false} Rejoin<T>(a: seq<T>, s: seq<T>, n: nat)
    requires |s| == n + 1
    ensures a + s[..n] + [s[n]] == a + s
  {
  }

  lemma {:induction false} SendAll(events: seq<Event>, toServer: bool, before: seq<Packet.MasquePacket>,
                                   ps: seq<Packet.MasquePacket>, n: nat) returns (all: seq<Event>)
    requires HasSent(events, toServer, before) && AllFit(ps) && n <= |ps|
    ensures events <= all && HasSent(all, toServer, before + ps[..n])
  {
    if n == 0 {
      all := events;
      assert before + ps[..0] == before;
    } else {
      all := SendAll(events, toServer, before, ps, n - 1);
      all := SendOne(all, toServer, before + ps[..n - 1], ps[n - 1]);
      Rejoin(before, ps[..n], n - 1);
      assert ps[..n][..n - 1] == ps[..n - 1];
    }
  }

  /** At rest, the receiver has got them all. */
  lemma {:induction false} SentIsDelivered(events: seq<Event>, toServer: bool, ps: seq<Packet.MasquePacket>)
    requires HasSent(events, toServer, ps)
    ensures BothReading(events) && PacketsIn(Receiver(Run(events), toServer).delivered) == ps
  {
    var items: seq<Item> :| Stands(events, toServer, items, ps);
    LogAlways(events);
    CleanPackets(items, WriterAt(events, toServer).calls, []);
  }

  /** What the receiver has got, in the end, of the calls so far and of the packets given now. */
  ghost predicate Delivered(events: seq<Event>, all: seq<Event>, toServer: bool, before: seq<Packet.MasquePacket>,
                            ps: seq<Packet.MasquePacket>)
  {
    events <= all && BothReading(all) && PacketsIn(Receiver(Run(all), toServer).delivered) == before + ps
  }

  /** Both ways, from every reachable state in which both readers run, the server has not ended the stream
      and the sender may write, wherever the handshake stands and whatever is under way: if no call was
      torn, then every list of packets given to the sender can be written and arrives, in order, behind the
      packets of the calls so far. */
  lemma GivenIsDelivered(events: seq<Event>, toServer: bool, items: seq<Item>, ps: seq<Packet.MasquePacket>)
    requires Run(events).client.life.Up? && Run(events).server.life.Up? && Open(Run(events).server.wr)
    requires Open(WriterAt(events, toServer)) && !WriterAt(events, toServer).quit
    requires Carries(WriterAt(events, toServer), items) && AllFit(ps)
    ensures exists all: seq<Event> ::
              Delivered(events, all, toServer, PacketsCompleted(items, Finished(WriterAt(events, toServer))), ps)
  {
    FrameLimitAlways(events);
    var settled := Opens(events);
    FinishedIdle(settled, toServer);
    var before := PacketsCompleted(items, Finished(WriterAt(events, toServer)));
    assert Stands(settled, toServer, items, before);
    var all := SendAll(settled, toServer, before, ps, |ps|);
    assert ps[..|ps|] == ps;
    SentIsDelivered(all, toServer, before + ps);
    assert Delivered(events, all, toServer, before, ps);
  }
}
