/** The bytes and packets that pass between the two ends, with writers that may give up. */
module Delivery {
  import opened Bytes
  import opened CallLog
  import opened TwoEnds
  import Capsule
  import Packet

  // ---------------------------------------------------------------- the bytes

  /** Delivered and in flight: together, in order, the bytes put into frames. A receiver that stopped
      has delivered a prefix. */
  predicate Faithful(snd: Endpoint, rcv: Endpoint, fwd: seq<Byte>) {
    && (!rcv.life.Down? ==> rcv.delivered + fwd == snd.wr.emitted)
    && rcv.delivered <= snd.wr.emitted
  }

  function SentBy(r: Effect): (p: seq<Byte>) { if r.out == [] then [] else PayloadOf(r.out[0]) }

  lemma EmittedBy(me: Endpoint, client: bool, inbox: Channel, e: Local)
    ensures var r := Act(me, client, inbox, e); r.me.wr.emitted == me.wr.emitted + SentBy(r)
  {
    var r := Act(me, client, inbox, e);
    if OfWriter(e) {
      EmittedByWriter(me, client, e);
    } else {
      assert SentBy(r) == [];
    }
  }

  lemma EmittedByWriter(me: Endpoint, client: bool, e: Local)
    requires OfWriter(e)
    ensures var r := Writing(me, client, e); r.me.wr.emitted == me.wr.emitted + SentBy(r)
  {
    var r := Writing(me, client, e);
    match e
    case Write(p, end) => assert SentBy(r) == [];
    case Check => assert SentBy(r) == [];
    case Wake => assert SentBy(r) == [];
    case GiveUp => assert SentBy(r) == [];
    case Emit =>
  }

  lemma PayloadOut(out: Channel, r: Effect)
    requires |r.out| <= 1
    ensures Payload(out + r.out) == Payload(out) + SentBy(r)
  {
    if r.out == [] {
      assert out + r.out == out;
    } else {
      PayloadAppend(out, r.out[0]);
      assert r.out == [r.out[0]];
    }
  }

  lemma FaithfulOut(me: Endpoint, client: bool, peer: Endpoint, out: Channel, inbox: Channel, e: Local)
    requires Faithful(me, peer, Payload(out))
    ensures var r := Act(me, client, inbox, e); Faithful(r.me, peer, Payload(out + r.out))
  {
    var r := Act(me, client, inbox, e);
    EmittedBy(me, client, inbox, e);
    PayloadOut(out, r);
    Assoc(peer.delivered, Payload(out), SentBy(r));
  }

  lemma Assoc(a: seq<Byte>, b: seq<Byte>, c: seq<Byte>)
    ensures a + (b + c) == a + b + c
    ensures a <= a + b + c
  {
  }

  lemma FaithfulIn(me: Endpoint, client: bool, peer: Endpoint, out: Channel, inbox: Channel, e: Local)
    requires Faithful(peer, me, Payload(inbox)) && Good(me, client, peer, out, inbox)
    ensures var r := Act(me, client, inbox, e); Faithful(peer, r.me, Payload(Rest(inbox, r.pop)))
  {
    var r := Act(me, client, inbox, e);
    if r.pop {
      DataMeetsStream(me, client, peer, out, inbox);
      FaithfulReceiving(me, client, peer, inbox[0], Payload(inbox[1..]), e.pipeOk);
    }
  }

  lemma FaithfulReceiving(me: Endpoint, client: bool, peer: Endpoint, f: Frame, more: seq<Byte>, pipeOk: bool)
    requires Faithful(peer, me, PayloadOf(f) + more) && me.life.Up?
    requires f.Data? ==> client || me.streamOpen
    ensures Faithful(peer, Receiving(me, client, f, pipeOk), more)
  {
    var r := Receiving(me, client, f, pipeOk);
    Assoc(me.delivered, PayloadOf(f), more);
    if f.Data? {
      assert r.delivered == me.delivered + f.payload || (r.life.Down? && r.delivered == me.delivered);
    } else {
      assert me.delivered + [] == me.delivered;
    }
  }

  /** Both ways, in every reachable state. */
  lemma {:induction false} FaithfulAlways(events: seq<Event>)
    ensures var s := Run(events);
            Faithful(s.client, s.server, Payload(s.c2s)) && Faithful(s.server, s.client, Payload(s.s2c))
  {
    if events != [] {
      var s, e := Run(events[..|events| - 1]), events[|events| - 1];
      InvAlways(events[..|events| - 1]);
      FaithfulAlways(events[..|events| - 1]);
      match e
      case AtClient(l) =>
        FaithfulOut(s.client, true, s.server, s.c2s, s.s2c, l);
        FaithfulIn(s.client, true, s.server, s.c2s, s.s2c, l);
      case AtServer(l) =>
        FaithfulOut(s.server, false, s.client, s.s2c, s.c2s, l);
        FaithfulIn(s.server, false, s.client, s.s2c, s.c2s, l);
    }
  }

  // ---------------------------------------------------------------- the calls

  predicate CallOk(c: Call) { c.input != [] && c.sent <= c.input }

  /** The current call: what it has put into frames, has reserved, and has still to send. */
  predicate Underway(c: Call, hand: seq<Byte>, rest: seq<Byte>) { c.sent + hand + rest == c.input }

  /** Every call has put a prefix of its input into frames, and the frames hold nothing else. */
  predicate LogOk(x: Writer) {
    && Emitted(x.calls) == x.emitted
    && (forall i :: 0 <= i < |x.calls| ==> CallOk(x.calls[i]))
    && (Busy(x) ==> x.calls != [] && Underway(x.calls[|x.calls| - 1], x.hand, x.rest))
    && (x.waiting ==> x.hand == [] && x.rest != [])
  }

  /** A client never writes behind a call that it has given up. */
  predicate Orderly(x: Writer) {
    && (forall i :: 0 <= i < |x.calls| - 1 ==> Whole(x.calls[i]))
    && (x.calls != [] && !Whole(x.calls[|x.calls| - 1]) ==> Busy(x) || x.quit)
  }

  lemma StartOk(x: Writer, p: seq<Byte>, end: bool)
    requires LogOk(x) && !Busy(x) && p != []
    ensures LogOk(StartCall(x, p, end))
    ensures Orderly(x) && !x.quit ==> Orderly(StartCall(x, p, end))
  {
    EmittedAppend(x.calls, Call(p, []));
    assert [] + [] + p == p;
  }

  lemma TakeOk(x: Writer, n: nat)
    requires LogOk(x) && x.hand == [] && 0 < n <= |x.rest| && !x.waiting
    ensures LogOk(TakeChunk(x, n))
    ensures Orderly(x) ==> Orderly(TakeChunk(x, n))
  {
    var c := x.calls[|x.calls| - 1];
    Halves(c.sent, x.rest, n);
  }

  lemma Halves(a: seq<Byte>, s: seq<Byte>, n: nat)
    requires n <= |s|
    ensures a + [] + s == a + s[..n] + s[n..]
  {
    assert s == s[..n] + s[n..];
  }

  lemma PutOk(x: Writer)
    requires LogOk(x) && x.hand != []
    ensures LogOk(PutChunk(x))
    ensures Orderly(x) ==> Orderly(PutChunk(x))
  {
    var n := |x.calls| - 1;
    var c := x.calls[n];
    var d := c.(sent := c.sent + x.hand);
    assert x.calls == x.calls[..n] + [c] && Extended(x.calls, x.hand) == x.calls[..n] + [d];
    EmittedAppend(x.calls[..n], c);
    EmittedAppend(x.calls[..n], d);
    Assoc(Emitted(x.calls[..n]), c.sent, x.hand);
    Put(c, d, x.hand, x.rest);
  }

  lemma Put(c: Call, d: Call, hand: seq<Byte>, rest: seq<Byte>)
    requires Underway(c, hand, rest) && d == c.(sent := c.sent + hand) && c.input != []
    ensures CallOk(d) && Underway(d, [], rest) && (rest == [] ==> Whole(d))
  {
    assert d.sent + rest == c.input;
    assert d.sent + [] + rest == d.sent + rest;
  }

  lemma DropOk(x: Writer, client: bool)
    requires LogOk(x) && x.waiting
    ensures LogOk(Dropped(x, client))
    ensures Orderly(x) && client ==> Orderly(Dropped(x, client))
  {
  }

  lemma LogStep(me: Endpoint, client: bool, e: Local)
    requires OfWriter(e) && LogOk(me.wr)
    ensures LogOk(Writing(me, client, e).me.wr)
    ensures client && Orderly(me.wr) ==> Orderly(Writing(me, client, e).me.wr)
  {
    match e
    case Write(p, end) => WriteOk(me, client, p, end);
    case Check => if me.wr.hand == [] && me.wr.rest != [] && !me.wr.waiting { CheckOk(me, client); }
    case Wake => SameLog(me.wr, Writing(me, client, e).me.wr);
    case GiveUp => if me.wr.waiting { DropOk(me.wr, client); }
    case Emit => if me.wr.hand != [] { PutOk(me.wr); }
  }

  lemma SameLog(x: Writer, y: Writer)
    requires LogOk(x) && (y.hand, y.rest, y.quit, y.calls, y.emitted) == (x.hand, x.rest, x.quit, x.calls, x.emitted)
    requires y.waiting ==> x.waiting
    ensures LogOk(y) && (Orderly(x) ==> Orderly(y))
  {
  }

  lemma WriteOk(me: Endpoint, client: bool, p: seq<Byte>, end: bool)
    requires LogOk(me.wr)
    ensures LogOk(Writing(me, client, Write(p, end)).me.wr)
    ensures Orderly(me.wr) ==> Orderly(Writing(me, client, Write(p, end)).me.wr)
  {
    if p == [] {
      SameLog(me.wr, Writing(me, client, Write(p, end)).me.wr);
    } else if !Busy(me.wr) {
      StartOk(me.wr, p, end);
    }
  }

  lemma CheckOk(me: Endpoint, client: bool)
    requires LogOk(me.wr) && me.wr.hand == [] && me.wr.rest != [] && !me.wr.waiting
    ensures LogOk(Writing(me, client, Check).me.wr)
    ensures Orderly(me.wr) ==> Orderly(Writing(me, client, Check).me.wr)
  {
    var n := FlowControl.Usable(me.w, |me.wr.rest|);
    if n > 0 { TakeOk(me.wr, n); }
  }

  lemma {:induction false} LogAlways(events: seq<Event>)
    ensures var s := Run(events); LogOk(s.client.wr) && LogOk(s.server.wr) && Orderly(s.client.wr)
  {
    if events != [] {
      var s, e := Run(events[..|events| - 1]), events[|events| - 1];
      LogAlways(events[..|events| - 1]);
      match e
      case AtClient(l) => if OfWriter(l) { LogStep(s.client, true, l); }
      case AtServer(l) => if OfWriter(l) { LogStep(s.server, false, l); }
    }
  }

  /** On the client nothing ever follows a torn call. */
  lemma ClientClean(events: seq<Event>)
    ensures Clean(Run(events).client.wr.calls)
  {
    LogAlways(events);
  }

  // ---------------------------------------------------------------- the packets

  function Sender(s: System, toServer: bool): (x: Endpoint) { if toServer then s.client else s.server }

  function Receiver(s: System, toServer: bool): (x: Endpoint) { if toServer then s.server else s.client }

  function Between(s: System, toServer: bool): (ch: Channel) { if toServer then s.c2s else s.s2c }

  /** Each call was given one capsule: a packet, or something that the receiver must skip. */
  ghost predicate Carried(x: Writer, items: seq<Capsule.Item>) {
    && |items| == |x.calls| && Capsule.AllSendable(items) && Capsule.NoOversize(items)
    && forall i :: 0 <= i < |items| ==> x.calls[i].input == Capsule.WireItem(items[i])
  }

  lemma CarriedWrote(x: Writer, items: seq<Capsule.Item>)
    requires LogOk(x) && Carried(x, items)
    ensures Wrote(items, x.calls)
  {
    assert forall i :: 0 <= i < |x.calls| ==> CallOk(x.calls[i]);
  }

  /** Either way, under every schedule: as long as nothing has been written behind a torn call (on the
      client that cannot happen), the receiver has got a prefix of the packets that were not given up,
      and all of them once the bytes have arrived. */
  lemma PacketsEndToEnd(events: seq<Event>, toServer: bool, items: seq<Capsule.Item>)
    requires Carried(Sender(Run(events), toServer).wr, items)
    requires toServer || Clean(Run(events).server.wr.calls)
    ensures var s := Run(events);
            var got, sent := PacketsIn(Receiver(s, toServer).delivered),
                PacketsCompleted(items, Sender(s, toServer).wr.calls);
            && got <= sent
            && (!Receiver(s, toServer).life.Down? && Sum(Between(s, toServer)).bytes == 0 ==> got == sent)
  {
    var s := Run(events);
    var x, y := Sender(s, toServer).wr, Receiver(s, toServer);
    LogAlways(events);
    ClientClean(events);
    FaithfulAlways(events);
    CarriedWrote(x, items);
    CleanPackets(items, x.calls, y.delivered);
    if !y.life.Down? && Sum(Between(s, toServer)).bytes == 0 {
      NoBytesNoPayload(Between(s, toServer));
      assert y.delivered == x.emitted;
    }
  }

  lemma {:induction false} NoBytesNoPayload(ch: Channel)
    requires Sum(ch).bytes == 0
    ensures Payload(ch) == []
  {
    if ch != [] {
      NoBytesNoPayload(ch[1..]);
    }
  }

  /** In every run, either way: what the sender writes next is understood behind what it has written so
      far, at every point and for every packet, exactly when it has torn no call; and wherever it did go
      on, exactly when it wrote nothing behind a torn call. */
  lemma UnderstoodNext(events: seq<Event>, toServer: bool, ps: seq<Packet.MasquePacket>)
    requires Carried(Sender(Run(events), toServer).wr, Capsule.Bodies(ps))
    requires forall p :: p in ps ==> Capsule.FitsCapsule(p)
    ensures var calls := Sender(Run(events), toServer).wr.calls;
            && (AlwaysUnderstood(Capsule.Bodies(ps), calls) <==> NoneTorn(calls))
            && (UnderstoodOn(Capsule.Bodies(ps), calls) <==> Clean(calls))
  {
    LogAlways(events);
    CarriedWrote(Sender(Run(events), toServer).wr, Capsule.Bodies(ps));
    UnderstoodExactly(ps, Sender(Run(events), toServer).wr.calls);
    CleanExactly(ps, Sender(Run(events), toServer).wr.calls);
  }
}
