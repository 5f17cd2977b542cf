/** END_STREAM between the two ends: it is on the last frame of the call that asked for it and of no other,
    and ends the client's reader. */
module StreamEnd {
  import opened Bytes
  import opened CallLog
  import opened TwoEnds
  import opened Delivery
  import opened Drain

  /** A writer that has ended its stream has nothing left to write, and a call that asked for the end has
      ended the stream once it is complete. */
  predicate EndOk(x: Writer) {
    && (x.ended ==> !Busy(x))
    && (x.end && x.calls != [] && !Busy(x) && Whole(x.calls[|x.calls| - 1]) ==> x.ended)
  }

  lemma EndPut(x: Writer)
    requires EndOk(x) && LogOk(x) && x.hand != []
    ensures EndOk(PutChunk(x))
  {
    if x.rest != [] { assert Busy(PutChunk(x)); }
  }

  lemma EndByWriter(x: Endpoint, client: bool, e: Local)
    requires EndOk(x.wr) && LogOk(x.wr) && OfWriter(e)
    ensures EndOk(Writing(x, client, e).me.wr)
  {
    match e
    case Write(p, end) => EndWrite(x, client, p, end);
    case Check => if x.wr.hand == [] && x.wr.rest != [] && !x.wr.waiting { EndCheck(x, client); }
    case Wake =>
    case GiveUp => if x.wr.waiting { EndDropped(x.wr, client); }
    case Emit => if x.wr.hand != [] { EndPut(x.wr); }
  }

  lemma EndWrite(x: Endpoint, client: bool, p: seq<Byte>, end: bool)
    requires EndOk(x.wr) && LogOk(x.wr)
    ensures EndOk(Writing(x, client, Write(p, end)).me.wr)
  {
  }

  lemma EndCheck(x: Endpoint, client: bool)
    requires EndOk(x.wr) && x.wr.hand == [] && x.wr.rest != [] && !x.wr.waiting
    ensures EndOk(Writing(x, client, Check).me.wr)
  {
    var n := FlowControl.Usable(x.w, |x.wr.rest|);
    if n > 0 { assert TakeChunk(x.wr, n).hand != []; }
  }

  lemma EndDropped(x: Writer, client: bool)
    requires EndOk(x) && LogOk(x) && x.waiting
    ensures EndOk(Dropped(x, client))
  {
    var c := x.calls[|x.calls| - 1];
    assert |c.sent| < |c.input| by { assert |c.sent + x.hand + x.rest| == |c.input|; }
  }

  lemma {:induction false} EndOkAlways(events: seq<Event>)
    ensures EndOk(Run(events).client.wr) && EndOk(Run(events).server.wr)
  {
    if events != [] {
      var s, e := Run(events[..|events| - 1]), events[|events| - 1];
      EndOkAlways(events[..|events| - 1]);
      LogAlways(events[..|events| - 1]);
      match e
      case AtClient(l) => if OfWriter(l) { EndByWriter(s.client, true, l); }
      case AtServer(l) => if OfWriter(l) { EndByWriter(s.server, false, l); }
    }
  }

  // ---------------------------------------------------------------- who ends

  predicate AsksEnd(l: Local) { l.Write? && l.end }

  /** Nobody asked this writer to end its stream, and it has not. */
  predicate Open(x: Writer) { !x.end && !x.ended }

  lemma StaysOpen(x: Endpoint, client: bool, inbox: Channel, l: Local)
    requires Open(x.wr) && !AsksEnd(l)
    ensures Open(Act(x, client, inbox, l).me.wr)
  {
    if OfWriter(l) {
      match l
      case Write(p, end) =>
      case Check =>
      case Wake =>
      case GiveUp =>
      case Emit =>
    }
  }

  /** A stream ends only if a call asked for it. */
  lemma {:induction false} EndIsAsked(events: seq<Event>)
    ensures (forall i :: 0 <= i < |events| && events[i].AtClient? ==> !AsksEnd(events[i].e))
            ==> Open(Run(events).client.wr)
    ensures (forall i :: 0 <= i < |events| && events[i].AtServer? ==> !AsksEnd(events[i].e))
            ==> Open(Run(events).server.wr)
  {
    if events != [] {
      var s, e := Run(events[..|events| - 1]), events[|events| - 1];
      EndIsAsked(events[..|events| - 1]);
      match e
      case AtClient(l) => if !AsksEnd(l) && Open(s.client.wr) { StaysOpen(s.client, true, s.s2c, l); }
      case AtServer(l) => if !AsksEnd(l) && Open(s.server.wr) { StaysOpen(s.server, false, s.c2s, l); }
    }
  }

  // ---------------------------------------------------------------- in the channel

  /** END_STREAM is in the channel only if the stream has ended, and no DATA follows it. */
  predicate EndLast(x: Writer, out: Channel) {
    && (forall i :: 0 <= i < |out| && Ends(out[i]) ==> x.ended)
    && (forall i, j :: 0 <= i < j < |out| && Ends(out[i]) ==> !out[j].Data?)
  }

  lemma EndLastOut(x: Endpoint, client: bool, out: Channel, inbox: Channel, e: Local)
    requires EndLast(x.wr, out) && EndOk(x.wr)
    ensures var r := Act(x, client, inbox, e); EndLast(r.me.wr, out + r.out)
  {
    var r := Act(x, client, inbox, e);
    if OfWriter(e) {
      WritesEnd(x, client, e);
    } else {
      assert r.out != [] ==> !r.out[0].Data?;
    }
  }

  /** An ended writer writes nothing, and a frame with END_STREAM ends it. */
  lemma WritesEnd(x: Endpoint, client: bool, e: Local)
    requires OfWriter(e) && EndOk(x.wr)
    ensures var r := Writing(x, client, e);
            && (x.wr.ended ==> r.me.wr.ended && r.out == [])
            && (r.out != [] ==> r.out[0].Data? && (Ends(r.out[0]) <==> r.me.wr.ended))
            && (r.me.wr.ended && !x.wr.ended ==> r.out != [])
  {
    match e
    case Write(p, end) =>
    case Check =>
    case Wake =>
    case GiveUp =>
    case Emit =>
  }

  lemma EndLastIn(x: Writer, inbox: Channel)
    requires EndLast(x, inbox) && inbox != []
    ensures EndLast(x, inbox[1..])
  {
    assert forall i :: 0 <= i < |inbox| - 1 ==> inbox[1..][i] == inbox[i + 1];
  }

  lemma {:induction false} EndLastAlways(events: seq<Event>)
    ensures EndLast(Run(events).client.wr, Run(events).c2s) && EndLast(Run(events).server.wr, Run(events).s2c)
  {
    if events != [] {
      var s, e := Run(events[..|events| - 1]), events[|events| - 1];
      EndLastAlways(events[..|events| - 1]);
      EndOkAlways(events[..|events| - 1]);
      match e
      case AtClient(l) =>
        EndLastOut(s.client, true, s.c2s, s.s2c, l);
        if Act(s.client, true, s.s2c, l).pop { EndLastIn(s.server.wr, s.s2c); }
      case AtServer(l) =>
        EndLastOut(s.server, false, s.s2c, s.c2s, l);
        if Act(s.server, false, s.c2s, l).pop { EndLastIn(s.client.wr, s.c2s); }
    }
  }

  // ---------------------------------------------------------------- at the client's reader

  ghost predicate EndUnderway(out: Channel) { exists i :: 0 <= i < |out| && Ends(out[i]) }

  /** Once the server has ended the stream, END_STREAM is on its way or the client's reader no longer reads. */
  ghost predicate EndReaches(s: System) {
    s.server.wr.ended ==> EndUnderway(s.s2c) || !s.client.life.Up?
  }

  lemma EndStaysUnderway(out: Channel, more: Channel)
    requires EndUnderway(out)
    ensures EndUnderway(out + more)
  {
    var i :| 0 <= i < |out| && Ends(out[i]);
    assert (out + more)[i] == out[i];
  }

  lemma EndByServer(s: System, l: Local)
    requires EndReaches(s) && EndOk(s.server.wr)
    ensures EndReaches(Step(s, AtServer(l)))
  {
    var r := Act(s.server, false, s.c2s, l);
    if s.server.wr.ended {
      if EndUnderway(s.s2c) { EndStaysUnderway(s.s2c, r.out); }
    } else if OfWriter(l) {
      WritesEnd(s.server, false, l);
      if r.me.wr.ended { assert Ends((s.s2c + r.out)[|s.s2c|]); }
    }
  }

  lemma EndByClient(s: System, l: Local)
    requires EndReaches(s)
    ensures EndReaches(Step(s, AtClient(l)))
  {
    var r := Act(s.client, true, s.s2c, l);
    if s.server.wr.ended && EndUnderway(s.s2c) && r.pop {
      var i :| 0 <= i < |s.s2c| && Ends(s.s2c[i]);
      if i == 0 {
        EndStopsReader(s.client, s.s2c[0], l.pipeOk);
      } else {
        assert Ends(s.s2c[1..][i - 1]);
      }
    } else if s.server.wr.ended && !r.pop {
      ReaderNotRevived(s.client, s.s2c, l);
    }
  }

  lemma EndStopsReader(x: Endpoint, f: Frame, ok: bool)
    requires Ends(f)
    ensures !Receiving(x, true, f, ok).life.Up?
  {
  }

  lemma ReaderNotRevived(x: Endpoint, inbox: Channel, l: Local)
    requires !Act(x, true, inbox, l).pop
    ensures !x.life.Up? ==> !Act(x, true, inbox, l).me.life.Up?
  {
    if OfWriter(l) || OfOpening(l) {
    } else if !l.Receive? {
      match l
      case PayConn =>
      case PayStream =>
      case PayAck =>
      case Post =>
      case Die =>
    }
  }

  /** In every run: once the server has ended the stream, the end is on its way to the client, behind all DATA, or
      has stopped the client's reader. */
  lemma {:induction false} EndReachesAlways(events: seq<Event>)
    ensures EndReaches(Run(events))
  {
    if events != [] {
      var s, e := Run(events[..|events| - 1]), events[|events| - 1];
      EndReachesAlways(events[..|events| - 1]);
      EndOkAlways(events[..|events| - 1]);
      match e
      case AtClient(l) => EndByClient(s, l);
      case AtServer(l) => EndByServer(s, l);
    }
  }
}
