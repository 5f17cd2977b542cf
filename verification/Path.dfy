/** The reconnectable path: one current carrier behind a mutex, swapped by the run loop, dropped by
    failing writers, and gone after Close. */
module Path {
  import opened Bytes
  import opened Packet
  import opened Wrappers

  /** Carriers are numbered in the order in which they were dialled. */
  type Carrier = nat

  // ---------------------------------------------------------------- backoff

  const INITIAL_BACKOFF := 250
  const MAX_BACKOFF := 10_000

  function Pow2(n: nat): (r: nat)
    ensures r >= 1
  {
    if n == 0 then 1 else 2 * Pow2(n - 1)
  }

  function Doubled(attempt: int): (ms: nat) {
    if attempt <= 0 then 0
    else if INITIAL_BACKOFF * Pow2(attempt - 1) < MAX_BACKOFF then INITIAL_BACKOFF * Pow2(attempt - 1)
    else MAX_BACKOFF
  }

  lemma {:induction false} Pow2Monotone(a: nat, b: nat)
    requires a <= b
    ensures Pow2(a) <= Pow2(b)
  {
    if a < b { Pow2Monotone(a, b - 1); }
  }

  /** The waits in figures. */
  lemma Waits(attempt: int)
    ensures attempt <= 0 ==> Doubled(attempt) == 0
    ensures Doubled(1) == 250 && Doubled(2) == 500 && Doubled(3) == 1000 && Doubled(4) == 2000
    ensures Doubled(5) == 4000 && Doubled(6) == 8000
    ensures attempt >= 7 ==> Doubled(attempt) == 10_000
  {
    assert Pow2(3) == 8 && Pow2(5) == 32 && Pow2(6) == 64;
    if attempt >= 7 { Pow2Monotone(6, attempt - 1); }
  }

  /** masqueReconnectBackoff, in milliseconds: 250 ms doubled per attempt after the first, capped at
      10 s; no wait before the first attempt. */
  method ReconnectBackoff(attempt: int) returns (ms: nat)
    ensures ms == Doubled(attempt)
  {
    if attempt <= 0 { return 0; }
    var d := INITIAL_BACKOFF;
    var i := 1;
    while i < attempt && d < MAX_BACKOFF
      invariant 1 <= i <= attempt
      invariant d == INITIAL_BACKOFF * Pow2(i - 1) < MAX_BACKOFF
    {
      d := d * 2;
      if d >= MAX_BACKOFF {
        Pow2Monotone(i, attempt - 1);
        return MAX_BACKOFF;
      }
      i := i + 1;
    }
    return d;
  }

  // ---------------------------------------------------------------- the mutex sections

  /** The two fields that stateMu guards. */
  datatype Slot = Slot(pc: Option<Carrier>, closed: bool)

  /** A section returns the new fields and the carrier that its caller must close. */
  datatype Section = Section(slot: Slot, drop: Option<Carrier>)

  /** packetConn: the current carrier, unless there is none. */
  function Current(s: Slot): (c: Option<Carrier>) { if s.closed then None else s.pc }

  function Replace(s: Slot, c: Carrier): (r: Section) {
    if s.closed then Section(s, Some(c))
    else Section(s.(pc := Some(c)), if s.pc.Some? && s.pc.value != c then s.pc else None)
  }

  function Retire(s: Slot, failed: Carrier): (r: Section) {
    Section(if s.pc == Some(failed) then s.(pc := None) else s, Some(failed))
  }

  function Shut(s: Slot): (r: Section) {
    if s.closed then Section(s, None) else Section(Slot(None, true), s.pc)
  }

  /** How a carrier takes a datagram. */
  datatype WriteResult = Wrote | TooLarge | Broken

  /** What ForwardPacket reports. */
  datatype Forwarded = Accepted | NoCarrier | PacketTooLarge | CarrierLost

  class MasquePath {
    var pc: Option<Carrier>
    var closed: bool
    /** The carriers that Close has been called on. */
    var closedCarriers: set<Carrier>
    /** The datagrams that carriers have taken. */
    var sent: seq<(Carrier, seq<Byte>)>

    ghost predicate Valid()
      reads this
    {
      closed ==> pc == None
    }

    constructor (first: Carrier)
      ensures Valid() && View() == Slot(Some(first), false) && closedCarriers == {} && sent == []
    {
      pc, closed, closedCarriers, sent := Some(first), false, {}, [];
    }

    function View(): Slot
      reads this
    {
      Slot(pc, closed)
    }

    method PacketConn() returns (c: Option<Carrier>)
      ensures c == Current(View())
    {
      if closed || pc == None { return None; }
      return pc;
    }

    /** A carrier that comes too late is closed, not installed; the one it replaces is closed. */
    method ReplacePacketConn(c: Carrier) returns (ok: bool)
      requires Valid()
      modifies this
      ensures Valid() && View() == Replace(old(View()), c).slot && sent == old(sent)
      ensures ok == !old(closed)
      ensures closedCarriers == old(closedCarriers) + ToSet(Replace(old(View()), c).drop)
    {
      if closed {
        closedCarriers := closedCarriers + {c};
        return false;
      }
      var previous := pc;
      pc := Some(c);
      if previous.Some? && previous.value != c { closedCarriers := closedCarriers + {previous.value}; }
      return true;
    }

    method RetirePacketConn(failed: Option<Carrier>)
      requires Valid()
      modifies this
      ensures Valid() && sent == old(sent)
      ensures failed.Some? ==>
                View() == Retire(old(View()), failed.value).slot
                    && closedCarriers == old(closedCarriers) + {failed.value}
      ensures failed.None? ==> View() == old(View()) && closedCarriers == old(closedCarriers)
    {
      if failed.None? { return; }
      if pc == failed { pc := None; }
      closedCarriers := closedCarriers + {failed.value};
    }

    method Close()
      requires Valid()
      modifies this
      ensures Valid() && View() == Shut(old(View())).slot && closed && sent == old(sent)
      ensures closedCarriers == old(closedCarriers) + ToSet(Shut(old(View())).drop)
    {
      if closed { return; }
      closed := true;
      var last := pc;
      pc := None;
      if last.Some? { closedCarriers := closedCarriers + {last.value}; }
    }

    /** Disco frames never leave; a datagram that is too large costs only itself; any other write error
        costs the carrier it was written to, and nothing else. */
    method ForwardPacket(p: MasquePacket, result: WriteResult) returns (r: Forwarded)
      requires Valid()
      modifies this
      ensures Valid() && closed == old(closed)
      ensures HasPrefix(p.payload, DISCO_MAGIC) ==> r == Accepted && View() == old(View()) && sent == old(sent)
      ensures !HasPrefix(p.payload, DISCO_MAGIC) ==>
                && (r == NoCarrier <==> Current(old(View())) == None)
                && sent == (if r == Accepted then old(sent) + [(old(pc).value, Encode(p))] else old(sent))
                && (r == Accepted <==> Current(old(View())).Some? && result == Wrote)
                && (r == PacketTooLarge <==> Current(old(View())).Some? && result == TooLarge)
                && (r == CarrierLost <==> Current(old(View())).Some? && result == Broken)
      ensures pc == if r == CarrierLost then None else old(pc)
      ensures closedCarriers == old(closedCarriers) + if r == CarrierLost then ToSet(old(pc)) else {}
    {
      if HasPrefix(p.payload, DISCO_MAGIC) { return Accepted; }
      var c := PacketConn();
      if c.None? { return NoCarrier; }
      match result
      case Wrote =>
        sent := sent + [(c.value, Encode(p))];
        r := Accepted;
      case TooLarge => r := PacketTooLarge;
      case Broken =>
        RetirePacketConn(c);
        r := CarrierLost;
    }
  }

  function ToSet(c: Option<Carrier>): set<Carrier> { if c.Some? then {c.value} else {} }
}
