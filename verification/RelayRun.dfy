/** Native and browser sessions on one relay, in any interleaving. */
module RelayRun {
  import opened Bytes
  import opened Packet
  import opened Wrappers
  import opened Authenticator
  import AuthRun

  datatype Kind = Native | Browser

  /** A native session accepts its stream between reservation and activation, a browser session has
      upgraded before. Holding spans from reserve to unregister. */
  datatype Pc = Begun | Proven | Reserved | Accepted | Active | Routing(body: seq<Byte>, dest: nat) | Leaving | Gone

  /** `proof` is the place of the accepted proof in the authenticator's log, once there is one; `fwd` says that the
      session's forwarder has been published in its registry entry. */
  datatype Session = Session(kind: Kind, key: Key, pc: Pc, proof: Option<nat>, fwd: bool)

  /** A datagram handed to the forwarder of session `dest`. */
  datatype Forward = Forward(from: nat, dest: nat, received: seq<Byte>, sent: seq<Byte>)

  /** The registry maps a key to the session whose relayPeer it holds. */
  datatype State = State(
    auth: AuthRun.State,
    sessions: seq<Session>,
    peers: map<Key, nat>,
    forwards: seq<Forward>,
    failedActivations: nat)

  datatype Event =
    | Begin(kind: Kind, key: Key)
    | Challenged(i: nat, client: string, now: int, nonce: Option<Token>, kept: set<Token>)
    | Prove(i: nat, proof: Proof, now: int)
    | Reserve(i: nat)
    | AcceptStream(i: nat, ok: bool)
    | Activate(i: nat)
    | Receive(i: nat, body: seq<Byte>)
    | Send(i: nat)
    | End(i: nat)

  const INIT := State(AuthRun.INIT, [], map[], [], 0)

  predicate Holding(s: Session) {
    s.pc.Reserved? || s.pc.Accepted? || s.pc.Active? || s.pc.Routing? || s.pc.Leaving?
  }

  function At(s: State, i: nat, pc: Pc): (t: State)
    requires i < |s.sessions|
  {
    s.(sessions := s.sessions[i := s.sessions[i].(pc := pc)])
  }

  /** lookup: the session that a key leads to, if it has published its forwarder. */
  predicate Found(s: State, k: Key) {
    k in s.peers && s.peers[k] < |s.sessions| && s.sessions[s.peers[k]].fwd
  }

  /** The session loop on one datagram: drop what is malformed, spoofed or disco, else look up. */
  function Routed(s: State, i: nat, body: seq<Byte>): (pc: Pc)
    requires i < |s.sessions|
  {
    match Decode(body)
    case Decoded(p) =>
      if p.src == s.sessions[i].key && !HasPrefix(p.payload, DISCO_MAGIC) && Found(s, p.dst)
      then Routing(body, s.peers[p.dst]) else Active
    case _ => Active
  }

  /** What ForwardPacket sends for a datagram that Routed let through. */
  function Reencoded(body: seq<Byte>): (b: seq<Byte>) {
    match Decode(body)
    case Decoded(p) => Encode(MasquePacket(p.src, p.dst, p.payload))
    case _ => []
  }

  ghost function Step(s: State, e: Event): (t: State) {
    match e
    case Begin(kind, key) => s.(sessions := s.sessions + [Session(kind, key, Begun, None, false)])
    case Challenged(i, client, now, nonce, kept) =>
      if i < |s.sessions| && s.sessions[i].pc.Begun?
      then
        var req := Request(s.sessions[i].key, s.sessions[i].key, Relay, client);
        s.(auth := AuthRun.Step(s.auth, AuthRun.Issue(req, now, nonce, kept)))
      else s
    case Prove(i, proof, now) =>
      if i < |s.sessions| && s.sessions[i].pc.Begun? then Proved(s, i, proof, now) else s
    case Reserve(i) =>
      if i < |s.sessions| && s.sessions[i].pc.Proven? then
        if s.sessions[i].key in s.peers then At(s, i, Gone)
        else At(s, i, Reserved).(peers := s.peers[s.sessions[i].key := i])
      else s
    case AcceptStream(i, ok) =>
      if i < |s.sessions| && s.sessions[i].pc.Reserved? && s.sessions[i].kind.Native?
      then At(s, i, if ok then Accepted else Leaving) else s
    case Activate(i) =>
      if i < |s.sessions|
         && (if s.sessions[i].kind.Native? then s.sessions[i].pc.Accepted? else s.sessions[i].pc.Reserved?)
      then Activated(s, i) else s
    case Receive(i, body) =>
      if i < |s.sessions| && s.sessions[i].pc.Active? then At(s, i, Routed(s, i, body)) else s
    case Send(i) =>
      if i < |s.sessions| && s.sessions[i].pc.Routing? then
        var pc := s.sessions[i].pc;
        At(s, i, Active).(forwards := s.forwards + [Forward(i, pc.dest, pc.body, Reencoded(pc.body))])
      else s
    case End(i) =>
      if i < |s.sessions| && Holding(s.sessions[i]) then Ended(s, i) else s
  }

  ghost function Proved(s: State, i: nat, proof: Proof, now: int): (t: State)
    requires i < |s.sessions|
  {
    var k := s.sessions[i].key;
    var auth := AuthRun.Step(s.auth, AuthRun.Verify(proof, k, k, Relay, now));
    if Accepts(s.auth.pending, proof, k, k, Relay, now)
    then s.(auth := auth, sessions := s.sessions[i := s.sessions[i].(pc := Proven, proof := Some(|s.auth.accepted|))])
    else At(s.(auth := auth), i, Gone)
  }

  /** activate tests that the entry is this session's and has no forwarder yet. */
  function Activated(s: State, i: nat): (t: State)
    requires i < |s.sessions|
  {
    var k := s.sessions[i].key;
    if k in s.peers && s.peers[k] == i && !s.sessions[i].fwd
    then s.(sessions := s.sessions[i := s.sessions[i].(pc := Active, fwd := true)])
    else At(s, i, Leaving).(failedActivations := s.failedActivations + 1)
  }

  /** The deferred unregister. */
  function Ended(s: State, i: nat): (t: State)
    requires i < |s.sessions|
  {
    var k := s.sessions[i].key;
    var t := At(s, i, Gone);
    if k in s.peers && s.peers[k] == i then t.(peers := s.peers - {k}) else t
  }

  ghost function Run(events: seq<Event>): (s: State) {
    if events == [] then INIT else Step(Run(events[..|events| - 1]), events[|events| - 1])
  }

  // ---------------------------------------------------------------- exclusivity

  /** The entry of a key and the one session between its reserve and unregister are the same thing. */
  predicate Exclusive(s: State) {
    && (forall k :: k in s.peers ==>
          s.peers[k] < |s.sessions| && s.sessions[s.peers[k]].key == k && Holding(s.sessions[s.peers[k]]))
    && (forall i :: 0 <= i < |s.sessions| && Holding(s.sessions[i]) ==>
          s.sessions[i].key in s.peers && s.peers[s.sessions[i].key] == i)
  }

  predicate PublishedOk(x: Session) {
    match x.pc
    case Begun => !x.fwd
    case Proven => !x.fwd
    case Reserved => !x.fwd
    case Accepted => !x.fwd
    case Active => x.fwd
    case Routing(_, _) => x.fwd
    case Leaving => !x.fwd
    case Gone => true
  }

  /** The forwarder is published by activation and by nothing else, and no activation fails. */
  predicate Published(s: State) {
    && (forall i :: 0 <= i < |s.sessions| ==> PublishedOk(s.sessions[i]))
    && s.failedActivations == 0
  }

  lemma RegistryStep(s: State, e: Event)
    requires Exclusive(s) && Published(s)
    ensures Exclusive(Step(s, e)) && Published(Step(s, e))
  {
    match e
    case Reserve(i) => if i < |s.sessions| && s.sessions[i].pc.Proven? { ReserveStep(s, i); }
    case End(i) => if i < |s.sessions| && Holding(s.sessions[i]) { EndStep(s, i); }
    case Activate(i) => if i < |s.sessions| && Holding(s.sessions[i]) { ActivateStep(s, i); }
    case _ => LocalStep(s, e);
  }

  lemma ReserveStep(s: State, i: nat)
    requires Exclusive(s) && Published(s) && i < |s.sessions| && s.sessions[i].pc.Proven?
    ensures Exclusive(Step(s, Reserve(i))) && Published(Step(s, Reserve(i)))
  {
    var k := s.sessions[i].key;
    if k in s.peers {
      Replaced(s, i, s.sessions[i].(pc := Gone));
    } else {
      Claimed(s, i, s.sessions[i].(pc := Reserved));
    }
  }

  /** A session that takes a free key. */
  lemma Claimed(s: State, i: nat, x: Session)
    requires Exclusive(s) && Published(s) && i < |s.sessions| && !Holding(s.sessions[i]) && x.key !in s.peers
    requires x.key == s.sessions[i].key && Holding(x) && PublishedOk(x)
    ensures var t := s.(sessions := s.sessions[i := x], peers := s.peers[x.key := i]); Exclusive(t) && Published(t)
  {
    var t := s.(sessions := s.sessions[i := x], peers := s.peers[x.key := i]);
    assert forall j :: 0 <= j < |s.sessions| && j != i ==> t.sessions[j] == s.sessions[j];
    assert t.sessions[i] == x;
  }

  lemma EndStep(s: State, i: nat)
    requires Exclusive(s) && Published(s) && i < |s.sessions| && Holding(s.sessions[i])
    ensures Exclusive(Ended(s, i)) && Published(Ended(s, i))
    ensures Ended(s, i).peers == s.peers - {s.sessions[i].key} && s.sessions[i].key in s.peers
  {
  }

  lemma ActivateStep(s: State, i: nat)
    requires Exclusive(s) && Published(s) && i < |s.sessions| && Holding(s.sessions[i])
    ensures Exclusive(Step(s, Activate(i))) && Published(Step(s, Activate(i)))
  {
  }

  /** Changing one session without touching its claim on the key. */
  lemma Replaced(s: State, i: nat, x: Session)
    requires Exclusive(s) && Published(s) && i < |s.sessions|
    requires x.key == s.sessions[i].key && Holding(x) == Holding(s.sessions[i]) && PublishedOk(x)
    ensures Exclusive(s.(sessions := s.sessions[i := x])) && Published(s.(sessions := s.sessions[i := x]))
  {
  }

  /** Only the sessions and the registry matter here. */
  lemma SameRegistry(s: State, t: State)
    requires Exclusive(s) && Published(s)
    requires t.sessions == s.sessions && t.peers == s.peers && t.failedActivations == s.failedActivations
    ensures Exclusive(t) && Published(t)
  {
  }

  lemma ProveStep(s: State, i: nat, proof: Proof, now: int)
    requires Exclusive(s) && Published(s) && i < |s.sessions| && s.sessions[i].pc.Begun?
    ensures Exclusive(Proved(s, i, proof, now)) && Published(Proved(s, i, proof, now))
  {
    var t := Proved(s, i, proof, now);
    Replaced(s, i, t.sessions[i]);
    SameRegistry(s.(sessions := s.sessions[i := t.sessions[i]]), t);
  }

  lemma LocalStep(s: State, e: Event)
    requires Exclusive(s) && Published(s) && !e.Reserve? && !e.End? && !e.Activate?
    ensures Exclusive(Step(s, e)) && Published(Step(s, e))
  {
    var t := Step(s, e);
    match e
    case Begin(kind, key) =>
    case Challenged(i, client, now, nonce, kept) => SameRegistry(s, t);
    case Prove(i, proof, now) => if i < |s.sessions| && s.sessions[i].pc.Begun? { ProveStep(s, i, proof, now); }
    case AcceptStream(i, ok) => if t != s { Replaced(s, i, t.sessions[i]); }
    case Receive(i, body) => if i < |s.sessions| && s.sessions[i].pc.Active? { Replaced(s, i, t.sessions[i]); }
    case Send(i) =>
      if i < |s.sessions| && s.sessions[i].pc.Routing? {
        Replaced(s, i, t.sessions[i]);
        SameRegistry(At(s, i, Active), t);
      }
  }

  /** In every run: one session per key, published only when active, no failed activation. */
  lemma {:induction false} RegistryAlways(events: seq<Event>)
    ensures Exclusive(Run(events)) && Published(Run(events))
  {
    if events != [] {
      RegistryAlways(events[..|events| - 1]);
      RegistryStep(Run(events[..|events| - 1]), events[|events| - 1]);
    }
  }

  /** What lookup can find: the one holder of the key, after its activation and before its end. */
  lemma LookupFindsActive(events: seq<Event>, k: Key)
    ensures var s := Run(events);
            Found(s, k) ==>
              && (s.sessions[s.peers[k]].pc.Active? || s.sessions[s.peers[k]].pc.Routing?)
              && s.sessions[s.peers[k]].key == k
              && forall i :: 0 <= i < |s.sessions| && i != s.peers[k] && s.sessions[i].key == k ==>
                   !Holding(s.sessions[i])
  {
    RegistryAlways(events);
  }

  /** What a step may do to one session: its key and a published forwarder stay, and beyond its proof it
      keeps the proof, does not begin again, and once gone stays gone. */
  predicate Onward(x: Session, y: Session) {
    && y.key == x.key && (x.fwd ==> y.fwd)
    && (!x.pc.Begun? ==> y.proof == x.proof && !y.pc.Begun? && (x.pc.Gone? ==> y.pc.Gone?))
  }

  lemma SessionStep(s: State, e: Event, i: nat)
    requires i < |s.sessions|
    ensures |s.sessions| <= |Step(s, e).sessions| && Onward(s.sessions[i], Step(s, e).sessions[i])
  {
    SessionsGrow(s, e);
    match e
    case Begin(_, _) =>
    case Challenged(_, _, _, _, _) =>
    case Prove(j, proof, now) => if j < |s.sessions| && s.sessions[j].pc.Begun? { ProvedOnward(s, j, proof, now, i); }
    case Reserve(_) =>
    case AcceptStream(_, _) =>
    case Activate(j) => if j < |s.sessions| { ActivatedOnward(s, j, i); }
    case Receive(_, _) =>
    case Send(_) =>
    case End(_) =>
  }

  lemma ProvedOnward(s: State, j: nat, proof: Proof, now: int, i: nat)
    requires i < |s.sessions| && j < |s.sessions| && s.sessions[j].pc.Begun?
    ensures Onward(s.sessions[i], Proved(s, j, proof, now).sessions[i])
  {
  }

  lemma ActivatedOnward(s: State, j: nat, i: nat)
    requires i < |s.sessions| && j < |s.sessions|
    ensures s.sessions[j].pc.Accepted? || s.sessions[j].pc.Reserved? ==>
        Onward(s.sessions[i], Activated(s, j).sessions[i])
  {
  }

  lemma EntryStep(s: State, e: Event, k: Key)
    requires k in s.peers && !(e.End? && e.i == s.peers[k])
    ensures k in Step(s, e).peers && Step(s, e).peers[k] == s.peers[k]
  {
    match e
    case Begin(_, _) =>
    case Challenged(_, _, _, _, _) =>
    case Prove(_, _, _) =>
    case Reserve(_) =>
    case AcceptStream(_, _) =>
    case Activate(_) =>
    case Receive(_, _) =>
    case Send(_) =>
    case End(_) =>
  }

  /** A published forwarder stays, sessions keep their key, and only a session's own end frees its key:
      the end of one session leaves every other entry as it is. */
  lemma StepStable(s: State, e: Event)
    ensures var t := Step(s, e);
            && |s.sessions| <= |t.sessions|
            && (forall i :: 0 <= i < |s.sessions| ==>
                  t.sessions[i].key == s.sessions[i].key && (s.sessions[i].fwd ==> t.sessions[i].fwd))
            && (forall k :: k in s.peers && !(e.End? && e.i == s.peers[k]) ==> k in t.peers && t.peers[k] == s.peers[k])
  {
    var t := Step(s, e);
    SessionsGrow(s, e);
    forall i | 0 <= i < |s.sessions| ensures Onward(s.sessions[i], t.sessions[i]) { SessionStep(s, e, i); }
    forall k | k in s.peers && !(e.End? && e.i == s.peers[k])
      ensures k in t.peers && t.peers[k] == s.peers[k]
    {
      EntryStep(s, e, k);
    }
  }

  lemma SessionsGrow(s: State, e: Event)
    ensures |s.sessions| <= |Step(s, e).sessions|
  {
    match e
    case Begin(_, _) =>
    case Challenged(_, _, _, _, _) =>
    case Prove(_, _, _) =>
    case Reserve(_) =>
    case AcceptStream(_, _) =>
    case Activate(_) =>
    case Receive(_, _) =>
    case Send(_) =>
    case End(_) =>
  }

  // ---------------------------------------------------------------- provenance

  /** The session was authorized: its proof was accepted for (key, key, relay). */
  predicate Authorized(s: State, i: nat) {
    && i < |s.sessions| && s.sessions[i].proof.Some? && s.sessions[i].proof.value < |s.auth.accepted|
    && var a := s.auth.accepted[s.sessions[i].proof.value];
    a.src == s.sessions[i].key && a.target == s.sessions[i].key && a.mode == Relay
  }

  /** The datagram is a packet from the session's own key, and `dest` has published a forwarder under
      the packet's destination key. */
  predicate Allowed(s: State, from: nat, dest: nat, body: seq<Byte>) {
    && from < |s.sessions| && dest < |s.sessions|
    && Decode(body).Decoded?
    && Decode(body).packet.src == s.sessions[from].key
    && Decode(body).packet.dst == s.sessions[dest].key && s.sessions[dest].fwd
  }

  predicate Past(x: Session) { !x.pc.Begun? && !x.pc.Gone? }

  predicate Admitted(x: Session) { x.proof.Some? }

  /** Beyond the proof there are only admitted sessions, and every admitted one is authorized. */
  predicate SessionsProven(s: State) {
    forall i :: 0 <= i < |s.sessions| ==>
      && (Past(s.sessions[i]) ==> Admitted(s.sessions[i]))
      && (Admitted(s.sessions[i]) ==> Authorized(s, i) && !s.sessions[i].pc.Begun?)
  }

  predicate RoutesAllowed(s: State) {
    forall i :: 0 <= i < |s.sessions| && s.sessions[i].pc.Routing? ==>
      Allowed(s, i, s.sessions[i].pc.dest, s.sessions[i].pc.body)
  }

  /** Each forwarded datagram came from an authorized session under that session's own key, went to a
      forwarder published under its destination key, and was passed on byte for byte. */
  predicate ForwardOk(s: State, f: Forward) {
    && Allowed(s, f.from, f.dest, f.received) && Authorized(s, f.from) && !s.sessions[f.from].pc.Begun?
    && f.sent == f.received
  }

  predicate ForwardsOk(s: State) { forall n :: 0 <= n < |s.forwards| ==> ForwardOk(s, s.forwards[n]) }

  /** Logs only grow, and no session goes back. */
  lemma Stable(s: State, e: Event)
    ensures var t := Step(s, e);
            && |s.auth.accepted| <= |t.auth.accepted|
            && (forall n :: 0 <= n < |s.auth.accepted| ==> t.auth.accepted[n] == s.auth.accepted[n])
            && (forall i :: 0 <= i < |s.sessions| && !s.sessions[i].pc.Begun? ==>
                  t.sessions[i].proof == s.sessions[i].proof && !t.sessions[i].pc.Begun?
                  && (s.sessions[i].pc.Gone? ==> t.sessions[i].pc.Gone?))
  {
    var t := Step(s, e);
    LogGrows(s, e);
    SessionsGrow(s, e);
    forall i | 0 <= i < |s.sessions| ensures Onward(s.sessions[i], t.sessions[i]) { SessionStep(s, e, i); }
  }

  lemma LogGrows(s: State, e: Event)
    ensures s.auth.accepted <= Step(s, e).auth.accepted
  {
    match e
    case Prove(i, proof, now) =>
    case Challenged(_, _, _, _, _) =>
    case _ =>
  }

  lemma AllowedStays(s: State, e: Event, from: nat, dest: nat, body: seq<Byte>)
    requires Allowed(s, from, dest, body)
    ensures Allowed(Step(s, e), from, dest, body)
  {
    StepStable(s, e);
  }

  lemma AuthorizedStays(s: State, e: Event, i: nat)
    requires Authorized(s, i) && !s.sessions[i].pc.Begun?
    ensures Authorized(Step(s, e), i) && !Step(s, e).sessions[i].pc.Begun?
  {
    StepStable(s, e);
    Stable(s, e);
  }

  lemma SessionsProvenStep(s: State, e: Event)
    requires SessionsProven(s)
    ensures SessionsProven(Step(s, e))
  {
    var t := Step(s, e);
    Stable(s, e);
    forall i | 0 <= i < |t.sessions|
      ensures Past(t.sessions[i]) ==> Admitted(t.sessions[i])
      ensures Admitted(t.sessions[i]) ==> Authorized(t, i) && !t.sessions[i].pc.Begun?
    {
      if i < |s.sessions| && !s.sessions[i].pc.Begun? {
        if Admitted(s.sessions[i]) { AuthorizedStays(s, e, i); }
      } else {
        ProvenNow(s, e, i);
      }
    }
  }

  /** A session that has not been proven yet is proven by its own Prove step only. */
  lemma ProvenNow(s: State, e: Event, i: nat)
    requires i < |Step(s, e).sessions| && (i < |s.sessions| ==> s.sessions[i].pc.Begun? && !Admitted(s.sessions[i]))
    ensures var x := Step(s, e).sessions[i];
            && (Past(x) ==> Admitted(x))
            && (Admitted(x) ==> e.Prove? && e.i == i && x.proof == Some(|s.auth.accepted|) && !x.pc.Begun?)
            && (Admitted(x) ==> Authorized(Step(s, e), i))
  {
    match e
    case Begin(_, _) =>
    case Challenged(_, _, _, _, _) =>
    case Prove(_, _, _) =>
    case Reserve(_) =>
    case AcceptStream(_, _) =>
    case Activate(_) =>
    case Receive(_, _) =>
    case Send(_) =>
    case End(_) =>
  }

  lemma RoutesAllowedStep(s: State, e: Event)
    requires Exclusive(s) && RoutesAllowed(s)
    ensures RoutesAllowed(Step(s, e))
  {
    var t := Step(s, e);
    SessionsGrow(s, e);
    forall i | 0 <= i < |t.sessions| && t.sessions[i].pc.Routing?
      ensures Allowed(t, i, t.sessions[i].pc.dest, t.sessions[i].pc.body)
    {
      RoutingFrom(s, e, i);
      AllowedStays(s, e, i, t.sessions[i].pc.dest, t.sessions[i].pc.body);
    }
  }

  /** A session that routes did so before, or has just received a datagram that it may route. */
  lemma RoutingFrom(s: State, e: Event, i: nat)
    requires Exclusive(s) && RoutesAllowed(s) && i < |Step(s, e).sessions| && Step(s, e).sessions[i].pc.Routing?
    ensures Allowed(s, i, Step(s, e).sessions[i].pc.dest, Step(s, e).sessions[i].pc.body)
  {
    if e.Receive? && e.i == i {
      if i < |s.sessions| && s.sessions[i].pc.Active? { RouteFound(s, i, e.body); }
    } else {
      StillRouting(s, e, i);
    }
  }

  lemma StillRouting(s: State, e: Event, i: nat)
    requires i < |Step(s, e).sessions| && Step(s, e).sessions[i].pc.Routing? && !(e.Receive? && e.i == i)
    ensures i < |s.sessions| && s.sessions[i].pc == Step(s, e).sessions[i].pc
  {
    match e
    case Begin(_, _) =>
    case Challenged(_, _, _, _, _) =>
    case Prove(_, _, _) =>
    case Reserve(_) =>
    case AcceptStream(_, _) =>
    case Activate(_) =>
    case Receive(_, _) =>
    case Send(_) =>
    case End(_) =>
  }

  lemma RouteFound(s: State, i: nat, body: seq<Byte>)
    requires Exclusive(s) && i < |s.sessions|
    ensures Routed(s, i, body).Routing? ==> Allowed(s, i, Routed(s, i, body).dest, Routed(s, i, body).body)
  {
  }

  lemma ForwardsOkStep(s: State, e: Event)
    requires SessionsProven(s) && RoutesAllowed(s) && ForwardsOk(s)
    ensures ForwardsOk(Step(s, e))
  {
    var t := Step(s, e);
    forall n | 0 <= n < |t.forwards| ensures ForwardOk(t, t.forwards[n]) {
      var f := t.forwards[n];
      if n == |s.forwards| {
        DecodedIffEncoded(f.received, Decode(f.received).packet);
      }
      AllowedStays(s, e, f.from, f.dest, f.received);
      AuthorizedStays(s, e, f.from);
    }
  }

  /** Provenance of everything the relay forwards, in every run. */
  lemma {:induction false} ProvenanceAlways(events: seq<Event>)
    ensures SessionsProven(Run(events)) && RoutesAllowed(Run(events)) && ForwardsOk(Run(events))
  {
    if events != [] {
      var s, e := Run(events[..|events| - 1]), events[|events| - 1];
      ProvenanceAlways(events[..|events| - 1]);
      RegistryAlways(events[..|events| - 1]);
      SessionsProvenStep(s, e);
      RoutesAllowedStep(s, e);
      ForwardsOkStep(s, e);
    }
  }

  // ---------------------------------------------------------------- the authenticator inside

  /** What a step of the relay asks of its authenticator. */
  function AuthEvents(s: State, e: Event): (es: seq<AuthRun.Event>) {
    match e
    case Challenged(i, client, now, nonce, kept) =>
      if i < |s.sessions| && s.sessions[i].pc.Begun?
      then [AuthRun.Issue(Request(s.sessions[i].key, s.sessions[i].key, Relay, client), now, nonce, kept)] else []
    case Prove(i, proof, now) =>
      if i < |s.sessions| && s.sessions[i].pc.Begun?
      then [AuthRun.Verify(proof, s.sessions[i].key, s.sessions[i].key, Relay, now)] else []
    case _ => []
  }

  ghost function AuthTrace(events: seq<Event>): (es: seq<AuthRun.Event>) {
    if events == [] then [] else
    var before := events[..|events| - 1];
    AuthTrace(before) + AuthEvents(Run(before), events[|events| - 1])
  }

  lemma AuthStep(s: State, e: Event)
    ensures Step(s, e).auth == (var es := AuthEvents(s, e); if es == [] then s.auth else AuthRun.Step(s.auth, es[0]))
    ensures |AuthEvents(s, e)| <= 1
  {
  }

  /** The relay's authenticator is an authenticator: its state is that of a run on its own. */
  lemma {:induction false} AuthRefines(events: seq<Event>)
    ensures Run(events).auth == AuthRun.Run(AuthTrace(events))
  {
    if events != [] {
      var before, e := events[..|events| - 1], events[|events| - 1];
      AuthRefines(before);
      AuthStep(Run(before), e);
      var es, past := AuthEvents(Run(before), e), AuthTrace(before);
      if es == [] {
        assert past + es == past;
      } else {
        assert (past + es)[..|past + es| - 1] == past && es == [es[0]];
      }
    }
  }

  /** Bounds, single use and history hold inside the relay. */
  lemma AuthHistory(events: seq<Event>, t: Token)
    ensures var a := Run(events).auth;
            Inv(a.pending) && AuthRun.SingleUse(a, t) && AuthRun.Backed(a) && AuthRun.Justified(a)
  {
    AuthRefines(events);
    AuthRun.BoundedAlways(AuthTrace(events));
    AuthRun.SingleUseAlways(AuthTrace(events), t);
    AuthRun.JustifiedAlways(AuthTrace(events));
  }

  lemma ForwardAnswersChallenge(events: seq<Event>, n: nat)
    requires n < |Run(events).forwards|
    ensures var s := Run(events);
            && s.forwards[n].from < |s.sessions|
            && var k := s.sessions[s.forwards[n].from].key;
            && Decode(s.forwards[n].sent).Decoded? && Decode(s.forwards[n].sent).packet.src == k
            && exists a: AuthRun.Acceptance, x: AuthRun.Insertion ::
                 && a in s.auth.accepted && x in s.auth.inserted && AuthRun.Answers(a, x)
                 && a.src == k && a.target == k && a.mode == Relay
  {
    var s := Run(events);
    ProvenanceAlways(events);
    AuthHistory(events, []);
    assert ForwardOk(s, s.forwards[n]);
    var m := s.sessions[s.forwards[n].from].proof.value;
    var i :| 0 <= i < s.auth.accepted[m].after && AuthRun.Answers(s.auth.accepted[m], s.auth.inserted[i]);
    assert s.auth.accepted[m] in s.auth.accepted && s.auth.inserted[i] in s.auth.inserted;
  }

  // ---------------------------------------------------------------- sessions per challenge

  /** No two admitted sessions rest on the same accepted proof. */
  predicate ProofsDistinct(s: State) {
    forall i, j :: 0 <= i < j < |s.sessions| && Admitted(s.sessions[i]) && Admitted(s.sessions[j]) ==>
      s.sessions[i].proof != s.sessions[j].proof
  }

  lemma ProofsDistinctStep(s: State, e: Event)
    requires SessionsProven(s) && ProofsDistinct(s)
    ensures ProofsDistinct(Step(s, e))
  {
    var t := Step(s, e);
    Stable(s, e);
    forall i | 0 <= i < |t.sessions| && Admitted(t.sessions[i])
      ensures if i < |s.sessions| && Admitted(s.sessions[i])
              then t.sessions[i].proof == s.sessions[i].proof && s.sessions[i].proof.value < |s.auth.accepted|
              else t.sessions[i].proof == Some(|s.auth.accepted|) && e.Prove? && e.i == i
    {
      if i < |s.sessions| && Admitted(s.sessions[i]) {
        assert Authorized(s, i);
      } else if i >= |s.sessions| || s.sessions[i].pc.Begun? {
        ProvenNow(s, e, i);
      }
    }
  }

  lemma {:induction false} ProofsDistinctAlways(events: seq<Event>)
    ensures ProofsDistinct(Run(events))
  {
    if events != [] {
      ProofsDistinctAlways(events[..|events| - 1]);
      ProvenanceAlways(events[..|events| - 1]);
      ProofsDistinctStep(Run(events[..|events| - 1]), events[|events| - 1]);
    }
  }

  /** The sessions, running or over, that were admitted on this token. */
  function AdmittedOn(s: State, t: Token): (r: set<nat>) {
    set i: nat | i < |s.sessions| && Authorized(s, i) && s.auth.accepted[s.sessions[i].proof.value].token == t
  }

  /** The places of the token in a log of acceptances. */
  function Places(log: seq<AuthRun.Acceptance>, t: Token): (r: set<nat>) {
    set n: nat | n < |log| && log[n].token == t
  }

  lemma {:induction false} PlacesCount(log: seq<AuthRun.Acceptance>, t: Token)
    ensures |Places(log, t)| == AuthRun.TimesAccepted(log, t)
  {
    if log != [] {
      var n := |log| - 1;
      PlacesCount(log[..n], t);
      assert Places(log, t) == Places(log[..n], t) + if log[n].token == t then {n} else {};
      assert n !in Places(log[..n], t);
    }
  }

  /** Different sessions, different places: there are no more sessions than places. */
  lemma {:induction false} Injects(s: State, among: set<nat>, places: set<nat>)
    requires ProofsDistinct(s)
    requires forall i :: i in among ==>
               i < |s.sessions| && Admitted(s.sessions[i]) && s.sessions[i].proof.value in places
    ensures |among| <= |places|
    decreases among
  {
    if among != {} {
      var i :| i in among;
      var m := s.sessions[i].proof.value;
      forall j | j in among - {i} ensures s.sessions[j].proof.value in places - {m} {
        if j < i {
          assert s.sessions[j].proof != s.sessions[i].proof;
        } else {
          assert s.sessions[i].proof != s.sessions[j].proof;
        }
      }
      Injects(s, among - {i}, places - {m});
    }
  }

  /** In every run, per token: the sessions ever admitted on it, and its presence in the table, never
      exceed the number of times it was issued. */
  lemma SessionsPerChallenge(events: seq<Event>, t: Token)
    ensures var s := Run(events);
            |AdmittedOn(s, t)| + (if t in s.auth.pending then 1 else 0) <= AuthRun.TimesInserted(s.auth.inserted, t)
  {
    var s := Run(events);
    ProofsDistinctAlways(events);
    AuthHistory(events, t);
    PlacesCount(s.auth.accepted, t);
    Injects(s, AdmittedOn(s, t), Places(s.auth.accepted, t));
  }
  // ---------------------------------------------------------------- what is forwarded

  /** The session that may be sent packets for key k: past its activation and before its end. */
  predicate ActiveHolder(s: State, j: nat, k: Key) {
    j < |s.sessions| && s.sessions[j].key == k && (s.sessions[j].pc.Active? || s.sessions[j].pc.Routing?)
  }

  lemma FoundIsActive(s: State, j: nat, k: Key)
    requires Exclusive(s) && Published(s)
    ensures ActiveHolder(s, j, k) <==> Found(s, k) && s.peers[k] == j
  {
    if k in s.peers {
      assert Holding(s.sessions[s.peers[k]]) && PublishedOk(s.sessions[s.peers[k]]);
    }
    if ActiveHolder(s, j, k) {
      assert PublishedOk(s.sessions[j]);
    }
  }

  /** What one datagram adds to the forwards: the session loop on it, and the send that may follow. */
  function AfterDatagram(events: seq<Event>, i: nat, body: seq<Byte>): (r: seq<Event>) {
    events + [Receive(i, body), Send(i)]
  }

  lemma DatagramSteps(events: seq<Event>, i: nat, body: seq<Byte>)
    ensures Run(AfterDatagram(events, i, body)) == Step(Step(Run(events), Receive(i, body)), Send(i))
  {
    var a := events + [Receive(i, body)];
    assert a[..|events|] == events;
    assert AfterDatagram(events, i, body) == a + [Send(i)];
    assert (a + [Send(i)])[..|a|] == a;
  }

  /** In every run, for an active session i, every packet p and every session j: the datagram of p makes the
      relay hand exactly these bytes to j, once, if and only if p bears the session's own key as source, is
      no disco frame, and j is active under p's destination. */
  lemma ForwardedExactly(events: seq<Event>, i: nat, p: MasquePacket, j: nat)
    requires var s := Run(events); i < |s.sessions| && s.sessions[i].pc.Active?
    ensures var s, t := Run(events), Run(AfterDatagram(events, i, Encode(p)));
            t.forwards == s.forwards + [Forward(i, j, Encode(p), Encode(p))] <==>
            p.src == s.sessions[i].key && !HasPrefix(p.payload, DISCO_MAGIC) && ActiveHolder(s, j, p.dst)
  {
    var s := Run(events);
    RegistryAlways(events);
    DatagramSteps(events, i, Encode(p));
    DecodeEncode(p);
    FoundIsActive(s, j, p.dst);
    LoopForwards(s, i, Encode(p));
    var routed := Routed(s, i, Encode(p));
    if routed.Routing? {
      assert Reencoded(Encode(p)) == Encode(p);
      LastOf(s.forwards, Forward(i, routed.dest, Encode(p), Encode(p)), Forward(i, j, Encode(p), Encode(p)));
    }
  }

  lemma {:induction false} LastOf<T>(a: seq<T>, x: T, y: T)
    ensures a + [x] == a + [y] <==> x == y
  {
    assert (a + [x])[|a|] == x && (a + [y])[|a|] == y;
  }

  /** Receive and Send together. */
  lemma LoopForwards(s: State, i: nat, body: seq<Byte>)
    requires i < |s.sessions| && s.sessions[i].pc.Active?
    ensures var t, pc := Step(Step(s, Receive(i, body)), Send(i)), Routed(s, i, body);
            t.forwards == s.forwards + if pc.Routing? then [Forward(i, pc.dest, body, Reencoded(body))] else []
  {
    var u := Step(s, Receive(i, body));
    assert u.forwards == s.forwards && u.sessions[i].pc == Routed(s, i, body);
  }

  /** ... and otherwise, and for a malformed datagram, nothing is forwarded. */
  lemma NothingElseForwarded(events: seq<Event>, i: nat, body: seq<Byte>)
    requires var s := Run(events); i < |s.sessions| && s.sessions[i].pc.Active?
    ensures var s, t := Run(events), Run(AfterDatagram(events, i, body));
            || t.forwards == s.forwards
            || (exists p: MasquePacket, j: nat ::
                  body == Encode(p) && t.forwards == s.forwards + [Forward(i, j, body, body)])
  {
    var s := Run(events);
    DatagramSteps(events, i, body);
    LoopForwards(s, i, body);
    var routed := Routed(s, i, body);
    if routed.Routing? {
      var p := Decode(body).packet;
      DecodedIffEncoded(body, p);
      assert Run(AfterDatagram(events, i, body)).forwards == s.forwards + [Forward(i, routed.dest, body, body)];
    }
  }

  predicate NoDisco(f: Forward) {
    Decode(f.sent).Decoded? && !HasPrefix(Decode(f.sent).packet.payload, DISCO_MAGIC)
  }

  predicate NotDisco(body: seq<Byte>) {
    Decode(body).Decoded? && !HasPrefix(Decode(body).packet.payload, DISCO_MAGIC)
  }

  /** No disco frame is forwarded or about to be. */
  predicate Discoless(s: State) {
    && (forall n :: 0 <= n < |s.forwards| ==> NoDisco(s.forwards[n]))
    && forall i :: 0 <= i < |s.sessions| && s.sessions[i].pc.Routing? ==> NotDisco(s.sessions[i].pc.body)
  }

  lemma DiscolessStep(s: State, e: Event)
    requires Discoless(s)
    ensures Discoless(Step(s, e))
  {
    var t := Step(s, e);
    SessionsGrow(s, e);
    forall i | 0 <= i < |t.sessions| && t.sessions[i].pc.Routing? ensures NotDisco(t.sessions[i].pc.body) {
      if !(e.Receive? && e.i == i) { StillRouting(s, e, i); }
    }
    forall n | 0 <= n < |t.forwards| ensures NoDisco(t.forwards[n]) { DiscolessForward(s, e, n); }
  }

  lemma DiscolessForward(s: State, e: Event, n: nat)
    requires Discoless(s) && n < |Step(s, e).forwards|
    ensures NoDisco(Step(s, e).forwards[n])
  {
    match e
    case Send(i) =>
      if i < |s.sessions| && s.sessions[i].pc.Routing? && n == |s.forwards| {
        DecodedIffEncoded(s.sessions[i].pc.body, Decode(s.sessions[i].pc.body).packet);
      }
    case Begin(_, _) =>
    case Challenged(_, _, _, _, _) =>
    case Prove(_, _, _) =>
    case Reserve(_) =>
    case AcceptStream(_, _) =>
    case Activate(_) =>
    case Receive(_, _) =>
    case End(_) =>
  }

  /** In every run: no disco frame has been forwarded. */
  lemma {:induction false} NoDiscoForwarded(events: seq<Event>)
    ensures Discoless(Run(events))
  {
    if events != [] {
      NoDiscoForwarded(events[..|events| - 1]);
      DiscolessStep(Run(events[..|events| - 1]), events[|events| - 1]);
    }
  }

  // ---------------------------------------------------------------- getting on

  /** The step neither uses token t up nor clears out challenges that expire at `until`. */
  predicate Spares(s: State, e: Event, t: Token, until: int) {
    match e
    case Challenged(_, _, now, _, _) => now < until
    case Prove(i, proof, _) => i < |s.sessions| ==> proof != Sealed(s.sessions[i].key, t)
    case _ => true
  }

  lemma SparedStep(s: State, e: Event, t: Token, req: Request, until: int)
    requires AuthRun.Holds(s.auth, t, req, until) && Spares(s, e, t, until)
    ensures AuthRun.Holds(Step(s, e).auth, t, req, until)
  {
    AuthStep(s, e);
    var es := AuthEvents(s, e);
    if es != [] {
      AuthRun.SparedStep(s.auth, es[0], t, req, until);
    }
  }

  lemma {:induction false} SparedRun(events: seq<Event>, m: nat, t: Token, req: Request, until: int)
    requires m <= |events| && AuthRun.Holds(Run(events[..m]).auth, t, req, until)
    requires SparedFrom(events, m, t, until)
    ensures AuthRun.Holds(Run(events).auth, t, req, until)
    decreases |events|
  {
    if m == |events| {
      assert events[..m] == events;
    } else {
      var last := |events| - 1;
      SparedBefore(events, m, t, until);
      assert events[..last][..m] == events[..m];
      SparedRun(events[..last], m, t, req, until);
      SparedStep(Run(events[..last]), events[last], t, req, until);
    }
  }

  ghost predicate SparesAt(events: seq<Event>, n: nat, t: Token, until: int)
    requires n < |events|
  {
    Spares(Run(events[..n]), events[n], t, until)
  }

  /** Every event from the m-th on spares the token. */
  ghost predicate SparedFrom(events: seq<Event>, m: nat, t: Token, until: int) {
    forall n :: m <= n < |events| ==> SparesAt(events, n, t, until)
  }

  lemma {:induction false} SparedBefore(events: seq<Event>, m: nat, t: Token, until: int)
    requires SparedFrom(events, m, t, until) && m < |events|
    ensures SparedFrom(events[..|events| - 1], m, t, until)
    ensures Spares(Run(events[..|events| - 1]), events[|events| - 1], t, until)
  {
    var before := events[..|events| - 1];
    assert SparesAt(events, |events| - 1, t, until);
    forall n | m <= n < |before| ensures SparesAt(before, n, t, until) {
      assert before[..n] == events[..n];
      assert SparesAt(events, n, t, until);
    }
  }

  /** Event m put a new challenge for this token into the table. */
  ghost predicate IssuedAt(events: seq<Event>, m: nat, t: Token, req: Request, at: int)
    requires m < |events|
  {
    Step(Run(events[..m]), events[m]).auth.inserted ==
    Run(events[..m]).auth.inserted + [AuthRun.Insertion(t, req, at)]
  }

  /** In every run: when event m issued token t for the key of a session that has not proved itself yet,
      nobody has proved himself with t since and no challenge has been asked for 30 s later, then at every
      time before that the holder of the key gets the session proven. */
  lemma ValidProofProves(events: seq<Event>, m: nat, i: nat, t: Token, client: string, at: int, now: int)
    requires m < |events| && i < |Run(events).sessions| && Run(events).sessions[i].pc.Begun?
    requires var k := Run(events).sessions[i].key;
             k != ZERO_KEY && IssuedAt(events, m, t, Request(k, k, Relay, client), at)
    requires SparedFrom(events, m + 1, t, at + 30_000_000_000) && now < at + 30_000_000_000
    ensures var k := Run(events).sessions[i].key;
            ProvenUnder(events + [Prove(i, Sealed(k, t), now)], i, k)
  {
    var s, k := Run(events), Run(events).sessions[i].key;
    var req, e := Request(k, k, Relay, client), Prove(i, Sealed(k, t), now);
    IssuedIsHeld(Run(events[..m]), events[m], t, req, at);
    RunNext(events[..m], events[m], events[..m + 1], Run(events[..m]));
    SparedRun(events, m + 1, t, req, at + TTL);
    HeldProves(s, i, t, req, at + TTL, now);
    RunNext(events, e, events + [e], s);
  }

  ghost predicate ProvenUnder(events: seq<Event>, i: nat, k: Key) {
    i < |Run(events).sessions| && Run(events).sessions[i].pc.Proven? && Run(events).sessions[i].key == k
  }

  lemma IssuedIsHeld(s: State, e: Event, t: Token, req: Request, at: int)
    requires Step(s, e).auth.inserted == s.auth.inserted + [AuthRun.Insertion(t, req, at)]
    ensures AuthRun.Holds(Step(s, e).auth, t, req, at + TTL)
  {
    AuthStep(s, e);
    var es := AuthEvents(s, e);
    assert Step(s, e).auth.inserted[|s.auth.inserted|] == AuthRun.Insertion(t, req, at);
    if es != [] {
      AuthRun.InsertedIsHeld(s.auth, es[0], t, req, at);
    }
  }

  lemma HeldProves(s: State, i: nat, t: Token, req: Request, until: int, now: int)
    requires i < |s.sessions| && s.sessions[i].pc.Begun? && s.sessions[i].key != ZERO_KEY && now < until
    requires AuthRun.Holds(s.auth, t, req, until)
    requires req.src == req.target == s.sessions[i].key && req.mode == Relay
    ensures var x := Step(s, Prove(i, Sealed(s.sessions[i].key, t), now)).sessions[i];
            x.pc.Proven? && x.key == s.sessions[i].key
    ensures |Step(s, Prove(i, Sealed(s.sessions[i].key, t), now)).sessions| == |s.sessions|
  {
    var k := s.sessions[i].key;
    AuthRun.HeldIsAccepted(s.auth, t, req, until, now);
    assert Accepts(s.auth.pending, Sealed(k, t), k, k, Relay, now);
  }

  /** A session that has begun is issued a challenge for its own key, if it has none outstanding from this client
      and there is room, and no other session's. */
  lemma ChallengeIssued(events: seq<Event>, i: nat, client: string, now: int, nonce: Token, kept: set<Token>)
    requires i < |Run(events).sessions| && Run(events).sessions[i].pc.Begun?
    requires var p, k := Run(events).auth.pending, Run(events).sessions[i].key;
             var live := set t | t in p && p[t].expires > now;
             && (forall t :: t in live ==> p[t].req != Request(k, k, Relay, client)) && nonce !in live
             && |set t | t in live && p[t].req.src == k| < 4
             && |set t | t in live && p[t].req.client == client| < 64 && |live| < 1024
    ensures var k := Run(events).sessions[i].key;
            IssuedAt(events + [Challenged(i, client, now, Some(nonce), kept)], |events|,
                     nonce, Request(k, k, Relay, client), now)
  {
    var s, e := Run(events), Challenged(i, client, now, Some(nonce), kept);
    var req := Request(s.sessions[i].key, s.sessions[i].key, Relay, client);
    assert (events + [e])[..|events|] == events;
    AuthStep(s, e);
    AuthRun.IssueInsertsExactly(s.auth, req, now, Some(nonce), kept);
  }

  /** A refused proof ends the session. */
  lemma RefusedIsGone(events: seq<Event>, i: nat, proof: Proof, now: int)
    requires i < |Run(events).sessions| && Run(events).sessions[i].pc.Begun?
    ensures var t := Run(events + [Prove(i, proof, now)]).sessions[i]; t.pc.Proven? || t.pc.Gone?
  {
    RunNext(events, Prove(i, proof, now), events + [Prove(i, proof, now)], Run(events));
  }

  /** From every reachable state, a proven session whose key is free gets on the relay: reserved, its stream
      accepted if it is native, activated, and found under its key. */
  lemma ProvenGetsOn(events: seq<Event>, i: nat)
    requires var s := Run(events);
             && i < |s.sessions| && s.sessions[i].pc.Proven? && !s.sessions[i].fwd
             && s.sessions[i].key !in s.peers
    ensures var s, t := Run(events), Run(events + [Reserve(i), AcceptStream(i, true), Activate(i)]);
            ActiveHolder(t, i, s.sessions[i].key) && Found(t, s.sessions[i].key) && t.peers[s.sessions[i].key] == i
  {
    RunThree(events, Reserve(i), AcceptStream(i, true), Activate(i));
    GetsOn(Run(events), i);
  }

  lemma {:induction false} RunNext(events: seq<Event>, e: Event, longer: seq<Event>, s: State)
    requires longer == events + [e] && s == Run(events)
    ensures Run(longer) == Step(s, e)
  {
    assert longer[..|events|] == events;
  }

  lemma {:induction false} RunThree(events: seq<Event>, a: Event, b: Event, c: Event)
    ensures Run(events + [a, b, c]) == Step(Step(Step(Run(events), a), b), c)
  {
    var s := Run(events);
    RunNext(events, a, events + [a], s);
    RunNext(events + [a], b, events + [a, b], Step(s, a));
    RunNext(events + [a, b], c, events + [a, b, c], Step(Step(s, a), b));
  }

  lemma GetsOn(s: State, i: nat)
    requires i < |s.sessions| && s.sessions[i].pc.Proven? && !s.sessions[i].fwd && s.sessions[i].key !in s.peers
    ensures var t := Step(Step(Step(s, Reserve(i)), AcceptStream(i, true)), Activate(i));
            ActiveHolder(t, i, s.sessions[i].key) && Found(t, s.sessions[i].key) && t.peers[s.sessions[i].key] == i
  {
    var a := Step(s, Reserve(i));
    assert a.sessions[i] == s.sessions[i].(pc := Reserved) && a.peers[s.sessions[i].key] == i;
    var b := Step(a, AcceptStream(i, true));
    assert b.sessions[i] == s.sessions[i].(pc := if s.sessions[i].kind.Native? then Accepted else Reserved);
  }

  /** ... and a session that is on it gives its key back when it ends. */
  lemma EndFreesKey(events: seq<Event>, i: nat)
    requires i < |Run(events).sessions| && Holding(Run(events).sessions[i])
    ensures var s, t := Run(events), Run(events + [End(i)]);
            s.sessions[i].key !in t.peers && t.sessions[i].pc.Gone?
  {
    RegistryAlways(events);
    assert (events + [End(i)])[..|events|] == events;
    EndStep(Run(events), i);
  }
}
