/** Direct sessions, relay traffic and administration on one core, in any interleaving. */
module CoreRun {
  import opened Packet
  import opened Wrappers
  import opened Core

  /** A direct session reserves its key, accepts its stream, sets its path, serves, and then undoes
      these in the reverse order. */
  datatype Pc = Begun | Admitted | Reserved | Accepted | Serving | Unrouted | Done

  datatype Session = Session(key: Key, pc: Pc)

  datatype State = State(t: Tables, reserved: set<Key>, sessions: seq<Session>)

  datatype Event =
    | Allow(k: Key)
    | AddPeer(k: Key, ipcOk: bool)
    | SetRelayPath(k: Key, id: nat, ipcOk: bool)
    | ClearPath(k: Key, ipcOk: bool)
    | RemoveRelayPath(k: Key, id: nat, ipcOk: bool)
    | RemoveNoPath(k: Key, ipcOk: bool)
    | Begin(k: Key)
    | CheckAllowed(i: nat)
    | Reserve(i: nat)
    | AcceptStream(i: nat, ok: bool)
    | SetDirectPath(i: nat, ipcOk: bool)
    | Inject(i: nat, ipcOk: bool)
    | RemoveDirectPath(i: nat, ipcOk: bool)
    | Release(i: nat)

  function Init(isServer: bool, clients: set<Key>): (s: State) {
    State(Tables(isServer, if clients == {} then None else Some(clients), {}, map[]), {}, [])
  }

  function At(s: State, i: nat, pc: Pc): (r: State)
    requires i < |s.sessions|
  {
    s.(sessions := s.sessions[i := s.sessions[i].(pc := pc)])
  }

  function Step(s: State, e: Event): (r: State) {
    match e
    case Allow(k) => s.(t := AllowClient(s.t, k))
    case AddPeer(k, ok) => s.(t := WithPeer(s.t, k, ok))
    case SetRelayPath(k, id, ok) => s.(t := WithPath(s.t, k, Some(OfRelay(id)), ok))
    case ClearPath(k, ok) => s.(t := WithPath(s.t, k, None, ok))
    case RemoveRelayPath(k, id, ok) => s.(t := WithoutPath(s.t, k, Some(OfRelay(id)), ok))
    case RemoveNoPath(k, ok) => s.(t := WithoutPath(s.t, k, None, ok))
    case Begin(k) => s.(sessions := s.sessions + [Session(k, if k == ZERO_KEY then Done else Begun)])
    case CheckAllowed(i) =>
      if i < |s.sessions| && s.sessions[i].pc.Begun?
      then At(s, i, if PeerAllowed(s.t, s.sessions[i].key) then Admitted else Done) else s
    case Reserve(i) =>
      if i < |s.sessions| && s.sessions[i].pc.Admitted? then
        if s.sessions[i].key in s.reserved then At(s, i, Done)
        else At(s, i, Reserved).(reserved := s.reserved + {s.sessions[i].key})
      else s
    case AcceptStream(i, ok) =>
      if i < |s.sessions| && s.sessions[i].pc.Reserved? then At(s, i, if ok then Accepted else Unrouted) else s
    case SetDirectPath(i, ok) =>
      if i < |s.sessions| && s.sessions[i].pc.Accepted? then
        var k := s.sessions[i].key;
        var pc := if AddsPeer(s.t, k, ok) then Serving else Unrouted;
        At(s, i, pc).(t := WithPath(s.t, k, Some(OfSession(i)), ok))
      else s
    case Inject(i, ok) =>
      if i < |s.sessions| && s.sessions[i].pc.Serving?
      then s.(t := WithPeer(s.t, s.sessions[i].key, ok)) else s
    case RemoveDirectPath(i, ok) =>
      if i < |s.sessions| && s.sessions[i].pc.Serving?
      then At(s, i, Unrouted).(t := WithoutPath(s.t, s.sessions[i].key, Some(OfSession(i)), ok)) else s
    case Release(i) =>
      if i < |s.sessions| && s.sessions[i].pc.Unrouted?
      then At(s, i, Done).(reserved := s.reserved - {s.sessions[i].key}) else s
  }

  function Run(isServer: bool, clients: set<Key>, events: seq<Event>): (s: State) {
    if events == [] then Init(isServer, clients)
    else Step(Run(isServer, clients, events[..|events| - 1]), events[|events| - 1])
  }

  // ---------------------------------------------------------------- peers

  /** The policy and the peers after the first n events. */
  function TablesAt(isServer: bool, clients: set<Key>, events: seq<Event>, n: nat): (t: Tables)
    requires n <= |events|
  {
    Run(isServer, clients, events[..n]).t
  }

  predicate AllowedBefore(events: seq<Event>, n: nat, k: Key) {
    exists m :: 0 <= m < n && m < |events| && events[m] == Allow(k)
  }

  predicate AnyAllowedBefore(events: seq<Event>, n: nat) {
    exists m :: 0 <= m < n && m < |events| && events[m].Allow?
  }

  /** The configuration and the additions so far let k in: the core is a client, or its list is empty and
      none has been added, or k is on the list or has been added. */
  predicate MayEnter(isServer: bool, clients: set<Key>, events: seq<Event>, n: nat, k: Key) {
    !isServer || (clients == {} && !AnyAllowedBefore(events, n)) || k in clients || AllowedBefore(events, n, k)
  }

  lemma PolicyStep(s: State, e: Event, k: Key)
    ensures var t := Step(s, e).t;
            && t.isServer == s.t.isServer
            && (!e.Allow? ==> t.allowed == s.t.allowed)
            && (e.Allow? ==> t.allowed.Some? && (k in t.allowed.value <==>
                  k == e.k || (s.t.allowed.Some? && k in s.t.allowed.value)))
  {
    match e
    case Allow(_) =>
    case AddPeer(_, _) =>
    case SetRelayPath(_, _, _) =>
    case ClearPath(_, _) =>
    case _ =>
  }

  /** The state of the list, in terms of the configuration and the events. */
  lemma {:induction false} ListIs(isServer: bool, clients: set<Key>, events: seq<Event>, k: Key)
    ensures var t := Run(isServer, clients, events).t;
            && t.isServer == isServer
            && (t.allowed.None? <==> clients == {} && !AnyAllowedBefore(events, |events|))
            && (t.allowed.Some? ==> (k in t.allowed.value <==> k in clients || AllowedBefore(events, |events|, k)))
  {
    if events != [] {
      var n := |events| - 1;
      var before := events[..n];
      ListIs(isServer, clients, before, k);
      PolicyStep(Run(isServer, clients, before), events[n], k);
      AllowedSoFar(events, n, k);
    }
  }

  lemma {:induction false} AllowedSoFar(events: seq<Event>, n: nat, k: Key)
    requires n < |events|
    ensures AllowedBefore(events, n + 1, k) <==> AllowedBefore(events[..n], n, k) || events[n] == Allow(k)
    ensures AnyAllowedBefore(events, n + 1) <==> AnyAllowedBefore(events[..n], n) || events[n].Allow?
    ensures AllowedBefore(events, n, k) <==> AllowedBefore(events[..n], n, k)
    ensures AnyAllowedBefore(events, n) <==> AnyAllowedBefore(events[..n], n)
  {
    assert forall m :: 0 <= m < n ==> events[..n][m] == events[m];
  }

  lemma PolicyIs(isServer: bool, clients: set<Key>, events: seq<Event>, n: nat, k: Key)
    requires n <= |events|
    ensures PeerAllowed(TablesAt(isServer, clients, events, n), k) <==> MayEnter(isServer, clients, events, n, k)
  {
    ListIs(isServer, clients, events[..n], k);
    assert forall m :: 0 <= m < n ==> events[..n][m] == events[m];
    assert AllowedBefore(events, n, k) <==> AllowedBefore(events[..n], n, k);
    assert AnyAllowedBefore(events, n) <==> AnyAllowedBefore(events[..n], n);
  }

  /** Event n put k into the table, could do so by the configuration and the additions before it, and k has
      stayed since. */
  predicate AdmittedAt(isServer: bool, clients: set<Key>, events: seq<Event>, k: Key, n: nat)
    requires n < |events|
  {
    && k !in TablesAt(isServer, clients, events, n).peers
    && MayEnter(isServer, clients, events, n, k)
    && forall m :: n < m <= |events| ==> k in TablesAt(isServer, clients, events, m).peers
  }

  ghost predicate AllowedWhenAdmitted(isServer: bool, clients: set<Key>, events: seq<Event>, k: Key) {
    exists n: nat :: n < |events| && AdmittedAt(isServer, clients, events, k, n)
  }

  /** A step adds only peers that the policy allows. */
  lemma NewPeerAllowed(s: State, e: Event, k: Key)
    requires k in Step(s, e).t.peers && k !in s.t.peers
    ensures PeerAllowed(s.t, k)
  {
  }

  lemma RoutedStep(s: State, e: Event)
    requires Routed(s.t)
    ensures Routed(Step(s, e).t)
  {
  }

  lemma {:induction false} SameHistory(before: seq<Event>, e: Event, n: nat, k: Key)
    requires n <= |before|
    ensures AllowedBefore(before + [e], n, k) <==> AllowedBefore(before, n, k)
    ensures AnyAllowedBefore(before + [e], n) <==> AnyAllowedBefore(before, n)
  {
    assert forall m :: 0 <= m < n ==> (before + [e])[m] == before[m];
  }

  lemma StillAdmitted(isServer: bool, clients: set<Key>, before: seq<Event>, e: Event, k: Key)
    requires AllowedWhenAdmitted(isServer, clients, before, k)
    requires k in Run(isServer, clients, before + [e]).t.peers
    ensures AllowedWhenAdmitted(isServer, clients, before + [e], k)
  {
    var n: nat :| n < |before| && AdmittedAt(isServer, clients, before, k, n);
    var events := before + [e];
    forall m | n < m <= |events| ensures k in TablesAt(isServer, clients, events, m).peers {
      if m <= |before| {
        assert events[..m] == before[..m];
        assert k in TablesAt(isServer, clients, before, m).peers;
      } else {
        assert events[..m] == events;
      }
    }
    assert events[..n] == before[..n];
    SameHistory(before, e, n, k);
    assert AdmittedAt(isServer, clients, events, k, n);
  }

  lemma JustAdmitted(isServer: bool, clients: set<Key>, before: seq<Event>, e: Event, k: Key)
    requires k !in Run(isServer, clients, before).t.peers && PeerAllowed(Run(isServer, clients, before).t, k)
    requires k in Run(isServer, clients, before + [e]).t.peers
    ensures AllowedWhenAdmitted(isServer, clients, before + [e], k)
  {
    var events := before + [e];
    assert events[..|before|] == before && events[..|events|] == events;
    PolicyIs(isServer, clients, events, |before|, k);
    assert AdmittedAt(isServer, clients, events, k, |before|);
  }

  /** In every run, each routed peer is an admitted, non-zero peer, and each admitted peer was allowed by
      the policy at its latest admission and has been in the table since. */
  lemma {:induction false} PeersOkAlways(isServer: bool, clients: set<Key>, events: seq<Event>)
    ensures Routed(Run(isServer, clients, events).t)
    ensures forall k :: k in Run(isServer, clients, events).t.peers ==>
              AllowedWhenAdmitted(isServer, clients, events, k)
  {
    if events != [] {
      var before, e := events[..|events| - 1], events[|events| - 1];
      var s := Run(isServer, clients, before);
      assert events == before + [e];
      PeersOkAlways(isServer, clients, before);
      RoutedStep(s, e);
      forall k | k in Run(isServer, clients, events).t.peers
        ensures AllowedWhenAdmitted(isServer, clients, events, k)
      {
        if k in s.t.peers {
          StillAdmitted(isServer, clients, before, e, k);
        } else {
          NewPeerAllowed(s, e, k);
          JustAdmitted(isServer, clients, before, e, k);
        }
      }
    }
  }

  lemma ExtendRun(isServer: bool, clients: set<Key>, events: seq<Event>, e: Event)
    ensures Run(isServer, clients, events + [e]) == Step(Run(isServer, clients, events), e)
  {
    assert (events + [e])[..|events|] == events;
  }

  /** In every run: with the device's consent, AddPeer of a non-zero key succeeds exactly if the key is in the
      table already or may enter. */
  lemma AddedExactly(isServer: bool, clients: set<Key>, events: seq<Event>, k: Key)
    requires k != ZERO_KEY
    ensures k in Run(isServer, clients, events + [AddPeer(k, true)]).t.peers <==>
            k in Run(isServer, clients, events).t.peers || MayEnter(isServer, clients, events, |events|, k)
  {
    ExtendRun(isServer, clients, events, AddPeer(k, true));
    PolicyIs(isServer, clients, events, |events|, k);
    assert events[..|events|] == events;
  }

  predicate Outside(t: Tables, k: Key) { k !in t.peers && !PeerAllowed(t, k) }

  lemma OutsideStep(s: State, e: Event, k: Key)
    requires Outside(s.t, k) && e != Allow(k)
    ensures Outside(Step(s, e).t, k)
  {
  }

  lemma {:induction false} OutsideStays(isServer: bool, clients: set<Key>, events: seq<Event>, n: nat, k: Key)
    requires n <= |events| && Outside(TablesAt(isServer, clients, events, n), k)
    requires forall m :: n <= m < |events| ==> events[m] != Allow(k)
    ensures Outside(Run(isServer, clients, events).t, k)
  {
    if n == |events| {
      assert events[..n] == events;
    } else {
      var before := events[..|events| - 1];
      assert before[..n] == events[..n];
      OutsideStays(isServer, clients, before, n, k);
      OutsideStep(Run(isServer, clients, before), events[|events| - 1], k);
    }
  }

  /** On a server with a list, configured or begun by an addition, a key that is not on it and not in the
      table stays out of the table until it is added by name: having been admitted before is of no help. */
  lemma StaysOut(isServer: bool, clients: set<Key>, events: seq<Event>, n: nat, k: Key)
    requires n <= |events| && isServer && (clients != {} || AnyAllowedBefore(events, n)) && k !in clients
    requires k !in TablesAt(isServer, clients, events, n).peers && !AllowedBefore(events, |events|, k)
    ensures k !in Run(isServer, clients, events).t.peers
  {
    PolicyIs(isServer, clients, events, n, k);
    OutsideStays(isServer, clients, events, n, k);
  }

  /** In every run: a key that may enter is routed by SetPath, and unrouted by removing that path, and dismissed
      as well if the device agrees. */
  lemma RoutedAndRemoved(isServer: bool, clients: set<Key>, events: seq<Event>, k: Key, id: nat)
    requires k != ZERO_KEY && MayEnter(isServer, clients, events, |events|, k)
    ensures var t := Run(isServer, clients, events + [SetRelayPath(k, id, true)]).t;
            k in t.peers && k in t.paths && t.paths[k] == OfRelay(id)
    ensures var u := Run(isServer, clients, events + [SetRelayPath(k, id, true)] + [RemoveRelayPath(k, id, true)]).t;
            k !in u.peers && k !in u.paths
    ensures var u := Run(isServer, clients, events + [SetRelayPath(k, id, true)] + [RemoveRelayPath(k, id, false)]).t;
            k in u.peers && k !in u.paths
  {
    var a := events + [SetRelayPath(k, id, true)];
    ExtendRun(isServer, clients, a, RemoveRelayPath(k, id, false));
    ExtendRun(isServer, clients, events, SetRelayPath(k, id, true));
    ExtendRun(isServer, clients, a, RemoveRelayPath(k, id, true));
    PolicyIs(isServer, clients, events, |events|, k);
    assert events[..|events|] == events;
  }

  // ---------------------------------------------------------------- direct sessions

  predicate Holding(x: Session) { x.pc.Reserved? || x.pc.Accepted? || x.pc.Serving? || x.pc.Unrouted? }

  /** A reserved key belongs to one session. */
  predicate OneHolder(s: State) {
    && (forall i :: 0 <= i < |s.sessions| && Holding(s.sessions[i]) ==> s.sessions[i].key in s.reserved)
    && (forall i, j :: 0 <= i < j < |s.sessions| && Holding(s.sessions[i]) && Holding(s.sessions[j]) ==>
          s.sessions[i].key != s.sessions[j].key)
  }

  /** A direct path in the table belongs to a session that is serving its key. */
  predicate PathsServed(s: State) {
    forall k :: k in s.t.paths && s.t.paths[k].OfSession? ==>
      var i := s.t.paths[k].session;
      i < |s.sessions| && s.sessions[i].key == k && s.sessions[i].pc.Serving?
  }

  predicate DirectOk(s: State) { OneHolder(s) && PathsServed(s) }

  lemma HolderChanged(s: State, i: nat, pc: Pc)
    requires OneHolder(s) && i < |s.sessions| && (Holding(Session(s.sessions[i].key, pc)) ==> Holding(s.sessions[i]))
    ensures OneHolder(At(s, i, pc))
  {
  }

  lemma OneHolderStep(s: State, e: Event)
    requires OneHolder(s)
    ensures OneHolder(Step(s, e))
  {
    match e
    case CheckAllowed(i) => if i < |s.sessions| { HolderChanged(s, i, Admitted); HolderChanged(s, i, Done); }
    case Reserve(i) => if i < |s.sessions| && s.sessions[i].pc.Admitted? { HolderReserves(s, i); }
    case AcceptStream(i, ok) =>
      if i < |s.sessions| && s.sessions[i].pc.Reserved? { HolderChanged(s, i, if ok then Accepted else Unrouted); }
    case SetDirectPath(i, ok) => if i < |s.sessions| && s.sessions[i].pc.Accepted? { HolderSets(s, i, ok); }
    case RemoveDirectPath(i, ok) => if i < |s.sessions| && s.sessions[i].pc.Serving? { HolderChanged(s, i, Unrouted); }
    case Release(i) => if i < |s.sessions| && s.sessions[i].pc.Unrouted? { HolderReleases(s, i); }
    case _ =>
  }

  lemma HolderReserves(s: State, i: nat)
    requires OneHolder(s) && i < |s.sessions| && s.sessions[i].pc.Admitted?
    ensures OneHolder(Step(s, Reserve(i)))
  {
    HolderChanged(s, i, Done);
  }

  lemma HolderSets(s: State, i: nat, ok: bool)
    requires OneHolder(s) && i < |s.sessions| && s.sessions[i].pc.Accepted?
    ensures OneHolder(Step(s, SetDirectPath(i, ok)))
  {
    HolderChanged(s, i, Serving);
    HolderChanged(s, i, Unrouted);
  }

  lemma HolderReleases(s: State, i: nat)
    requires OneHolder(s) && i < |s.sessions| && s.sessions[i].pc.Unrouted?
    ensures OneHolder(Step(s, Release(i)))
  {
    HolderChanged(s, i, Done);
  }

  lemma PathsServedStep(s: State, e: Event)
    requires PathsServed(s)
    ensures PathsServed(Step(s, e))
  {
  }

  lemma {:induction false} DirectOkAlways(isServer: bool, clients: set<Key>, events: seq<Event>)
    ensures DirectOk(Run(isServer, clients, events))
  {
    if events != [] {
      DirectOkAlways(isServer, clients, events[..|events| - 1]);
      OneHolderStep(Run(isServer, clients, events[..|events| - 1]), events[|events| - 1]);
      PathsServedStep(Run(isServer, clients, events[..|events| - 1]), events[|events| - 1]);
    }
  }

  /** A key can be reserved again only when its old direct path is gone: at that moment the table has no
      path or a relay path for it. */
  lemma ReservedAfterPathGone(isServer: bool, clients: set<Key>, events: seq<Event>, i: nat)
    ensures var s := Run(isServer, clients, events);
            var r := Step(s, Reserve(i));
            i < |s.sessions| && s.sessions[i].pc.Admitted? && r.sessions[i].pc.Reserved? ==>
              s.sessions[i].key in s.t.paths ==> s.t.paths[s.sessions[i].key].OfRelay?
  {
    DirectOkAlways(isServer, clients, events);
  }

  /** The end of a direct session removes its own path or nothing: a newer or relay path stays, and so
      do all other keys. */
  lemma FinishedRemovesOwnOnly(s: State, i: nat, ipcOk: bool, k: Key)
    requires i < |s.sessions| && s.sessions[i].pc.Serving? && k in s.t.paths
    requires k != s.sessions[i].key || s.t.paths[k] != OfSession(i)
    ensures var r := Step(s, RemoveDirectPath(i, ipcOk)).t; k in r.paths && r.paths[k] == s.t.paths[k]
  {
  }

  /** After the session's own cleanup its forwarder is in no path, for good. */
  lemma FinishedIsGone(isServer: bool, clients: set<Key>, events: seq<Event>, i: nat)
    ensures var s := Run(isServer, clients, events);
            i < |s.sessions| && !s.sessions[i].pc.Serving? ==> forall k :: k in s.t.paths ==>
                s.t.paths[k] != OfSession(i)
  {
    DirectOkAlways(isServer, clients, events);
  }
  predicate Serves(s: State, i: nat) {
    && i < |s.sessions| && s.sessions[i].pc.Serving?
    && s.sessions[i].key in s.t.paths && s.t.paths[s.sessions[i].key] == OfSession(i)
  }

  /** From every reachable state: a session that has just begun for a key that may enter and is not reserved
      comes to serve it over its own stream. */
  lemma SessionServes(isServer: bool, clients: set<Key>, events: seq<Event>, i: nat)
    requires var s := Run(isServer, clients, events);
             && i < |s.sessions| && s.sessions[i].pc.Begun? && s.sessions[i].key != ZERO_KEY
             && s.sessions[i].key !in s.reserved
             && MayEnter(isServer, clients, events, |events|, s.sessions[i].key)
    ensures Serves(Run(isServer, clients,
                       events + [CheckAllowed(i), Reserve(i)] + [AcceptStream(i, true), SetDirectPath(i, true)]), i)
  {
    var s := Run(isServer, clients, events);
    PolicyIs(isServer, clients, events, |events|, s.sessions[i].key);
    assert events[..|events|] == events;
    var mid := events + [CheckAllowed(i), Reserve(i)];
    TwoEvents(isServer, clients, events, CheckAllowed(i), Reserve(i));
    TwoEvents(isServer, clients, mid, AcceptStream(i, true), SetDirectPath(i, true));
    ReservesKey(s, i);
    TakesPath(Run(isServer, clients, mid), i);
  }

  lemma {:induction false} TwoEvents(isServer: bool, clients: set<Key>, events: seq<Event>, a: Event, b: Event)
    ensures Run(isServer, clients, events + [a, b]) == Step(Step(Run(isServer, clients, events), a), b)
  {
    var s := Run(isServer, clients, events);
    RunNext(isServer, clients, events, a, events + [a], s);
    RunNext(isServer, clients, events + [a], b, events + [a, b], Step(s, a));
  }

  lemma {:induction false} RunNext(isServer: bool, clients: set<Key>, events: seq<Event>, e: Event,
                                   longer: seq<Event>, s: State)
    requires longer == events + [e] && s == Run(isServer, clients, events)
    ensures Run(isServer, clients, longer) == Step(s, e)
  {
    assert longer[..|events|] == events;
  }

  lemma ReservesKey(s: State, i: nat)
    requires i < |s.sessions| && s.sessions[i].pc.Begun? && s.sessions[i].key !in s.reserved
    requires PeerAllowed(s.t, s.sessions[i].key)
    ensures var t := Step(Step(s, CheckAllowed(i)), Reserve(i));
            && |t.sessions| == |s.sessions| && t.sessions[i] == Session(s.sessions[i].key, Reserved)
            && t.t == s.t && s.sessions[i].key in t.reserved
  {
  }

  lemma TakesPath(s: State, i: nat)
    requires i < |s.sessions| && s.sessions[i].pc.Reserved? && s.sessions[i].key != ZERO_KEY
    requires PeerAllowed(s.t, s.sessions[i].key)
    ensures Serves(Step(Step(s, AcceptStream(i, true)), SetDirectPath(i, true)), i)
  {
    var t := Step(s, AcceptStream(i, true));
    assert t.sessions[i] == Session(s.sessions[i].key, Accepted) && t.t == s.t;
  }

  /** ... and when it ends its path and peer are gone and the key is free. */
  lemma ServiceEnds(isServer: bool, clients: set<Key>, events: seq<Event>, i: nat)
    requires Serves(Run(isServer, clients, events), i)
    ensures var s, t := Run(isServer, clients, events),
                        Run(isServer, clients, events + [RemoveDirectPath(i, true), Release(i)]);
            var k := s.sessions[i].key;
            k !in t.t.paths && k !in t.t.peers && k !in t.reserved
  {
    TwoEvents(isServer, clients, events, RemoveDirectPath(i, true), Release(i));
    var s := Run(isServer, clients, events);
    var t := Step(s, RemoveDirectPath(i, true));
    assert t.sessions[i] == Session(s.sessions[i].key, Unrouted);
  }
}
