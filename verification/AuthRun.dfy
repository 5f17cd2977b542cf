/** Issue and verify in any order, with any clock: the table stays bounded and every challenge is good
    for at most one acceptance. */
module AuthRun {
  import opened Packet
  import opened Wrappers
  import opened Authenticator

  datatype Insertion = Insertion(token: Token, req: Request, at: int)

  /** `after` counts the insertions made before the acceptance. */
  datatype Acceptance = Acceptance(token: Token, src: Key, target: Key, mode: Mode, at: int, after: nat)

  datatype State = State(pending: Pending, inserted: seq<Insertion>, accepted: seq<Acceptance>)

  /** `kept` names the expired entries that a reusing scan happens to leave. */
  datatype Event =
    | Issue(req: Request, now: int, nonce: Option<Token>, kept: set<Token>)
    | Verify(proof: Proof, src: Key, target: Key, mode: Mode, now: int)

  const INIT := State(map[], [], [])

  function Kept(p: Pending, now: int, kept: set<Token>): (r: Pending) {
    map t | t in p && (Live(p[t], now) || t in kept) :: p[t]
  }

  predicate Inserts(p: Pending, req: Request, now: int, nonce: Option<Token>) {
    !Full(LiveOnly(p, now), req) && nonce.Some? && nonce.value !in LiveOnly(p, now)
  }

  ghost function Step(s: State, e: Event): (t: State) {
    match e
    case Issue(req, now, nonce, kept) =>
      if AnyMatch(s.pending, req, now) then s.(pending := Kept(s.pending, now, kept))
      else if Inserts(s.pending, req, now, nonce) then
        State(LiveOnly(s.pending, now)[nonce.value := Challenge(req, now + TTL)],
              s.inserted + [Insertion(nonce.value, req, now)], s.accepted)
      else s.(pending := LiveOnly(s.pending, now))
    case Verify(proof, src, target, mode, now) =>
      State(AfterVerify(s.pending, proof, src, target), s.inserted,
            if Accepts(s.pending, proof, src, target, mode, now)
            then s.accepted + [Acceptance(Looked(proof, src, target).value, src, target, mode, now, |s.inserted|)]
            else s.accepted)
  }

  ghost function Run(events: seq<Event>): (s: State) {
    if events == [] then INIT else Step(Run(events[..|events| - 1]), events[|events| - 1])
  }

  /** The steps are exactly what issue may do. */
  lemma IssueIsAStep(s: State, req: Request, now: int, nonce: Option<Token>, o: Issued, p': Pending)
    requires MayIssue(s.pending, req, now, nonce, o, p')
    ensures Step(s, Issue(req, now, nonce, p'.Keys)).pending == p'
  {
  }

  lemma StepMayIssue(s: State, req: Request, now: int, nonce: Option<Token>, kept: set<Token>)
    ensures exists o: Issued :: MayIssue(s.pending, req, now, nonce, o, Step(s, Issue(req, now, nonce, kept)).pending)
  {
    var p, p' := s.pending, Step(s, Issue(req, now, nonce, kept)).pending;
    if AnyMatch(p, req, now) {
      var t :| Matches(p, req, now, t);
      assert MayIssue(p, req, now, nonce, Reused(t), p');
    } else if Full(LiveOnly(p, now), req) {
      assert MayIssue(p, req, now, nonce, Limit, p');
    } else if Inserts(p, req, now, nonce) {
      assert MayIssue(p, req, now, nonce, Inserted(nonce.value), p');
    } else {
      assert MayIssue(p, req, now, nonce, Failed, p');
    }
  }

  // ---------------------------------------------------------------- bounds

  /** At most 1024 challenges, 4 per source, 64 per client, no twins: in every run. */
  lemma {:induction false} BoundedAlways(events: seq<Event>)
    ensures Inv(Run(events).pending)
    ensures |Run(events).pending| <= 1024
    ensures forall src: Key :: |FromSource(Run(events).pending, src)| <= 4
    ensures forall client: string :: |FromClient(Run(events).pending, client)| <= 64
  {
    if events != [] {
      var s, e := Run(events[..|events| - 1]), events[|events| - 1];
      BoundedAlways(events[..|events| - 1]);
      match e
      case Issue(req, now, nonce, kept) =>
        StepMayIssue(s, req, now, nonce, kept);
        var o: Issued :| MayIssue(s.pending, req, now, nonce, o, Step(s, e).pending);
        IssueKeeps(s.pending, req, now, nonce, o, Step(s, e).pending);
      case Verify(proof, src, target, mode, now) => VerifyKeeps(s.pending, proof, src, target);
    }
  }

  // ---------------------------------------------------------------- single use

  function TimesInserted(log: seq<Insertion>, t: Token): (n: nat) {
    if log == [] then 0 else
    TimesInserted(log[..|log| - 1], t) + if log[|log| - 1].token == t then 1 else 0
  }

  function TimesAccepted(log: seq<Acceptance>, t: Token): (n: nat) {
    if log == [] then 0 else
    TimesAccepted(log[..|log| - 1], t) + if log[|log| - 1].token == t then 1 else 0
  }

  lemma OneMoreInserted(log: seq<Insertion>, x: Insertion, t: Token)
    ensures TimesInserted(log + [x], t) == TimesInserted(log, t) + if x.token == t then 1 else 0
  {
    assert (log + [x])[..|log|] == log;
  }

  lemma OneMoreAccepted(log: seq<Acceptance>, x: Acceptance, t: Token)
    ensures TimesAccepted(log + [x], t) == TimesAccepted(log, t) + if x.token == t then 1 else 0
  {
    assert (log + [x])[..|log|] == log;
  }

  /** Acceptances of a token and its presence in the table never exceed its insertions. */
  ghost predicate SingleUse(s: State, t: Token) {
    TimesAccepted(s.accepted, t) + (if t in s.pending then 1 else 0) <= TimesInserted(s.inserted, t)
  }

  lemma SingleUseIssue(s: State, req: Request, now: int, nonce: Option<Token>, kept: set<Token>, t: Token)
    requires SingleUse(s, t)
    ensures SingleUse(Step(s, Issue(req, now, nonce, kept)), t)
  {
    if !AnyMatch(s.pending, req, now) && Inserts(s.pending, req, now, nonce) {
      OneMoreInserted(s.inserted, Insertion(nonce.value, req, now), t);
    }
  }

  lemma SingleUseVerify(s: State, proof: Proof, src: Key, target: Key, mode: Mode, now: int, t: Token)
    requires SingleUse(s, t)
    ensures SingleUse(Step(s, Verify(proof, src, target, mode, now)), t)
  {
    if Accepts(s.pending, proof, src, target, mode, now) {
      var token := Looked(proof, src, target).value;
      assert token in s.pending && token !in AfterVerify(s.pending, proof, src, target);
      OneMoreAccepted(s.accepted, Acceptance(token, src, target, mode, now, |s.inserted|), t);
    }
  }

  lemma SingleUseStep(s: State, e: Event, t: Token)
    requires SingleUse(s, t)
    ensures SingleUse(Step(s, e), t)
  {
    match e
    case Issue(req, now, nonce, kept) => SingleUseIssue(s, req, now, nonce, kept, t);
    case Verify(proof, src, target, mode, now) => SingleUseVerify(s, proof, src, target, mode, now, t);
  }

  lemma {:induction false} SingleUseAlways(events: seq<Event>, t: Token)
    ensures SingleUse(Run(events), t)
  {
    if events != [] {
      SingleUseAlways(events[..|events| - 1], t);
      SingleUseStep(Run(events[..|events| - 1]), events[|events| - 1], t);
    }
  }

  /** Insertion i put this challenge into the table. */
  ghost predicate PutBy(x: Insertion, t: Token, c: Challenge) {
    x.token == t && x.req == c.req && c.expires == x.at + TTL
  }

  ghost predicate Backed(s: State) {
    forall t :: t in s.pending ==> exists i :: 0 <= i < |s.inserted| && PutBy(s.inserted[i], t, s.pending[t])
  }

  /** The acceptance answers an earlier challenge for the same source, target and mode, issued less
      than 30 s before. */
  ghost predicate Answers(a: Acceptance, x: Insertion) {
    && a.token == x.token && a.src == x.req.src && a.target == x.req.target && a.mode == x.req.mode
    && a.at - x.at < TTL
  }

  ghost predicate Justified(s: State) {
    forall n :: 0 <= n < |s.accepted| ==>
      && s.accepted[n].after <= |s.inserted|
      && exists i :: 0 <= i < s.accepted[n].after && Answers(s.accepted[n], s.inserted[i])
  }

  lemma BackedStep(s: State, e: Event)
    requires Backed(s)
    ensures Backed(Step(s, e))
  {
    var r := Step(s, e);
    forall t | t in r.pending ensures exists i :: 0 <= i < |r.inserted| && PutBy(r.inserted[i], t, r.pending[t]) {
      if t in s.pending && r.pending[t] == s.pending[t] {
        var i :| 0 <= i < |s.inserted| && PutBy(s.inserted[i], t, s.pending[t]);
        assert r.inserted[i] == s.inserted[i];
      } else {
        assert PutBy(r.inserted[|s.inserted|], t, r.pending[t]);
      }
    }
  }

  lemma JustifiedStep(s: State, e: Event)
    requires Backed(s) && Justified(s)
    ensures Justified(Step(s, e))
  {
    var r := Step(s, e);
    forall n | 0 <= n < |r.accepted|
      ensures r.accepted[n].after <= |r.inserted|
      ensures exists i :: 0 <= i < r.accepted[n].after && Answers(r.accepted[n], r.inserted[i])
    {
      if n < |s.accepted| {
        var i :| 0 <= i < s.accepted[n].after && Answers(s.accepted[n], s.inserted[i]);
        assert r.inserted[i] == s.inserted[i];
      } else {
        var t := r.accepted[n].token;
        var i :| 0 <= i < |s.inserted| && PutBy(s.inserted[i], t, s.pending[t]);
        assert Answers(r.accepted[n], r.inserted[i]);
      }
    }
  }

  lemma {:induction false} JustifiedAlways(events: seq<Event>)
    ensures Backed(Run(events)) && Justified(Run(events))
  {
    if events != [] {
      JustifiedAlways(events[..|events| - 1]);
      BackedStep(Run(events[..|events| - 1]), events[|events| - 1]);
      JustifiedStep(Run(events[..|events| - 1]), events[|events| - 1]);
    }
  }
  // ---------------------------------------------------------------- a valid proof is accepted

  /** Which challenges issue adds, in terms of the expiry times in the table: one for a request that has
      none outstanding, with an unused nonce, while the source, the client and the table have room. */
  lemma IssueInsertsExactly(s: State, req: Request, now: int, nonce: Option<Token>, kept: set<Token>)
    ensures var live := set t | t in s.pending && s.pending[t].expires > now;
            var ofSource := set t | t in live && s.pending[t].req.src == req.src;
            var ofClient := set t | t in live && s.pending[t].req.client == req.client;
            Step(s, Issue(req, now, nonce, kept)).inserted ==
            if (forall t :: t in live ==> s.pending[t].req != req) && nonce.Some? && nonce.value !in live
               && |ofSource| < 4 && |ofClient| < 64 && |live| < 1024
            then s.inserted + [Insertion(nonce.value, req, now)] else s.inserted
  {
    var live := set t | t in s.pending && s.pending[t].expires > now;
    var q := LiveOnly(s.pending, now);
    assert q.Keys == live && |q| == |q.Keys|;
    assert FromSource(q, req.src) == set t | t in live && s.pending[t].req.src == req.src;
    assert FromClient(q, req.client) == set t | t in live && s.pending[t].req.client == req.client;
    assert forall t :: t in live && s.pending[t].req == req <==> Matches(s.pending, req, now, t);
  }

  predicate Holds(s: State, t: Token, req: Request, expires: int) {
    t in s.pending && s.pending[t] == Challenge(req, expires)
  }

  /** The event neither uses token t up nor clears out challenges that expire at `until`: no issue comes
      that late, and no key proves itself with t. */
  predicate Spares(e: Event, t: Token, until: int) {
    match e
    case Issue(_, now, _, _) => now < until
    case Verify(proof, src, target, _, _) => !(proof == Sealed(src, t) && src != ZERO_KEY && target != ZERO_KEY)
  }

  lemma SparedStep(s: State, e: Event, t: Token, req: Request, until: int)
    requires Holds(s, t, req, until) && Spares(e, t, until)
    ensures Holds(Step(s, e), t, req, until)
  {
    match e
    case Issue(r, now, nonce, kept) => assert t in LiveOnly(s.pending, now);
    case Verify(proof, src, target, mode, now) =>
  }

  lemma {:induction false} SparedRun(events: seq<Event>, m: nat, t: Token, req: Request, until: int)
    requires m <= |events| && Holds(Run(events[..m]), t, req, until)
    requires forall n :: m <= n < |events| ==> Spares(events[n], t, until)
    ensures Holds(Run(events), t, req, until)
  {
    if m == |events| {
      assert events[..m] == events;
    } else {
      var before := events[..|events| - 1];
      assert before[..m] == events[..m];
      SparedRun(before, m, t, req, until);
      SparedStep(Run(before), events[|events| - 1], t, req, until);
    }
  }

  /** A held challenge is good for a proof by its source, for either mode, until it expires. */
  lemma HeldIsAccepted(s: State, t: Token, req: Request, until: int, now: int)
    requires Holds(s, t, req, until) && req.src != ZERO_KEY && req.target != ZERO_KEY && now < until
    ensures Step(s, Verify(Sealed(req.src, t), req.src, req.target, req.mode, now)).accepted ==
            s.accepted + [Acceptance(t, req.src, req.target, req.mode, now, |s.inserted|)]
  {
  }

  lemma InsertedIsHeld(s: State, e: Event, t: Token, req: Request, at: int)
    requires Step(s, e).inserted == s.inserted + [Insertion(t, req, at)]
    ensures Holds(Step(s, e), t, req, at + TTL)
  {
    assert Step(s, e).inserted[|s.inserted|] == Insertion(t, req, at);
  }

  /** In every run: when event m issued token t for this source, target and mode at time `at`, nobody has
      proved himself with t since, and no issue has come 30 s later, then at every time before that the
      proof by the source is accepted, and logged. */
  lemma ValidProofAccepted(events: seq<Event>, m: nat, t: Token, req: Request, at: int, now: int)
    requires m < |events|
    requires Run(events[..m + 1]).inserted == Run(events[..m]).inserted + [Insertion(t, req, at)]
    requires forall n :: m < n < |events| ==> Spares(events[n], t, at + 30_000_000_000)
    requires req.src != ZERO_KEY && req.target != ZERO_KEY && now < at + 30_000_000_000
    ensures var s := Run(events);
            Run(events + [Verify(Sealed(req.src, t), req.src, req.target, req.mode, now)]).accepted ==
            s.accepted + [Acceptance(t, req.src, req.target, req.mode, now, |s.inserted|)]
  {
    var e := Verify(Sealed(req.src, t), req.src, req.target, req.mode, now);
    assert events[..m + 1][..m] == events[..m];
    InsertedIsHeld(Run(events[..m]), events[m], t, req, at);
    SparedRun(events, m + 1, t, req, at + TTL);
    HeldIsAccepted(Run(events), t, req, at + TTL, now);
    assert (events + [e])[..|events|] == events;
  }

  /** Whatever token issue answers with, new or reused, was inserted for this very request and is held, with
      time left. */
  lemma AnswerIsHeld(events: seq<Event>, req: Request, now: int, nonce: Option<Token>, kept: set<Token>, o: Issued)
    returns (x: Insertion)
    requires var e := Issue(req, now, nonce, kept);
             MayIssue(Run(events).pending, req, now, nonce, o, Run(events + [e]).pending)
    requires o.Reused? || o.Inserted?
    ensures var s := Run(events + [Issue(req, now, nonce, kept)]);
            && x in s.inserted && x.token == o.token && x.req == req && now < x.at + 30_000_000_000
            && Holds(s, o.token, req, x.at + 30_000_000_000)
  {
    var e := Issue(req, now, nonce, kept);
    var s := Run(events + [e]);
    assert (events + [e])[..|events|] == events;
    JustifiedAlways(events + [e]);
    assert o.token in s.pending && s.pending[o.token].req == req && s.pending[o.token].expires > now;
    var i :| 0 <= i < |s.inserted| && PutBy(s.inserted[i], o.token, s.pending[o.token]);
    x := s.inserted[i];
  }

  /** ... so the answer is good for a proof, in every continuation that spares it. */
  lemma AnswerAccepted(events: seq<Event>, m: nat, x: Insertion, now: int)
    requires m <= |events| && Holds(Run(events[..m]), x.token, x.req, x.at + 30_000_000_000)
    requires forall n :: m <= n < |events| ==> Spares(events[n], x.token, x.at + 30_000_000_000)
    requires x.req.src != ZERO_KEY && x.req.target != ZERO_KEY && now < x.at + 30_000_000_000
    ensures var s := Run(events);
            Run(events + [Verify(Sealed(x.req.src, x.token), x.req.src, x.req.target, x.req.mode, now)]).accepted ==
            s.accepted + [Acceptance(x.token, x.req.src, x.req.target, x.req.mode, now, |s.inserted|)]
  {
    var e := Verify(Sealed(x.req.src, x.token), x.req.src, x.req.target, x.req.mode, now);
    SparedRun(events, m, x.token, x.req, x.at + TTL);
    HeldIsAccepted(Run(events), x.token, x.req, x.at + TTL, now);
    assert (events + [e])[..|events|] == events;
  }
}
