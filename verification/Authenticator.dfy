/** Challenges for node-key proofs: bounded, reused for retries, and good for one acceptance. */
module Authenticator {
  import opened Bytes
  import opened Packet
  import opened Wrappers

  /** 30 seconds in nanoseconds. */
  const TTL := 30_000_000_000
  const MAX_PENDING := 1024
  const MAX_PER_SOURCE := 4
  const MAX_PER_CLIENT := 64

  type Token = seq<Byte>

  datatype Mode = Direct | Relay

  datatype Request = Request(src: Key, target: Key, mode: Mode, client: string)

  datatype Challenge = Challenge(req: Request, expires: int)

  type Pending = map<Token, Challenge>

  predicate Live(c: Challenge, now: int) { c.expires > now }

  function LiveOnly(p: Pending, now: int): (r: Pending) { map t | t in p && Live(p[t], now) :: p[t] }

  function FromSource(p: Pending, src: Key): (s: set<Token>) { set t | t in p && p[t].req.src == src }

  function FromClient(p: Pending, client: string): (s: set<Token>) { set t | t in p && p[t].req.client == client }

  ghost predicate Matches(p: Pending, req: Request, now: int, t: Token) { t in p && Live(p[t], now) && p[t].req == req }

  /** Random nonces may fail to be drawn. */
  datatype Issued = Reused(token: Token) | Limit | Failed | Inserted(token: Token)

  predicate Full(p: Pending, req: Request) {
    |FromSource(p, req.src)| >= MAX_PER_SOURCE || |FromClient(p, req.client)| >= MAX_PER_CLIENT || |p| >= MAX_PENDING
  }

  ghost predicate AnyMatch(p: Pending, req: Request, now: int) { exists t :: Matches(p, req, now, t) }

  /** Nothing matches and the expired entries are gone: refuse or insert. */
  ghost predicate InsertsOrNot(q: Pending, req: Request, now: int, nonce: Option<Token>, o: Issued, p': Pending) {
    if Full(q, req) then o == Limit && p' == q
    else if nonce.None? || nonce.value in q then o == Failed && p' == q
    else o == Inserted(nonce.value) && p' == q[nonce.value := Challenge(req, now + TTL)]
  }

  /** What issue may do. The scan over the map stops at a match, so a reuse may leave any of the
      expired entries behind; in all other cases they are gone. */
  ghost predicate MayIssue(p: Pending, req: Request, now: int, nonce: Option<Token>, o: Issued, p': Pending) {
    if AnyMatch(p, req, now) then
      && o.Reused? && Matches(p, req, now, o.token)
      && p'.Keys <= p.Keys && (forall t :: t in p' ==> p'[t] == p[t])
      && forall t :: t in p && Live(p[t], now) ==> t in p'
    else InsertsOrNot(LiveOnly(p, now), req, now, nonce, o, p')
  }

  /** A sealed token; only the holder of the sealer's private key can have made it. */
  datatype Proof = Sealed(sealer: Key, token: Token) | Garbage

  /** OpenFrom: succeeds only for the key that sealed. */
  function Open(src: Key, proof: Proof): (t: Option<Token>) {
    if proof.Sealed? && proof.sealer == src then Some(proof.token) else None
  }

  /** The token that verify looks up, if it gets that far. */
  function Looked(proof: Proof, src: Key, target: Key): (t: Option<Token>) {
    if src == ZERO_KEY || target == ZERO_KEY then None else Open(src, proof)
  }

  predicate AcceptsToken(p: Pending, t: Token, src: Key, target: Key, mode: Mode, now: int) {
    t in p && Live(p[t], now) && p[t].req.src == src && p[t].req.target == target && p[t].req.mode == mode
  }

  predicate Accepts(p: Pending, proof: Proof, src: Key, target: Key, mode: Mode, now: int) {
    Looked(proof, src, target).Some? && AcceptsToken(p, Looked(proof, src, target).value, src, target, mode, now)
  }

  /** verify consumes the token it finds, whether or not it accepts. */
  function AfterVerify(p: Pending, proof: Proof, src: Key, target: Key): (r: Pending) {
    match Looked(proof, src, target)
    case Some(t) => p - {t}
    case None => p
  }

  // ---------------------------------------------------------------- the table

  ghost predicate NoTwins(p: Pending) {
    forall s, t :: s in p && t in p && p[s].req == p[t].req ==> s == t
  }

  ghost predicate Inv(p: Pending) {
    && |p| <= MAX_PENDING
    && (forall src: Key :: |FromSource(p, src)| <= MAX_PER_SOURCE)
    && (forall client: string :: |FromClient(p, client)| <= MAX_PER_CLIENT)
    && NoTwins(p)
  }

  lemma Shrunk(p: Pending, r: Pending)
    requires Inv(p) && r.Keys <= p.Keys && forall t :: t in r ==> r[t] == p[t]
    ensures Inv(r)
  {
    SubsetSize(r.Keys, p.Keys);
    assert |r| == |r.Keys| && |p| == |p.Keys|;
    forall src: Key ensures |FromSource(r, src)| <= MAX_PER_SOURCE {
      SubsetSize(FromSource(r, src), FromSource(p, src));
    }
    forall client: string ensures |FromClient(r, client)| <= MAX_PER_CLIENT {
      SubsetSize(FromClient(r, client), FromClient(p, client));
    }
  }

  lemma MoreFromSource(p: Pending, token: Token, c: Challenge, src: Key)
    requires token !in p
    ensures FromSource(p[token := c], src) == if src == c.req.src
        then FromSource(p, src) + {token} else FromSource(p, src)
    ensures |FromSource(p[token := c], src)| == |FromSource(p, src)| + if src == c.req.src then 1 else 0
  {
  }

  lemma MoreFromClient(p: Pending, token: Token, c: Challenge, client: string)
    requires token !in p
    ensures FromClient(p[token := c], client) == if client == c.req.client
        then FromClient(p, client) + {token} else FromClient(p, client)
    ensures |FromClient(p[token := c], client)| == |FromClient(p, client)| + if client == c.req.client then 1 else 0
  {
  }

  lemma Grown(p: Pending, req: Request, token: Token, expires: int)
    requires Inv(p) && token !in p && !Full(p, req) && forall t :: t in p ==> p[t].req != req
    ensures Inv(p[token := Challenge(req, expires)])
  {
    var c := Challenge(req, expires);
    var r := p[token := c];
    assert r.Keys == p.Keys + {token};
    assert |r| == |r.Keys| && |p| == |p.Keys|;
    forall src: Key ensures |FromSource(r, src)| <= MAX_PER_SOURCE { MoreFromSource(p, token, c, src); }
    forall client: string ensures |FromClient(r, client)| <= MAX_PER_CLIENT { MoreFromClient(p, token, c, client); }
  }

  /** Every issue keeps the bounds and the absence of twins, and removes only expired entries. */
  lemma IssueKeeps(p: Pending, req: Request, now: int, nonce: Option<Token>, o: Issued, p': Pending)
    requires Inv(p) && MayIssue(p, req, now, nonce, o, p')
    ensures Inv(p')
    ensures forall t :: t in p && t !in p' ==> !Live(p[t], now)
    ensures forall t :: t in p && t in p' && Live(p[t], now) ==> p'[t] == p[t]
  {
    var q := LiveOnly(p, now);
    if AnyMatch(p, req, now) {
      Shrunk(p, p');
    } else {
      Shrunk(p, q);
      if !Full(q, req) && nonce.Some? && nonce.value !in q {
        forall t | t in q ensures q[t].req != req {
          assert !Matches(p, req, now, t);
        }
        Grown(q, req, nonce.value, now + TTL);
      }
    }
  }

  /** Reuse, refuse or insert: the answer does not depend on the order of the scan, and what it leaves
      differs only in expired entries. */
  lemma IssueOrderFree(p: Pending, req: Request, now: int, nonce: Option<Token>, o1: Issued, p1: Pending, o2: Issued,
                       p2: Pending)
    requires Inv(p) && MayIssue(p, req, now, nonce, o1, p1) && MayIssue(p, req, now, nonce, o2, p2)
    ensures o1 == o2 && LiveOnly(p1, now) == LiveOnly(p2, now)
  {
    if AnyMatch(p, req, now) {
      SameLive(p, p1, now);
      SameLive(p, p2, now);
    }
  }

  /** Removing expired entries only leaves the live ones. */
  lemma SameLive(p: Pending, r: Pending, now: int)
    requires r.Keys <= p.Keys && (forall t :: t in r ==> r[t] == p[t])
    requires forall t :: t in p && Live(p[t], now) ==> t in r
    ensures LiveOnly(r, now) == LiveOnly(p, now)
  {
  }

  lemma VerifyKeeps(p: Pending, proof: Proof, src: Key, target: Key)
    requires Inv(p)
    ensures Inv(AfterVerify(p, proof, src, target))
  {
    Shrunk(p, AfterVerify(p, proof, src, target));
  }

  // ---------------------------------------------------------------- the scan

  /** The table when the entries in `todo` have not been visited yet. */
  function Visited(p: Pending, todo: set<Token>, now: int): (r: Pending) {
    map t | t in p && (t in todo || Live(p[t], now)) :: p[t]
  }

  /** The live entries that have been visited. */
  function Counted(p: Pending, todo: set<Token>, now: int): (r: Pending) {
    map t | t in p && t !in todo && Live(p[t], now) :: p[t]
  }

  lemma DroppedOne(p: Pending, todo: set<Token>, t: Token, now: int)
    requires t in todo && t in p && !Live(p[t], now)
    ensures Visited(p, todo - {t}, now) == Visited(p, todo, now) - {t}
    ensures Counted(p, todo - {t}, now) == Counted(p, todo, now)
  {
  }

  lemma KeptOne(p: Pending, todo: set<Token>, t: Token, now: int)
    requires t in todo && t in p && Live(p[t], now)
    ensures Visited(p, todo - {t}, now) == Visited(p, todo, now)
    ensures Counted(p, todo - {t}, now) == Counted(p, todo, now)[t := p[t]]
    ensures t !in Counted(p, todo, now)
  {
  }

  lemma AllVisited(p: Pending, now: int)
    ensures Visited(p, {}, now) == LiveOnly(p, now) == Counted(p, {}, now)
  {
  }

  // ---------------------------------------------------------------- the object

  datatype Answer = Authorized | BadIdentity | TooMany | ServerError | ChallengeSent(token: Token)

  class MasqueAuthenticator {
    var pending: Pending

    constructor ()
      ensures pending == map[] && Inv(pending)
    {
      pending := map[];
    }

    /** The scan of issue, in any order: it stops at a match, or has removed every expired entry and
        counted the others. */
    method Scan(req: Request, now: int) returns (found: Option<Token>, sourcePending: nat, addressPending: nat)
      modifies this
      ensures found.Some? ==>
                && Matches(old(pending), req, now, found.value)
                && pending.Keys <= old(pending).Keys && (forall t :: t in pending ==> pending[t] == old(pending)[t])
                && forall t :: t in old(pending) && Live(old(pending)[t], now) ==> t in pending
      ensures found.None? ==>
                && !AnyMatch(old(pending), req, now) && pending == LiveOnly(old(pending), now)
                && sourcePending == |FromSource(pending, req.src)|
                && addressPending == |FromClient(pending, req.client)|
    {
      var todo := pending.Keys;
      sourcePending, addressPending := 0, 0;
      ghost var p := pending;
      while todo != {}
        invariant todo <= p.Keys
        invariant pending == Visited(p, todo, now)
        invariant sourcePending == |FromSource(Counted(p, todo, now), req.src)|
        invariant addressPending == |FromClient(Counted(p, todo, now), req.client)|
        invariant forall t :: t in Counted(p, todo, now) ==> p[t].req != req
        decreases todo
      {
        var token :| token in todo;
        var c := pending[token];
        ghost var before := todo;
        todo := todo - {token};
        if !Live(c, now) {
          DroppedOne(p, before, token, now);
          pending := pending - {token};
        } else {
          KeptOne(p, before, token, now);
          if c.req == req { return Some(token), 0, 0; }
          MoreFromSource(Counted(p, before, now), token, c, req.src);
          MoreFromClient(Counted(p, before, now), token, c, req.client);
          if c.req.src == req.src { sourcePending := sourcePending + 1; }
          if c.req.client == req.client { addressPending := addressPending + 1; }
        }
      }
      AllVisited(p, now);
      assert forall t :: Matches(p, req, now, t) ==> t in Counted(p, {}, now);
      found := None;
    }

    method Issue(req: Request, now: int, nonce: Option<Token>) returns (r: Issued)
      requires Inv(pending)
      modifies this
      ensures MayIssue(old(pending), req, now, nonce, r, pending)
      ensures Inv(pending)
    {
      var found, sourcePending, addressPending := Scan(req, now);
      if found.Some? {
        r := Reused(found.value);
      } else if sourcePending >= MAX_PER_SOURCE || addressPending >= MAX_PER_CLIENT || |pending| >= MAX_PENDING {
        r := Limit;
      } else if nonce.None? || nonce.value in pending {
        r := Failed;
      } else {
        pending := pending[nonce.value := Challenge(req, now + TTL)];
        r := Inserted(nonce.value);
      }
      IssueKeeps(old(pending), req, now, nonce, r, pending);
    }

    method Verify(proof: Proof, src: Key, target: Key, mode: Mode, now: int) returns (ok: bool)
      requires Inv(pending)
      modifies this
      ensures ok == Accepts(old(pending), proof, src, target, mode, now)
      ensures ok <==>
                && src != ZERO_KEY && target != ZERO_KEY && proof.Sealed? && proof.sealer == src
                && proof.token in old(pending) && old(pending)[proof.token].expires > now
                && old(pending)[proof.token].req == Request(src, target, mode, old(pending)[proof.token].req.client)
      ensures pending == AfterVerify(old(pending), proof, src, target) && Inv(pending)
    {
      VerifyKeeps(pending, proof, src, target);
      if src == ZERO_KEY || target == ZERO_KEY { return false; }
      var token := Open(src, proof);
      if token.None? { return false; }
      var found := token.value in pending;
      if !found {
        assert pending - {token.value} == pending;
        return false;
      }
      var c := pending[token.value];
      pending := pending - {token.value};
      return Live(c, now) && c.req.src == src && c.req.target == target && c.req.mode == mode;
    }

    /** A request is authorized only by a valid proof; otherwise it gets a challenge, within limits. A
        zero identity changes nothing. */
    method Authorize(proof: Option<Proof>, req: Request, now: int, nonce: Option<Token>) returns (a: Answer)
      requires Inv(pending)
      modifies this
      ensures Inv(pending)
      ensures a.BadIdentity? <==> req.src == ZERO_KEY || req.target == ZERO_KEY
      ensures a.BadIdentity? ==> pending == old(pending)
      ensures a.Authorized? <==> proof.Some? && Accepts(old(pending), proof.value, req.src, req.target, req.mode, now)
      ensures a.Authorized? ==> pending == AfterVerify(old(pending), proof.value, req.src, req.target)
      ensures a.ChallengeSent? ==> a.token in pending && pending[a.token].req == req && Live(pending[a.token], now)
    {
      if req.src == ZERO_KEY || req.target == ZERO_KEY { return BadIdentity; }
      if proof.Some? {
        var ok := Verify(proof.value, req.src, req.target, req.mode, now);
        if ok { return Authorized; }
      }
      var r := Issue(req, now, nonce);
      match r
      case Limit => a := TooMany;
      case Failed => a := ServerError;
      case Reused(t) => a := ChallengeSent(t);
      case Inserted(t) => a := ChallengeSent(t);
    }
  }
}
