/** Each handler method, with nothing in between, is a run of the protocol: same store, same answer. */
module HandlerRuns {
  import opened Prelude
  import opened Txn
  import opened Verify
  import opened Protocol
  import opened ProtocolService
  import Reader
  import H = Records
  import W = Handlers
  import I = Issuer
  import T = Token
  import S = Store
  import R = StoreRuns

  // ---- GET /auth -------------------------------------------------------------------------------

  /** The answer of a GET handler that is done. */
  predicate GetGave(h: Handler, issued: Result<I.IssuedChallenge, AuthError>, r: W.Response<Transaction>) {
    match h
    case Failed => issued.Err? && r == W.Response.Refused(issued.error)
    case Post(_, _, _) => false
    case Get(grant, progress, live) =>
      !live && if progress == Answered then r == W.Success(grant.challenge.tx) else progress == Issued && r.Unavailable?
  }

  lemma GetFails(env: Env, d: Deployment, s: State, p: Pid, req: I.IssueRequest, resolve: I.Resolve, build: I.Build)
    returns (events: seq<Event>, s': State)
    requires p !in s.handlers && I.LawfulBuild(env, d.issuer, build)
    requires I.Issued(env, d.issuer, req, resolve, build).Err?
    ensures Path(env, d, s, events, s') && s'.db == s.db && s'.handlers == s.handlers[p := Failed]
  {
    assert Path(env, d, s, [], s);
    PathThen(env, d, s, [], s, Issue(p, req, resolve, build));
    events := [] + [Issue(p, req, resolve, build)];
    s' := Step(env, d, s, Issue(p, req, resolve, build));
  }

  /** The INSERT finds the nonce taken. */
  lemma GetUnavailable(env: Env, d: Deployment, s: State, p: Pid, req: I.IssueRequest, resolve: I.Resolve,
                       build: I.Build, at: int)
    returns (events: seq<Event>, s': State)
    requires p !in s.handlers && s.clock <= at && I.LawfulBuild(env, d.issuer, build)
    requires I.Issued(env, d.issuer, req, resolve, build).Ok?
    requires I.Issued(env, d.issuer, req, resolve, build).value.nonce in s.db.challenges
    ensures Path(env, d, s, events, s') && s'.db == s.db
    ensures p in s'.handlers && s'.handlers[p].Get? && s'.handlers[p].progress == Issued && !s'.handlers[p].live
  {
    var s1 := Step(env, d, s, Issue(p, req, resolve, build));
    assert Path(env, d, s, [], s);
    PathThen(env, d, s, [], s, Issue(p, req, resolve, build));
    PathThen(env, d, s, [] + [Issue(p, req, resolve, build)], s1, Record(p, at));
    events := [] + [Issue(p, req, resolve, build)] + [Record(p, at)];
    s' := Step(env, d, s1, Record(p, at));
  }

  /** GetAuth, its parameters parsed, is the run Issue, Record, Respond, as far as it gets. */
  lemma GetIsARun(env: Env, d: Deployment, s: State, p: Pid, req: I.IssueRequest, resolve: I.Resolve, build: I.Build,
                  at: int)
    returns (events: seq<Event>, s': State)
    requires p !in s.handlers && s.clock <= at && I.LawfulBuild(env, d.issuer, build)
    ensures Path(env, d, s, events, s') && p in s'.handlers
    ensures var (after, r) := W.GetOutcome(env, d.issuer, s.db, req, resolve, build, at);
      s'.db == after && GetGave(s'.handlers[p], I.Issued(env, d.issuer, req, resolve, build), r)
  {
    var issued := I.Issued(env, d.issuer, req, resolve, build);
    if issued.Err? {
      events, s' := GetFails(env, d, s, p, req, resolve, build);
    } else if issued.value.nonce in s.db.challenges {
      events, s' := GetUnavailable(env, d, s, p, req, resolve, build, at);
    } else {
      events, s' := GetServed(env, d, s, p, req, resolve, build, at);
    }
  }

  // ---- POST /auth ------------------------------------------------------------------------------

  /** The answer of a POST handler that is done. */
  ghost predicate PostGave(env: Env, d: Deployment, h: Handler, reading: Result<Challenge, AuthError>,
                           r: W.Response<T.Claims>)
  {
    match h
    case Failed => reading.Err? && r == W.Response.Refused(reading.error)
    case Get(_, _, _) => false
    case Post(ch, stage, live) => !live && StageGave(env, d, ch, stage, r)
  }

  ghost predicate StageGave(env: Env, d: Deployment, ch: Challenge, stage: PostStage, r: W.Response<T.Claims>) {
    match stage
    case Classified(_, arm) => r == W.Response.Refused(S.ErrorOf(arm))
    case Claimed(_, row) => !SameClient(ch, row) && r == W.Response.Refused(ChallengeMalformed)
    case Refused(_, _, accounts) =>
      var v := ClientVerdict(env, ch, accounts);
      v.Err? && r == W.Response.Refused(v.error)
    case Verified(now, _, _) =>
      r == if T.Issue(d.tokens, H.TokenRequest(env, ch, now)).Err? then W.Internal else W.Unavailable
    case Delivered(_, _, _, claims) => r == W.Success(claims)
    case _ => false
  }

  lemma ReadFails(env: Env, d: Deployment, s: State, p: Pid, posted: Posted, readAt: int)
    returns (events: seq<Event>, s': State)
    requires p !in s.handlers && s.clock <= readAt && Unforged(env, d, s, posted)
    requires Reader.Read(env, d.issuer.cfg, posted, readAt / SECOND).Err?
    ensures Path(env, d, s, events, s') && s'.db == s.db && s'.handlers == s.handlers[p := Failed]
  {
    assert Path(env, d, s, [], s);
    PathThen(env, d, s, [], s, Read(p, posted, readAt));
    events := [] + [Read(p, posted, readAt)];
    s' := Step(env, d, s, Read(p, posted, readAt));
  }

  lemma ReadsThenClock(env: Env, d: Deployment, s: State, p: Pid, posted: Posted, ch: Challenge, readAt: int, now: int)
    returns (events: seq<Event>, s': State)
    requires p !in s.handlers && s.clock <= readAt <= now && Unforged(env, d, s, posted)
    requires Reader.Read(env, d.issuer.cfg, posted, readAt / SECOND) == Ok(ch)
    ensures Path(env, d, s, events, s') && s'.db == s.db
    ensures p in s'.handlers && s'.handlers[p] == Post(ch, HasClock(now), true)
  {
    assert Path(env, d, s, [], s);
    PathThen(env, d, s, [], s, Read(p, posted, readAt));
    var s1 := Step(env, d, s, Read(p, posted, readAt));
    PathThen(env, d, s, [] + [Read(p, posted, readAt)], s1, Clock(p, now));
    events := [] + [Read(p, posted, readAt)] + [Clock(p, now)];
    s' := Step(env, d, s1, Clock(p, now));
  }

  lemma MissClassifies(env: Env, d: Deployment, s: State, p: Pid, ch: Challenge, now: int)
    returns (events: seq<Event>, s': State)
    requires p in s.handlers && s.handlers[p] == Post(ch, HasClock(now), true) && !S.Consumable(s.db, ch.nonce, now)
    ensures Path(env, d, s, events, s') && s'.db == s.db
    ensures p in s'.handlers && s'.handlers[p] == Post(ch, Classified(now, S.Inspect(s.db, ch.nonce, now)), false)
  {
    assert Path(env, d, s, [], s);
    PathThen(env, d, s, [], s, Consume(p));
    var s1 := Step(env, d, s, Consume(p));
    PathThen(env, d, s, [] + [Consume(p)], s1, Classify(p));
    events := [] + [Consume(p)] + [Classify(p)];
    s' := Step(env, d, s1, Classify(p));
  }

  lemma HitClaims(env: Env, d: Deployment, s: State, p: Pid, ch: Challenge, now: int)
    returns (events: seq<Event>, s': State)
    requires p in s.handlers && s.handlers[p] == Post(ch, HasClock(now), true) && S.Consumable(s.db, ch.nonce, now)
    ensures var (spent, row) := S.Consume(s.db, ch.nonce, now);
      && Path(env, d, s, events, s') && s'.db == spent
      && p in s'.handlers && s'.handlers[p] == Post(ch, Claimed(now, row.value), true)
  {
    assert Path(env, d, s, [], s);
    PathThen(env, d, s, [], s, Consume(p));
    events := [] + [Consume(p)];
    s' := Step(env, d, s, Consume(p));
  }

  lemma MismatchStops(env: Env, d: Deployment, s: State, p: Pid, ch: Challenge, now: int, row: S.ConsumedChallenge)
    returns (events: seq<Event>, s': State)
    requires p in s.handlers && s.handlers[p] == Post(ch, Claimed(now, row), true) && !SameClient(ch, row)
    ensures Path(env, d, s, events, s') && s'.db == s.db
    ensures p in s'.handlers && s'.handlers[p] == Post(ch, Claimed(now, row), false)
  {
    assert Path(env, d, s, [], s);
    PathThen(env, d, s, [], s, Compare(p));
    events := [] + [Compare(p)];
    s' := Step(env, d, s, Compare(p));
  }

  lemma VerdictStops(env: Env, d: Deployment, s: State, p: Pid, ch: Challenge, now: int, row: S.ConsumedChallenge,
                     accounts: Address -> Lookup)
    returns (events: seq<Event>, s': State)
    requires p in s.handlers && s.handlers[p] == Post(ch, Claimed(now, row), true)
    requires SameClient(ch, row) && ClientVerdict(env, ch, accounts).Err?
    ensures Path(env, d, s, events, s') && s'.db == s.db
    ensures p in s'.handlers && s'.handlers[p] == Post(ch, Refused(now, row, accounts), false)
  {
    assert Path(env, d, s, [], s);
    PathThen(env, d, s, [], s, Compare(p));
    var s1 := Step(env, d, s, Compare(p));
    PathThen(env, d, s, [] + [Compare(p)], s1, Verify(p, accounts));
    events := [] + [Compare(p)] + [Verify(p, accounts)];
    s' := Step(env, d, s1, Verify(p, accounts));
  }

  lemma MintStops(env: Env, d: Deployment, s: State, p: Pid, ch: Challenge, now: int, row: S.ConsumedChallenge,
                  accounts: Address -> Lookup)
    returns (events: seq<Event>, s': State)
    requires p in s.handlers && s.handlers[p] == Post(ch, Verified(now, row, accounts), true)
    requires T.Issue(d.tokens, H.TokenRequest(env, ch, now)).Err? || env.hash(ch.tx.body) in s.db.sessions
    ensures Path(env, d, s, events, s') && s'.db == s.db
    ensures p in s'.handlers && s'.handlers[p] == Post(ch, Verified(now, row, accounts), false)
  {
    assert Path(env, d, s, [], s);
    PathThen(env, d, s, [], s, Mint(p));
    events := [] + [Mint(p)];
    s' := Step(env, d, s, Mint(p));
  }

  /** From a verified challenge on. */
  lemma MintIsARun(env: Env, d: Deployment, s: State, p: Pid, ch: Challenge, now: int, row: S.ConsumedChallenge,
                   accounts: Address -> Lookup, claims: Result<T.Claims, T.TokenError>)
    returns (events: seq<Event>, s': State)
    requires p in s.handlers && s.handlers[p] == Post(ch, Verified(now, row, accounts), true)
    requires claims == T.Issue(d.tokens, H.TokenRequest(env, ch, now))
    ensures Path(env, d, s, events, s') && p in s'.handlers && s'.handlers[p].Post? && s'.handlers[p].ch == ch
    ensures var session := H.SessionOf(env, d.tokens, ch, row.homeDomain, now);
      if claims.Ok? && session.jti !in s.db.sessions then
        && s'.handlers[p] == Post(ch, Delivered(now, row, accounts, claims.value), false)
        && s'.db == S.InsertSession(s.db, session).0
      else s'.handlers[p] == Post(ch, Verified(now, row, accounts), false) && s'.db == s.db
  {
    if claims.Ok? && env.hash(ch.tx.body) !in s.db.sessions {
      events, s' := VerifiedDelivers(env, d, s, p, ch, now, row, accounts);
    } else {
      events, s' := MintStops(env, d, s, p, ch, now, row, accounts);
    }
  }

  /** From a consumed challenge on. */
  lemma ClaimIsARun(env: Env, d: Deployment, s: State, p: Pid, ch: Challenge, now: int, row: S.ConsumedChallenge,
                    accounts: Address -> Lookup, after: S.Db, r: W.Response<T.Claims>)
    returns (events: seq<Event>, s': State)
    requires p in s.handlers && s.handlers[p] == Post(ch, Claimed(now, row), true)
    requires (after, r) == W.ClaimOutcome(env, d.tokens, s.db, ch, row, ClientVerdict(env, ch, accounts), now)
    ensures Path(env, d, s, events, s') && p in s'.handlers && s'.db == after
    ensures s'.handlers[p].Post? && !s'.handlers[p].live && s'.handlers[p].ch == ch
    ensures StageGave(env, d, ch, s'.handlers[p].stage, r)
  {
    if !SameClient(ch, row) {
      events, s' := MismatchStops(env, d, s, p, ch, now, row);
    } else if ClientVerdict(env, ch, accounts).Err? {
      events, s' := VerdictStops(env, d, s, p, ch, now, row, accounts);
    } else {
      var e1, s1 := ClaimVerifies(env, d, s, p, ch, now, row, accounts);
      var claims := T.Issue(d.tokens, H.TokenRequest(env, ch, now));
      var e2, s2 := MintIsARun(env, d, s1, p, ch, now, row, accounts, claims);
      PathConcat(env, d, s, e1, s1, e2, s2);
      events, s' := e1 + e2, s2;
    }
  }

  /** From the handler's clock reading on. */
  lemma SpendIsARun(env: Env, d: Deployment, s: State, p: Pid, ch: Challenge, accounts: Address -> Lookup, now: int,
                    after: S.Db, r: W.Response<T.Claims>)
    returns (events: seq<Event>, s': State)
    requires p in s.handlers && s.handlers[p] == Post(ch, HasClock(now), true)
    requires (after, r) == W.SpendOutcome(env, d.tokens, s.db, ch, ClientVerdict(env, ch, accounts), now)
    ensures Path(env, d, s, events, s') && p in s'.handlers && s'.db == after
    ensures s'.handlers[p].Post? && !s'.handlers[p].live && s'.handlers[p].ch == ch
    ensures StageGave(env, d, ch, s'.handlers[p].stage, r)
  {
    var (spent, row) := S.Consume(s.db, ch.nonce, now);
    W.SpendOrNot(env, d.tokens, s.db, ch, ClientVerdict(env, ch, accounts), now, spent, row);
    if row.None? {
      events, s' := MissClassifies(env, d, s, p, ch, now);
    } else {
      var e1, s1 := HitClaims(env, d, s, p, ch, now);
      var e2, s2 := ClaimIsARun(env, d, s1, p, ch, now, row.value, accounts, after, r);
      PathConcat(env, d, s, e1, s1, e2, s2);
      events, s' := e1 + e2, s2;
    }
  }

  /**
   PostAuth is the run Read, Clock, Consume and then Classify, or Compare, Verify, Mint and Deliver, as far
   as it gets.
   */
  lemma PostIsARun(env: Env, d: Deployment, s: State, p: Pid, posted: Posted, accounts: Address -> Lookup,
                   readAt: int, now: int)
    returns (events: seq<Event>, s': State)
    requires p !in s.handlers && s.clock <= readAt <= now && Unforged(env, d, s, posted)
    ensures Path(env, d, s, events, s') && p in s'.handlers
    ensures var (after, r) := W.PostOutcome(env, d.issuer.cfg, d.tokens, s.db, posted, accounts, readAt, now);
      && s'.db == after
      && PostGave(env, d, s'.handlers[p], Reader.Read(env, d.issuer.cfg, posted, readAt / SECOND), r)
  {
    var reading := Reader.Read(env, d.issuer.cfg, posted, readAt / SECOND);
    if reading.Err? {
      events, s' := ReadFails(env, d, s, p, posted, readAt);
    } else {
      var e1, s1 := ReadsThenClock(env, d, s, p, posted, reading.value, readAt, now);
      var (after, r) := W.PostOutcome(env, d.issuer.cfg, d.tokens, s.db, posted, accounts, readAt, now);
      var e2, s2 := SpendIsARun(env, d, s1, p, reading.value, accounts, now, after, r);
      PathConcat(env, d, s, e1, s1, e2, s2);
      events, s' := e1 + e2, s2;
    }
  }
}
