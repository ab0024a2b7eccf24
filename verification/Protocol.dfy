/**
 The server as a whole: GET and POST handlers of internal/httpapi/auth_handler.go and the cleanup loop,
 interleaved statement by statement over one store. Times are nanoseconds on one clock.
 */
module Protocol {
  import opened Prelude
  import opened Txn
  import opened Reader
  import opened Verify
  import H = Records
  import I = Issuer
  import T = Token
  import S = Store
  import R = StoreRuns

  type Pid = nat

  datatype Deployment = Deployment(issuer: I.Issuer, tokens: T.Issuer)

  /** What a GET handler signed: the request, the client domain's key and the challenge. */
  datatype Grant = Grant(req: I.IssueRequest, key: Address, challenge: I.IssuedChallenge)

  /** How far a handler got. A handler that stopped early, for whatever reason, stays at its stage with live off. */
  datatype GetStage = Issued | Recorded | Answered

  datatype PostStage =
    | HasRead
    | HasClock(now: int)
    | Missed(now: int)
    | Classified(now: int, arm: S.Arm)
    | Claimed(now: int, row: S.ConsumedChallenge)
    | Agreed(now: int, row: S.ConsumedChallenge)
    | Verified(now: int, row: S.ConsumedChallenge, accounts: Address -> Lookup)
    | Refused(now: int, row: S.ConsumedChallenge, accounts: Address -> Lookup)
    | Minted(now: int, row: S.ConsumedChallenge, accounts: Address -> Lookup, claims: T.Claims)
    | Delivered(now: int, row: S.ConsumedChallenge, accounts: Address -> Lookup, claims: T.Claims)

  datatype Handler =
    | Failed
    | Get(grant: Grant, progress: GetStage, live: bool)
    | Post(ch: Challenge, stage: PostStage, live: bool)

  /** log is history: the statements the store has run. */
  datatype State = State(clock: int, db: S.Db, handlers: map<Pid, Handler>, log: seq<R.Statement>)

  const INIT := State(0, S.EMPTY, map[], [])

  datatype Event =
    | Issue(p: Pid, req: I.IssueRequest, resolve: I.Resolve, build: I.Build)
    | Record(p: Pid, at: int)
    | Respond(p: Pid)
    | Read(p: Pid, posted: Posted, at: int)
    | Clock(p: Pid, at: int)
    | Consume(p: Pid)
    | Classify(p: Pid)
    | Compare(p: Pid)
    | Verify(p: Pid, accounts: Address -> Lookup)
    | Mint(p: Pid)
    | Deliver(p: Pid)
    | Cleanup(before: int, at: int)
    | Crash(p: Pid)

  // ---- Steps -----------------------------------------------------------------------------------

  predicate RecordedBy(s: State, g: Pid) {
    g in s.handlers && s.handlers[g].Get? && s.handlers[g].progress != Issued
  }

  predicate AnsweredBy(s: State, g: Pid) {
    g in s.handlers && s.handlers[g].Get? && s.handlers[g].progress == Answered
  }

  /** Only signatures the server has handed out can be posted back: the hash is that of an answered challenge. */
  ghost predicate Unforged(env: Env, d: Deployment, s: State, posted: Posted) {
    posted.Plain? && Signed(env, posted.tx, d.issuer.cfg.server) ==>
      exists g :: AnsweredBy(s, g) && env.hash(s.handlers[g].grant.challenge.tx.body) == env.hash(posted.tx.body)
  }

  predicate Getting(s: State, p: Pid, progress: GetStage) {
    p in s.handlers && s.handlers[p].Get? && s.handlers[p].live && s.handlers[p].progress == progress
  }

  predicate Posting(s: State, p: Pid) {
    p in s.handlers && s.handlers[p].Post? && s.handlers[p].live
  }

  ghost predicate Enabled(env: Env, d: Deployment, s: State, e: Event) {
    match e
    case Issue(p, _, _, build) => p !in s.handlers && I.LawfulBuild(env, d.issuer, build)
    case Record(p, at) => Getting(s, p, Issued) && s.clock <= at
    case Respond(p) => Getting(s, p, Recorded)
    case Read(p, posted, at) => p !in s.handlers && s.clock <= at && Unforged(env, d, s, posted)
    case Clock(p, at) => Posting(s, p) && s.handlers[p].stage.HasRead? && s.clock <= at
    case Consume(p) => Posting(s, p) && s.handlers[p].stage.HasClock?
    case Classify(p) => Posting(s, p) && s.handlers[p].stage.Missed?
    case Compare(p) => Posting(s, p) && s.handlers[p].stage.Claimed?
    case Verify(p, _) => Posting(s, p) && s.handlers[p].stage.Agreed?
    case Mint(p) => Posting(s, p) && s.handlers[p].stage.Verified?
    case Deliver(p) => Posting(s, p) && s.handlers[p].stage.Minted?
    case Cleanup(before, at) => s.clock <= at && before <= at
    case Crash(p) => p in s.handlers && !s.handlers[p].Failed?
  }

  function Put(s: State, p: Pid, h: Handler): State {
    s.(handlers := s.handlers[p := h])
  }

  /** Handler p runs one SQL statement and moves on. */
  function Exec(s: State, st: R.Statement, p: Pid, h: Handler): State {
    State(s.clock, R.Apply(s.db, st), s.handlers[p := h], s.log + [st])
  }

  function AfterIssue(req: I.IssueRequest, key: Address, r: Result<I.IssuedChallenge, AuthError>): Handler {
    match r
    case Err(_) => Failed
    case Ok(issued) => Get(Grant(req, key, issued), Issued, true)
  }

  function StepRecord(s: State, p: Pid, g: Grant, at: int): State {
    var ok := S.InsertChallenge(s.db, H.RecordOf(g.challenge, at)).1;
    Exec(s, R.Insert(H.RecordOf(g.challenge, at)), p, Get(g, if ok then Recorded else Issued, ok)).(clock := at)
  }

  function AfterRead(r: Result<Challenge, AuthError>): Handler {
    match r
    case Err(_) => Failed
    case Ok(ch) => Post(ch, HasRead, true)
  }

  function StepConsume(s: State, p: Pid, ch: Challenge, now: int): State {
    var stage := match S.Consume(s.db, ch.nonce, now).1 case None => Missed(now) case Some(row) => Claimed(now, row);
    Exec(s, R.Update(ch.nonce, now), p, Post(ch, stage, true))
  }

  function StepClassify(s: State, p: Pid, ch: Challenge, now: int): State {
    Exec(s, R.Select(ch.nonce, now), p, Post(ch, Classified(now, S.Inspect(s.db, ch.nonce, now)), false))
  }

  function AfterCompare(ch: Challenge, now: int, row: S.ConsumedChallenge): Handler {
    if SameClient(ch, row) then Post(ch, Agreed(now, row), true)
    else Post(ch, Claimed(now, row), false)
  }

  function AfterVerify(ch: Challenge, now: int, row: S.ConsumedChallenge, accounts: Address -> Lookup,
                       ok: bool): Handler {
    Post(ch, if ok then Verified(now, row, accounts) else Refused(now, row, accounts), ok)
  }

  function StepMint(s: State, p: Pid, ch: Challenge, now: int, row: S.ConsumedChallenge, accounts: Address -> Lookup,
                    session: S.SessionRecord, r: Result<T.Claims, T.TokenError>): State {
    match r
    case Err(_) => Put(s, p, Post(ch, Verified(now, row, accounts), false))
    case Ok(claims) =>
      var ok := S.InsertSession(s.db, session).1;
      Exec(s, R.InsertInto(session), p,
           Post(ch, if ok then Minted(now, row, accounts, claims) else Verified(now, row, accounts), ok))
  }

  /** The cleanup loop read its clock at `before`; its DELETE runs at `at`, any number of other steps later. */
  function StepCleanup(s: State, before: int, at: int): State {
    State(at, R.Apply(s.db, R.Delete(before)), s.handlers, s.log + [R.Delete(before)])
  }

  function Stopped(h: Handler): Handler {
    if h.Failed? then Failed else h.(live := false)
  }

  ghost function Step(env: Env, d: Deployment, s: State, e: Event): State
    requires Enabled(env, d, s, e)
  {
    match e
    case Issue(p, req, resolve, build) =>
      Put(s, p, AfterIssue(req, I.KeyFor(req, resolve), I.Issued(env, d.issuer, req, resolve, build)))
    case Record(p, at) => StepRecord(s, p, s.handlers[p].grant, at)
    case Respond(p) => Put(s, p, Get(s.handlers[p].grant, Answered, false))
    case Read(p, posted, at) => Put(s, p, AfterRead(Reader.Read(env, d.issuer.cfg, posted, at / SECOND))).(clock := at)
    case Clock(p, at) => Put(s, p, Post(s.handlers[p].ch, HasClock(at), true)).(clock := at)
    case Consume(p) => StepConsume(s, p, s.handlers[p].ch, s.handlers[p].stage.now)
    case Classify(p) => StepClassify(s, p, s.handlers[p].ch, s.handlers[p].stage.now)
    case Compare(p) => Put(s, p, AfterCompare(s.handlers[p].ch, s.handlers[p].stage.now, s.handlers[p].stage.row))
    case Verify(p, accounts) =>
      var ch, st := s.handlers[p].ch, s.handlers[p].stage;
      Put(s, p, AfterVerify(ch, st.now, st.row, accounts, ClientVerdict(env, ch, accounts).Ok?))
    case Mint(p) =>
      var ch, now, row := s.handlers[p].ch, s.handlers[p].stage.now, s.handlers[p].stage.row;
      StepMint(s, p, ch, now, row, s.handlers[p].stage.accounts, H.SessionOf(env, d.tokens, ch, row.homeDomain, now),
               T.Issue(d.tokens, H.TokenRequest(env, ch, now)))
    case Deliver(p) =>
      var st := s.handlers[p].stage;
      Put(s, p, Post(s.handlers[p].ch, Delivered(st.now, st.row, st.accounts, st.claims), false))
    case Cleanup(before, at) => StepCleanup(s, before, at)
    case Crash(p) => Put(s, p, Stopped(s.handlers[p]))
  }

  /** The state a run leads to, if every event was enabled when it happened. */
  ghost function After(env: Env, d: Deployment, run: seq<Event>): Option<State> {
    if run == [] then Some(INIT)
    else
      match After(env, d, run[..|run| - 1])
      case None => None
      case Some(s) => if Enabled(env, d, s, run[|run| - 1]) then Some(Step(env, d, s, run[|run| - 1])) else None
  }

  ghost predicate Lawful(env: Env, d: Deployment) {
    && LawfulAddresses(env) && LawfulHash(env) && I.LawfulSigner(env, d.issuer) && I.WellConfigured(d.issuer)
  }

  // ---- The invariant ---------------------------------------------------------------------------

  /** Grant g recorded this row. */
  predicate RowFrom(s: State, g: Pid, nonce: string, row: S.Row) {
    && RecordedBy(s, g)
    && var c := s.handlers[g].grant.challenge;
       c.nonce == nonce && c.account == row.account && c.homeDomain == row.homeDomain
       && c.clientDomain == row.clientDomain && c.expiresAt == row.expiresAt
  }

  ghost predicate RowsOk(s: State) {
    forall n :: n in s.db.challenges ==> exists g :: RowFrom(s, g, n, s.db.challenges[n])
  }

  /** Grant g was answered, and the challenge is its body read back. */
  predicate IssuedAs(s: State, g: Pid, ch: Challenge) {
    && AnsweredBy(s, g)
    && var gr := s.handlers[g].grant;
       ch.tx.body == gr.challenge.tx.body && ch == I.ReadBack(gr.req, gr.key, gr.challenge, ch.tx)
  }

  ghost predicate ChallengeOk(s: State, ch: Challenge) {
    exists g :: IssuedAs(s, g, ch)
  }

  /** Grant g recorded what this consumption returned, and had not expired at the handler's own time. */
  predicate ConsumedFrom(s: State, g: Pid, nonce: string, row: S.ConsumedChallenge, now: int) {
    && RecordedBy(s, g)
    && var c := s.handlers[g].grant.challenge;
       c.nonce == nonce && row == S.ConsumedChallenge(c.account, c.homeDomain, c.clientDomain) && now <= c.expiresAt
  }

  ghost predicate ConsumptionOk(s: State, ch: Challenge, now: int, row: S.ConsumedChallenge) {
    exists g :: ConsumedFrom(s, g, ch.nonce, row, now)
  }

  predicate NotEarly(ch: Challenge, t: int) {
    (ch.tx.body.minTime - CLOCK_GRACE) * SECOND <= t
  }

  predicate SameClient(ch: Challenge, row: S.ConsumedChallenge) {
    H.SameClient(ch, row.account, row.clientDomain)
  }

  ghost predicate TokenOk(env: Env, d: Deployment, s: State, ch: Challenge, now: int, row: S.ConsumedChallenge,
                          claims: T.Claims) {
    && T.Issue(d.tokens, H.TokenRequest(env, ch, now)) == Ok(claims)
    && claims.jti in s.db.sessions && s.db.sessions[claims.jti] == H.SessionOf(env, d.tokens, ch, row.homeDomain, now)
  }

  ghost predicate StageOk(env: Env, d: Deployment, s: State, ch: Challenge, stage: PostStage) {
    && NotEarly(ch, if stage.HasRead? then s.clock else stage.now)
    && (!stage.HasRead? ==> stage.now <= s.clock)
    && match stage
       case HasRead => true
       case HasClock(now) => true
       case Missed(now) => true
       case Classified(now, arm) => true
       case Claimed(now, row) => ConsumptionOk(s, ch, now, row)
       case Agreed(now, row) => ConsumptionOk(s, ch, now, row) && SameClient(ch, row)
       case Verified(now, row, accounts) =>
         ConsumptionOk(s, ch, now, row) && SameClient(ch, row) && ClientVerdict(env, ch, accounts).Ok?
       case Refused(now, row, accounts) => ConsumptionOk(s, ch, now, row)
       case Minted(now, row, accounts, claims) =>
         && ConsumptionOk(s, ch, now, row) && SameClient(ch, row) && ClientVerdict(env, ch, accounts).Ok?
         && TokenOk(env, d, s, ch, now, row, claims)
       case Delivered(now, row, accounts, claims) =>
         && ConsumptionOk(s, ch, now, row) && SameClient(ch, row) && ClientVerdict(env, ch, accounts).Ok?
         && TokenOk(env, d, s, ch, now, row, claims)
  }

  ghost predicate HandlerOk(env: Env, d: Deployment, s: State, h: Handler) {
    match h
    case Failed => true
    case Get(g, _, _) => I.IssuedBody(env, d.issuer, g.req, g.key, g.challenge, g.challenge.tx.body)
    case Post(ch, stage, _) => ChallengeOk(s, ch) && StageOk(env, d, s, ch, stage)
  }

  ghost predicate HandlersOk(env: Env, d: Deployment, s: State) {
    forall p :: p in s.handlers ==> HandlerOk(env, d, s, s.handlers[p])
  }

  ghost predicate Inv(env: Env, d: Deployment, s: State) {
    HandlersOk(env, d, s) && RowsOk(s) && s.db == R.After(s.log)
  }

  // ---- Preservation ----------------------------------------------------------------------------

  /** A handler's later self: a GET keeps its grant and its progress. */
  predicate Later(h: Handler, h': Handler) {
    h.Get? ==> h'.Get? && h'.grant == h.grant && (h.progress != Issued ==> h'.progress != Issued)
               && (h.progress == Answered ==> h'.progress == Answered)
  }

  ghost predicate Grows(s: State, s': State) {
    && s.clock <= s'.clock
    && (forall p :: p in s.handlers ==> p in s'.handlers && Later(s.handlers[p], s'.handlers[p]))
    && (forall j :: j in s.db.sessions ==> j in s'.db.sessions && s'.db.sessions[j] == s.db.sessions[j])
  }

  /** The handler's UPDATE matched. */
  predicate Consumed(stage: PostStage) {
    match stage
    case HasRead | HasClock(_) | Missed(_) | Classified(_, _) => false
    case _ => true
  }

  lemma HandlerOkGrows(env: Env, d: Deployment, s: State, s': State, h: Handler)
    requires Grows(s, s') && HandlerOk(env, d, s, h)
    ensures HandlerOk(env, d, s', h)
  {
    if h.Post? {
      var g :| IssuedAs(s, g, h.ch);
      assert IssuedAs(s', g, h.ch);
      if Consumed(h.stage) {
        ConsumptionGrows(s, s', h.ch, h.stage.now, h.stage.row);
      }
    }
  }

  lemma ConsumptionGrows(s: State, s': State, ch: Challenge, now: int, row: S.ConsumedChallenge)
    requires Grows(s, s') && ConsumptionOk(s, ch, now, row)
    ensures ConsumptionOk(s', ch, now, row)
  {
    var g :| ConsumedFrom(s, g, ch.nonce, row, now);
    assert ConsumedFrom(s', g, ch.nonce, row, now);
  }

  predicate SameButConsumed(a: S.Row, b: S.Row) {
    a.(consumedAt := None) == b.(consumedAt := None)
  }

  /** No row is new, and none changes but for being consumed. */
  predicate NoNewRows(db: S.Db, db': S.Db) {
    forall n :: n in db'.challenges ==> n in db.challenges && SameButConsumed(db'.challenges[n], db.challenges[n])
  }

  lemma RowsKept(s: State, s': State)
    requires RowsOk(s) && Grows(s, s') && NoNewRows(s.db, s'.db)
    ensures RowsOk(s')
  {
    forall n | n in s'.db.challenges ensures exists g :: RowFrom(s', g, n, s'.db.challenges[n]) {
      var g :| RowFrom(s, g, n, s.db.challenges[n]);
      assert RowFrom(s', g, n, s'.db.challenges[n]);
    }
  }

  lemma LogKept(s: State, st: R.Statement)
    requires s.db == R.After(s.log)
    ensures R.Apply(s.db, st) == R.After(s.log + [st])
  {
    assert (s.log + [st])[..|s.log|] == s.log;
  }

  /** A step of one handler keeps the invariant when the handler itself ends up well. */
  lemma HandlersKept(env: Env, d: Deployment, s: State, s': State, p: Pid, h: Handler)
    requires HandlersOk(env, d, s) && Grows(s, s')
    requires s'.handlers == s.handlers[p := h] && HandlerOk(env, d, s', h)
    ensures HandlersOk(env, d, s')
  {
    forall q | q in s'.handlers ensures HandlerOk(env, d, s', s'.handlers[q]) {
      if q != p { HandlerOkGrows(env, d, s, s', s.handlers[q]); }
    }
  }
}
