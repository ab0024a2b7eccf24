/**
 internal/httpapi/auth_handler.go: the two handlers, each on its own, as ordered effects on the store.
 Protocol.dfy is what happens when many of them interleave, HandlerRuns.dfy that these are runs of it.
 */
module Handlers {
  import opened Prelude
  import opened Txn
  import opened Reader
  import opened Verify
  import opened Records
  import Acceptance
  import I = Issuer
  import T = Token
  import S = Store

  /** BadRequest and Unavailable are the handlers' own answers; Refused carries a failure class. */
  datatype Response<T> = Success(value: T) | Refused(error: AuthError) | BadRequest | Unavailable | Internal

  /** The account, memo, home_domain and client_domain parameters of GET /auth, as sent. */
  datatype Query = Query(account: string, memo: string, homeDomain: string, clientDomain: string)

  /** What GET /auth does with a request, alone. */
  function GetOutcome(env: Env, iss: I.Issuer, db: S.Db, req: I.IssueRequest, resolve: I.Resolve, build: I.Build,
                      now: int): (S.Db, Response<Transaction>)
  {
    match I.Issued(env, iss, req, resolve, build)
    case Err(e) => (db, Refused(e))
    case Ok(issued) =>
      var (after, ok) := S.InsertChallenge(db, RecordOf(issued, now));
      (after, if ok then Success(issued.tx) else Unavailable)
  }

  /** The challenge is in the store before the client sees it, and nothing is stored for a request that fails. */
  method GetAuth(env: Env, iss: I.Issuer, store: S.Postgres, q: Query, resolve: I.Resolve, build: I.Build, now: int)
    returns (r: Response<Transaction>)
    modifies store
    ensures r.BadRequest? <==> q.account == "" || T.ParseMemo(q.memo).Err?
    ensures r.BadRequest? ==> store.Contents() == old(store.Contents())
    ensures !r.BadRequest? ==>
      var req := I.IssueRequest(q.account, T.ParseMemo(q.memo).value, q.homeDomain, q.clientDomain);
      && (store.Contents(), r) == GetOutcome(env, iss, old(store.Contents()), req, resolve, build, now)
      && match I.Issued(env, iss, req, resolve, build)
         case Err(e) => r == Refused(e) && store.challenges == old(store.challenges)
         case Ok(issued) =>
           if issued.nonce in old(store.challenges) then r.Unavailable? && store.challenges == old(store.challenges)
           else
             && r == Success(issued.tx)
             && store.challenges == old(store.challenges)[issued.nonce := S.Row(
                  issued.account, issued.homeDomain, issued.clientDomain, now, issued.expiresAt, None)]
    ensures store.sessions == old(store.sessions)
  {
    if q.account == "" {
      return BadRequest;
    }
    var memo := T.ParseMemo(q.memo);
    if memo.Err? {
      return BadRequest;
    }
    var req := I.IssueRequest(q.account, memo.value, q.homeDomain, q.clientDomain);
    var issued := I.Issue(env, iss, req, resolve, build);
    if issued.Err? {
      return Refused(issued.error);
    }
    var ok := store.RecordChallenge(RecordOf(issued.value, now));
    if !ok {
      return Unavailable;
    }
    return Success(issued.value.tx);
  }

  /** What POST /auth does once its challenge is read, alone, the signatures given their verdict. */
  function SpendOutcome(env: Env, tokens: T.Issuer, db: S.Db, ch: Challenge, verdict: Result<seq<Address>, AuthError>,
                        now: int): (S.Db, Response<T.Claims>)
  {
    match S.Consume(db, ch.nonce, now)
    case (_, None) => (db, Refused(S.ErrorOf(S.Inspect(db, ch.nonce, now))))
    case (spent, Some(row)) => ClaimOutcome(env, tokens, spent, ch, row, verdict, now)
  }

  /** What it does with the stored row it consumed. */
  function ClaimOutcome(env: Env, tokens: T.Issuer, spent: S.Db, ch: Challenge, row: S.ConsumedChallenge,
                        verdict: Result<seq<Address>, AuthError>, now: int): (S.Db, Response<T.Claims>)
  {
    if !SameClient(ch, row.account, row.clientDomain) then (spent, Refused(ChallengeMalformed))
    else if verdict.Err? then (spent, Refused(verdict.error))
    else
      match T.Issue(tokens, TokenRequest(env, ch, now))
      case Err(_) => (spent, Internal)
      case Ok(claims) =>
        var (after, ok) := S.InsertSession(spent, SessionOf(env, tokens, ch, row.homeDomain, now));
        (after, if ok then Success(claims) else Unavailable)
  }

  lemma SpendOrNot(env: Env, tokens: T.Issuer, db: S.Db, ch: Challenge, verdict: Result<seq<Address>, AuthError>,
                   now: int, spent: S.Db, row: Option<S.ConsumedChallenge>)
    requires S.Consume(db, ch.nonce, now) == (spent, row)
    ensures SpendOutcome(env, tokens, db, ch, verdict, now)
         == if row.None? then (db, Refused(S.ErrorOf(S.Inspect(db, ch.nonce, now))))
            else ClaimOutcome(env, tokens, spent, ch, row.value, verdict, now)
  {
  }

  /** The posted challenge is read by Unix seconds. */
  ghost function PostOutcome(env: Env, cfg: Config, tokens: T.Issuer, db: S.Db, posted: Posted,
                             accounts: Address -> Lookup, readAt: int, now: int): (S.Db, Response<T.Claims>)
  {
    match Read(env, cfg, posted, readAt / SECOND)
    case Err(e) => (db, Refused(e))
    case Ok(ch) => SpendOutcome(env, tokens, db, ch, ClientVerdict(env, ch, accounts), now)
  }

  /** What the nonce needs to be spent, and then what the stored row needs to agree. */
  predicate Spendable(db: S.Db, ch: Challenge, now: int) {
    && ch.nonce in db.challenges && db.challenges[ch.nonce].consumedAt == None
    && now <= db.challenges[ch.nonce].expiresAt
  }

  predicate Agreeing(db: S.Db, ch: Challenge)
    requires ch.nonce in db.challenges
  {
    db.challenges[ch.nonce].account == ch.clientAccount && db.challenges[ch.nonce].clientDomain == ch.clientDomain
  }

  /** The nonce is spent whatever comes of it, and a session is written exactly when a token is given. */
  lemma SpendOutcomeMeans(env: Env, tokens: T.Issuer, db: S.Db, ch: Challenge,
                          verdict: Result<seq<Address>, AuthError>, now: int)
    ensures var (after, r) := SpendOutcome(env, tokens, db, ch, verdict, now);
      && after.challenges == S.Consume(db, ch.nonce, now).0.challenges
      && (r.Success? <==>
            && Spendable(db, ch, now) && Agreeing(db, ch) && verdict.Ok?
            && ch.clientAccount != "" && env.hash(ch.tx.body) != "" && env.hash(ch.tx.body) !in db.sessions)
      && (!r.Success? ==> after.sessions == db.sessions)
      && (r.Success? ==>
            var session := S.SessionRecord(env.hash(ch.tx.body), ch.clientAccount, T.MemoString(ch.memo),
              db.challenges[ch.nonce].homeDomain, ch.clientDomain, now, now + tokens.lifetime);
            && after.sessions == db.sessions[session.jti := session]
            && r.value == T.Claims(tokens.name, T.Subject(ch.clientAccount, ch.memo), session.jti,
                 now / 1_000_000_000, session.expiresAt / 1_000_000_000, ch.clientDomain))
  {
  }

  /** What each refusal after the reading means. */
  lemma SpendRefusals(env: Env, tokens: T.Issuer, db: S.Db, ch: Challenge,
                      verdict: Result<seq<Address>, AuthError>, now: int)
    ensures var r := SpendOutcome(env, tokens, db, ch, verdict, now).1;
      if ch.nonce !in db.challenges then r == Refused(ChallengeUnknown)
      else if db.challenges[ch.nonce].consumedAt.Some? then r == Refused(ChallengeConsumed)
      else if db.challenges[ch.nonce].expiresAt < now then r == Refused(ChallengeExpired)
      else if !Agreeing(db, ch) then r == Refused(ChallengeMalformed)
      else if verdict.Err? then r == Refused(verdict.error)
      else if ch.clientAccount == "" || env.hash(ch.tx.body) == "" then r == Internal
      else r == Unavailable <==> env.hash(ch.tx.body) in db.sessions
  {
  }

  /** From the UPDATE on: spend the nonce, compare, verify, mint, record. */
  method SpendAndMint(env: Env, tokens: T.Issuer, store: S.Postgres, ch: Challenge, accounts: Address -> Lookup,
                      now: int)
    returns (r: Response<T.Claims>)
    modifies store
    ensures (store.Contents(), r)
         == SpendOutcome(env, tokens, old(store.Contents()), ch, ClientVerdict(env, ch, accounts), now)
  {
    var consumed := store.ConsumeChallenge(ch.nonce, now);
    if consumed.Err? {
      return Refused(consumed.error);
    }
    if consumed.value.account != ch.clientAccount || consumed.value.clientDomain != ch.clientDomain {
      return Refused(ChallengeMalformed);
    }
    var verdict := VerifyClient(env, ch, accounts);
    if verdict.Err? {
      return Refused(verdict.error);
    }
    var jti := env.hash(ch.tx.body);
    var claims := T.Issue(tokens, T.Request(ch.clientAccount, ch.memo, ch.clientDomain, jti, now));
    if claims.Err? {
      return Internal;
    }
    var ok := store.RecordSession(SessionOf(env, tokens, ch, consumed.value.homeDomain, now));
    if !ok {
      return Unavailable;
    }
    return Success(claims.value);
  }

  /**
   The nonce is spent before the signatures are looked at: a readable, consumable challenge is consumed
   whatever comes of it. A token is given exactly when everything after that succeeds too, and then, and
   only then, its session is on record.
   */
  method PostAuth(env: Env, cfg: Config, tokens: T.Issuer, store: S.Postgres, posted: Posted,
                  accounts: Address -> Lookup, readAt: int, now: int)
    returns (r: Response<T.Claims>)
    modifies store
    ensures (store.Contents(), r) == PostOutcome(env, cfg, tokens, old(store.Contents()), posted, accounts, readAt, now)
    ensures match Read(env, cfg, posted, readAt / 1_000_000_000)
      case Err(e) => r == Refused(e) && store.Contents() == old(store.Contents())
      case Ok(ch) =>
        && store.challenges == S.Consume(old(store.Contents()), ch.nonce, now).0.challenges
        && (r.Success? <==>
              && Spendable(old(store.Contents()), ch, now) && Agreeing(old(store.Contents()), ch)
              && ClientVerdict(env, ch, accounts).Ok?
              && ch.clientAccount != "" && env.hash(ch.tx.body) != "" && env.hash(ch.tx.body) !in old(store.sessions))
        && (!r.Success? ==> store.sessions == old(store.sessions))
        && (r.Success? ==>
              var session := S.SessionRecord(env.hash(ch.tx.body), ch.clientAccount, T.MemoString(ch.memo),
                old(store.challenges)[ch.nonce].homeDomain, ch.clientDomain, now, now + tokens.lifetime);
              && store.sessions == old(store.sessions)[session.jti := session]
              && r.value == T.Claims(tokens.name, T.Subject(ch.clientAccount, ch.memo), session.jti,
                   now / 1_000_000_000, session.expiresAt / 1_000_000_000, ch.clientDomain)
              && Acceptance.Authorised(env, ch, accounts))
  {
    var reading := ReadChallenge(env, cfg, posted, readAt / SECOND);
    if reading.Err? {
      return Refused(reading.error);
    }
    var ch := reading.value;
    SpendOutcomeMeans(env, tokens, store.Contents(), ch, ClientVerdict(env, ch, accounts), now);
    r := SpendAndMint(env, tokens, store, ch, accounts, now);
    if r.Success? {
      Acceptance.AcceptedIsAuthorised(env, ch, accounts);
    }
  }
}
