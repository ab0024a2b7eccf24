/** The end-to-end statements about the interleaved server, each for every run. */
module ProtocolTheorems {
  import opened Prelude
  import opened Txn
  import opened Reader
  import opened Acceptance
  import opened Protocol
  import opened ProtocolInvariant
  import opened ProtocolSafety
  import H = Records
  import I = Issuer
  import T = Token
  import S = Store
  import R = StoreRuns

  // ---- Tokens ----------------------------------------------------------------------------------

  /** The token handler p delivered speaks for GET g: its account, memo and client domain are that request's. */
  ghost predicate TokenFor(env: Env, d: Deployment, s: State, p: Pid, g: Pid) {
    && p in s.handlers && HasDelivered(s.handlers[p]) && AnsweredBy(s, g)
    && var gr, ch, st := s.handlers[g].grant, s.handlers[p].ch, s.handlers[p].stage;
       && st.claims == T.Claims(d.tokens.name, T.Subject(gr.req.account, gr.req.memo), env.hash(gr.challenge.tx.body),
            st.now / 1_000_000_000, (st.now + d.tokens.lifetime) / 1_000_000_000, gr.req.clientDomain)
       && ch == I.ReadBack(gr.req, gr.key, gr.challenge, ch.tx) && ch.tx.body == gr.challenge.tx.body
  }

  /** The session row written before the token was handed out. */
  ghost predicate SessionFor(d: Deployment, s: State, p: Pid, g: Pid)
    requires p in s.handlers && HasDelivered(s.handlers[p]) && AnsweredBy(s, g)
  {
    var gr, st := s.handlers[g].grant, s.handlers[p].stage;
    && st.claims.jti in s.db.sessions
    && var row := s.db.sessions[st.claims.jti];
       row.account == gr.req.account && row.memo == T.MemoString(gr.req.memo) && row.clientDomain == gr.req.clientDomain
       && row.issuedAt == st.now && row.expiresAt == st.now + d.tokens.lifetime
  }

  /** That session is for the home domain asked for, and the challenge was spent before it expired. */
  ghost predicate SpentFor(d: Deployment, s: State, p: Pid, g: Pid) {
    && p in s.handlers && HasDelivered(s.handlers[p]) && AnsweredBy(s, g)
    && var st, gr := s.handlers[p].stage, s.handlers[g].grant;
       && st.claims.jti in s.db.sessions
       && s.db.sessions[st.claims.jti].homeDomain == gr.challenge.homeDomain
       && gr.challenge.homeDomain in d.issuer.cfg.homeDomains
       && gr.challenge.homeDomain
            == (if gr.req.homeDomain == "" then d.issuer.cfg.homeDomains[0] else gr.req.homeDomain)
       && st.now <= s.handlers[p].ch.tx.body.maxTime * 1_000_000_000
  }

  lemma DeliveredFor(env: Env, d: Deployment, s: State, p: Pid, g: Pid)
    requires p in s.handlers && HasDelivered(s.handlers[p]) && HandlerOk(env, d, s, s.handlers[p])
    requires IssuedAs(s, g, s.handlers[p].ch)
    ensures TokenFor(env, d, s, p, g) && SessionFor(d, s, p, g)
  {
  }

  lemma DeliveredForOne(env: Env, d: Deployment, s: State, p: Pid, g: Pid)
    requires Lawful(env, d) && HandlersOk(env, d, s) && Fresh(s) && TokenFor(env, d, s, p, g)
    ensures forall h :: TokenFor(env, d, s, p, h) ==> h == g
  {
    forall h | TokenFor(env, d, s, p, h) ensures h == g {
      assert HandlerOk(env, d, s, s.handlers[g]) && HandlerOk(env, d, s, s.handlers[h]);
      SameBodySameNonce(env, d, s.handlers[g].grant, s.handlers[h].grant);
    }
  }

  lemma DeliveredSpent(env: Env, d: Deployment, s: State, p: Pid, g: Pid)
    requires HandlersOk(env, d, s) && Fresh(s) && p in s.handlers && HasDelivered(s.handlers[p])
    requires IssuedAs(s, g, s.handlers[p].ch)
    ensures SpentFor(d, s, p, g)
  {
    assert HandlerOk(env, d, s, s.handlers[p]) && HandlerOk(env, d, s, s.handlers[g]);
    var r :| ConsumedFrom(s, r, s.handlers[p].ch.nonce, s.handlers[p].stage.row, s.handlers[p].stage.now);
    assert r == g;
  }

  /**
   Every delivered token was asked for by a GET that the server answered, its session row is there, its
   challenge carried the account's authority, it was not used before its window opened, and the row it
   spent names the same account and client domain. With fresh
   nonces that GET is the only one, the session's home domain is its home domain, and the challenge was
   spent no later than it expired.
   */
  lemma TokenEndToEnd(env: Env, d: Deployment, run: seq<Event>, p: Pid)
    requires Lawful(env, d) && After(env, d, run).Some?
    requires p in After(env, d, run).value.handlers && HasDelivered(After(env, d, run).value.handlers[p])
    ensures var s := After(env, d, run).value;
      && Authorised(env, s.handlers[p].ch, s.handlers[p].stage.accounts)
      && (s.handlers[p].ch.tx.body.minTime - 300) * 1_000_000_000 <= s.handlers[p].stage.now <= s.clock
      && s.handlers[p].stage.row.account == s.handlers[p].ch.clientAccount
      && s.handlers[p].stage.row.clientDomain == s.handlers[p].ch.clientDomain
      && exists g ::
           && TokenFor(env, d, s, p, g) && SessionFor(d, s, p, g)
           && (Fresh(s) ==> SpentFor(d, s, p, g) && forall h :: TokenFor(env, d, s, p, h) ==> h == g)
  {
    var s := After(env, d, run).value;
    ReachableInv(env, d, run);
    assert HandlerOk(env, d, s, s.handlers[p]);
    AcceptedIsAuthorised(env, s.handlers[p].ch, s.handlers[p].stage.accounts);
    var g :| IssuedAs(s, g, s.handlers[p].ch);
    DeliveredFor(env, d, s, p, g);
    if Fresh(s) {
      DeliveredForOne(env, d, s, p, g);
      DeliveredSpent(env, d, s, p, g);
    }
  }

  lemma SameBodySameNonce(env: Env, d: Deployment, a: Grant, b: Grant)
    requires LawfulHash(env) && env.hash(a.challenge.tx.body) == env.hash(b.challenge.tx.body)
    requires I.IssuedBody(env, d.issuer, a.req, a.key, a.challenge, a.challenge.tx.body)
    requires I.IssuedBody(env, d.issuer, b.req, b.key, b.challenge, b.challenge.tx.body)
    ensures a.challenge.nonce == b.challenge.nonce
  {
  }

  /** No two tokens share a jti; and with fresh nonces no challenge gives two, nor two attempts at its signatures. */
  lemma OneTokenPerChallenge(env: Env, d: Deployment, run: seq<Event>, p: Pid, q: Pid)
    requires Lawful(env, d) && After(env, d, run).Some? && p != q
    requires p in After(env, d, run).value.handlers && q in After(env, d, run).value.handlers
    ensures var s := After(env, d, run).value;
      && (HasDelivered(s.handlers[p]) && HasDelivered(s.handlers[q]) ==>
            s.handlers[p].stage.claims.jti != s.handlers[q].stage.claims.jti)
      && (Fresh(s) && HasTried(s.handlers[p]) && HasTried(s.handlers[q]) ==>
            s.handlers[p].ch.nonce != s.handlers[q].ch.nonce)
      && (Fresh(s) ==> forall g :: !(TokenFor(env, d, s, p, g) && TokenFor(env, d, s, q, g)))
  {
    var s := After(env, d, run).value;
    ReachableSpending(env, d, run);
    if HasTried(s.handlers[p]) && HasTried(s.handlers[q]) && s.handlers[p].ch.nonce == s.handlers[q].ch.nonce {
      assert ConsumedBy(s, p, s.handlers[p].ch.nonce) && ConsumedBy(s, q, s.handlers[p].ch.nonce);
    }
  }

  // ---- Conservation ----------------------------------------------------------------------------

  lemma CountOneMore(log: seq<R.Statement>, st: R.Statement, nonce: string)
    ensures R.Claims(log + [st], nonce)
         == R.Claims(log, nonce)
            + (if st.Update? && st.nonce == nonce && S.Consumable(R.After(log), nonce, st.now) then 1 else 0)
    ensures R.Insertions(log + [st], nonce)
         == R.Insertions(log, nonce)
            + (if st.Insert? && st.rec.nonce == nonce && nonce !in R.After(log).challenges then 1 else 0)
  {
    var run := log + [st];
    assert run[..|log|] == log && run[|log|] == st;
  }

  ghost predicate Counted(s: State, nonce: string) {
    && |Consumers(s, nonce)| == R.Claims(s.log, nonce)
    && |Recorders(s, nonce)| == R.Insertions(s.log, nonce)
  }

  lemma QuietCounts(env: Env, d: Deployment, s: State, e: Event, nonce: string)
    requires Inv(env, d, s) && Counted(s, nonce) && Enabled(env, d, s, e) && !e.Record? && !e.Consume?
    ensures Counted(Step(env, d, s, e), nonce)
  {
    var s' := Step(env, d, s, e);
    QuietSets(env, d, s, e, nonce);
    QuietLog(env, d, s, e);
    if s'.log != s.log {
      CountOneMore(s.log, s'.log[|s.log|], nonce);
    }
  }

  lemma QuietLog(env: Env, d: Deployment, s: State, e: Event)
    requires Enabled(env, d, s, e) && !e.Record? && !e.Consume?
    ensures var s' := Step(env, d, s, e);
      s'.log == s.log || (exists st :: s'.log == s.log + [st] && !st.Update? && !st.Insert?)
  {
  }

  lemma QuietSets(env: Env, d: Deployment, s: State, e: Event, nonce: string)
    requires Enabled(env, d, s, e) && !e.Record? && !e.Consume?
    ensures Consumers(Step(env, d, s, e), nonce) == Consumers(s, nonce)
    ensures Recorders(Step(env, d, s, e), nonce) == Recorders(s, nonce)
  {
    var s' := Step(env, d, s, e);
    if !e.Cleanup? {
      QuietIsIdle(env, d, s, e);
      forall g ensures RecordedBy(s', g) <==> RecordedBy(s, g) {}
    }
  }

  lemma RecordSets(s: State, p: Pid, g: Grant, at: int, nonce: string)
    requires Getting(s, p, Issued) && g == s.handlers[p].grant
    ensures var s' := StepRecord(s, p, g, at);
      && Consumers(s', nonce) == Consumers(s, nonce) && p !in Recorders(s, nonce)
      && Recorders(s', nonce) == Recorders(s, nonce)
           + if nonce == g.challenge.nonce && nonce !in s.db.challenges then {p} else {}
  {
  }

  lemma RecordCounts(s: State, p: Pid, g: Grant, at: int, nonce: string)
    requires s.db == R.After(s.log) && Counted(s, nonce) && Getting(s, p, Issued) && g == s.handlers[p].grant
    ensures Counted(StepRecord(s, p, g, at), nonce)
  {
    CountOneMore(s.log, R.Insert(H.RecordOf(g.challenge, at)), nonce);
    RecordSets(s, p, g, at, nonce);
  }

  lemma ConsumeSets(s: State, p: Pid, ch: Challenge, now: int, nonce: string)
    requires Posting(s, p) && s.handlers[p] == Post(ch, HasClock(now), true)
    ensures var s' := StepConsume(s, p, ch, now);
      && Recorders(s', nonce) == Recorders(s, nonce) && p !in Consumers(s, nonce)
      && Consumers(s', nonce) == Consumers(s, nonce)
           + if nonce == ch.nonce && S.Consumable(s.db, nonce, now) then {p} else {}
  {
  }

  lemma ConsumeCounts(s: State, p: Pid, ch: Challenge, now: int, nonce: string)
    requires s.db == R.After(s.log) && Counted(s, nonce) && Posting(s, p)
    requires s.handlers[p] == Post(ch, HasClock(now), true)
    ensures Counted(StepConsume(s, p, ch, now), nonce)
  {
    CountOneMore(s.log, R.Update(ch.nonce, now), nonce);
    ConsumeSets(s, p, ch, now, nonce);
  }

  lemma {:induction false} ReachableCounted(env: Env, d: Deployment, run: seq<Event>, nonce: string)
    requires Lawful(env, d) && After(env, d, run).Some?
    ensures Counted(After(env, d, run).value, nonce)
  {
    if run == [] {
      assert Consumers(INIT, nonce) == {} && Recorders(INIT, nonce) == {};
    } else {
      var pre, e := run[..|run| - 1], run[|run| - 1];
      var s := After(env, d, pre).value;
      ReachableCounted(env, d, pre, nonce);
      ReachableInv(env, d, pre);
      match e
      case Record(p, at) => RecordCounts(s, p, s.handlers[p].grant, at, nonce);
      case Consume(p) => ConsumeCounts(s, p, s.handlers[p].ch, s.handlers[p].stage.now, nonce);
      case _ => QuietCounts(env, d, s, e, nonce);
    }
  }

  /**
   Conservation: each recording of a nonce is one consumption, one row still open, or one row cleaned up
   unconsumed. Every delivered token took one call of VerifyClient, and every such call one consumption.
   */
  lemma ServerConservation(env: Env, d: Deployment, run: seq<Event>, nonce: string)
    requires Lawful(env, d) && After(env, d, run).Some?
    ensures var s := After(env, d, run).value;
      && |Recorders(s, nonce)|
           == |Consumers(s, nonce)| + (if R.Open(s.db, nonce) then 1 else 0) + R.Losses(s.log, nonce)
      && (set p | p in Consumers(s, nonce) && HasDelivered(s.handlers[p]))
           <= (set p | p in Consumers(s, nonce) && HasTried(s.handlers[p])) <= Consumers(s, nonce)
      && (Fresh(s) ==> |Consumers(s, nonce)| <= 1)
  {
    var s := After(env, d, run).value;
    ReachableInv(env, d, run);
    ReachableCounted(env, d, run, nonce);
    ReachableSpending(env, d, run);
    R.Conservation(s.log, nonce);
    if Fresh(s) {
      if p :| p in Consumers(s, nonce) {
        assert Consumers(s, nonce) == {p};
      }
    }
  }

  // ---- Why a POST was refused ------------------------------------------------------------------

  lemma MissedClassified(s: State, p: Pid, g: Pid)
    requires ConsumersKnown(s) && SpentOnce(s) && RowsKeptUntilExpiry(s)
    requires p in s.handlers && HasMissed(s.handlers[p])
    requires RecordedBy(s, g) && s.handlers[g].grant.challenge.nonce == s.handlers[p].ch.nonce
    ensures var nonce, now := s.handlers[p].ch.nonce, s.handlers[p].stage.now;
      match S.Inspect(s.db, nonce, now)
      case RowConsumed => exists q :: q != p && ConsumedBy(s, q, nonce)
      case RowExpired => s.db.challenges[nonce].expiresAt < now
      case NoRow => s.handlers[g].grant.challenge.expiresAt < s.clock
      case RowLive => false
  {
    var nonce := s.handlers[p].ch.nonce;
    if nonce in s.db.challenges && s.db.challenges[nonce].consumedAt.Some? {
      var q :| ConsumedBy(s, q, nonce);
    }
  }

  /**
   A handler whose UPDATE matched nothing, about to classify, anything having run in between. With fresh
   nonces: consumed means another handler consumed this very nonce; expired means just that; unknown
   means the challenge was recorded, expired and was cleaned up; and the default arm cannot be reached.
   */
  lemma ClassificationInServer(env: Env, d: Deployment, run: seq<Event>, p: Pid)
    requires Lawful(env, d) && After(env, d, run).Some?
    requires p in After(env, d, run).value.handlers && HasMissed(After(env, d, run).value.handlers[p])
    requires Fresh(After(env, d, run).value)
    ensures var s := After(env, d, run).value;
      var nonce, now := s.handlers[p].ch.nonce, s.handlers[p].stage.now;
      match S.Inspect(s.db, nonce, now)
      case RowConsumed => exists q :: q != p && ConsumedBy(s, q, nonce)
      case RowExpired => s.db.challenges[nonce].expiresAt < now
      case NoRow => exists g :: AnsweredBy(s, g) && s.handlers[g].grant.challenge.nonce == nonce
                                && s.handlers[g].grant.challenge.expiresAt < s.clock
      case RowLive => false
  {
    var s := After(env, d, run).value;
    ReachableInv(env, d, run);
    ReachableSpending(env, d, run);
    var g := PostedNonceRecorded(env, d, s, p);
    MissedClassified(s, p, g);
  }

  // ---- Time windows ----------------------------------------------------------------------------

  /** The handler's own clock; before it reads one, the server's. */
  function ClockOf(s: State, h: Handler): int
    requires h.Post?
  {
    if h.stage.HasRead? then s.clock else h.stage.now
  }

  /** An open row of a posted challenge's nonce expires when the challenge itself does. */
  lemma OpenRowExpiry(env: Env, d: Deployment, s: State, p: Pid)
    requires Inv(env, d, s) && Fresh(s) && p in s.handlers && s.handlers[p].Post?
    requires R.Open(s.db, s.handlers[p].ch.nonce)
    ensures s.db.challenges[s.handlers[p].ch.nonce].expiresAt == s.handlers[p].ch.tx.body.maxTime * SECOND
  {
    var nonce := s.handlers[p].ch.nonce;
    var g := PostedGrant(env, d, s, p);
    var r :| RowFrom(s, r, nonce, s.db.challenges[nonce]);
    assert r == g;
  }

  /** The grant a posted challenge is the body of. */
  lemma PostedGrant(env: Env, d: Deployment, s: State, p: Pid) returns (g: Pid)
    requires Inv(env, d, s) && p in s.handlers && s.handlers[p].Post?
    ensures AnsweredBy(s, g)
    ensures var issued, ch := s.handlers[g].grant.challenge, s.handlers[p].ch;
      issued.nonce == ch.nonce && issued.expiresAt == ch.tx.body.maxTime * SECOND
  {
    assert HandlerOk(env, d, s, s.handlers[p]);
    g :| IssuedAs(s, g, s.handlers[p].ch);
    assert HandlerOk(env, d, s, s.handlers[g]);
  }

  /**
   A challenge posted in any run, its row still open: at any time the handler may go on, the store's
   window, to the nanosecond, lies inside the reader's, in whole seconds; and what the reader lets through
   and the store no longer does is less than a second late.
   */
  lemma WindowsCompared(env: Env, d: Deployment, run: seq<Event>, p: Pid, now: int)
    requires Lawful(env, d) && After(env, d, run).Some? && Fresh(After(env, d, run).value)
    requires var s := After(env, d, run).value;
      && p in s.handlers && s.handlers[p].Post? && R.Open(s.db, s.handlers[p].ch.nonce)
      && ClockOf(s, s.handlers[p]) <= now
    ensures var s := After(env, d, run).value;
      var ch := s.handlers[p].ch;
      && (S.Consumable(s.db, ch.nonce, now) ==> InWindow(ch.tx.body, now / SECOND))
      && (InWindow(ch.tx.body, now / SECOND) && !S.Consumable(s.db, ch.nonce, now) ==>
            0 < now - s.db.challenges[ch.nonce].expiresAt < SECOND)
  {
    var s := After(env, d, run).value;
    ReachableInv(env, d, run);
    OpenRowExpiry(env, d, s, p);
    assert HandlerOk(env, d, s, s.handlers[p]);
    WindowsAt(s.handlers[p].ch.tx.body, now);
  }

  lemma WindowsAt(b: Body, now: int)
    requires (b.minTime - CLOCK_GRACE) * SECOND <= now
    ensures now <= b.maxTime * SECOND ==> InWindow(b, now / SECOND)
    ensures InWindow(b, now / SECOND) && now > b.maxTime * SECOND ==> now - b.maxTime * SECOND < SECOND
  {
    assert now == now / SECOND * SECOND + now % SECOND;
  }
}
