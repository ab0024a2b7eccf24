/** What holds in every reachable state of the interleaved server. */
module ProtocolSafety {
  import opened Prelude
  import opened Txn
  import opened Verify
  import opened Protocol
  import opened ProtocolInvariant
  import H = Records
  import I = Issuer
  import T = Token
  import S = Store
  import R = StoreRuns

  // ---- Who consumed, who recorded --------------------------------------------------------------

  predicate HasConsumed(h: Handler) {
    h.Post? && Consumed(h.stage)
  }

  /** VerifyClient was called and came back. */
  predicate HasTried(h: Handler) {
    h.Post? && (h.stage.Verified? || h.stage.Refused? || h.stage.Minted? || h.stage.Delivered?)
  }

  predicate HasMinted(h: Handler) {
    h.Post? && (h.stage.Minted? || h.stage.Delivered?)
  }

  predicate HasDelivered(h: Handler) {
    h.Post? && h.stage.Delivered?
  }

  predicate HasMissed(h: Handler) {
    h.Post? && h.stage.Missed?
  }

  predicate ConsumedBy(s: State, p: Pid, nonce: string) {
    p in s.handlers && HasConsumed(s.handlers[p]) && s.handlers[p].ch.nonce == nonce
  }

  function Consumers(s: State, nonce: string): set<Pid> {
    set p | p in s.handlers && ConsumedBy(s, p, nonce)
  }

  function Recorders(s: State, nonce: string): set<Pid> {
    set g | g in s.handlers && RecordedBy(s, g) && s.handlers[g].grant.challenge.nonce == nonce
  }

  /** The nonces of all challenges ever signed are distinct. */
  ghost predicate Fresh(s: State) {
    forall g, h :: g in s.handlers && h in s.handlers && g != h && s.handlers[g].Get? && s.handlers[h].Get? ==>
      s.handlers[g].grant.challenge.nonce != s.handlers[h].grant.challenge.nonce
  }

  lemma FreshBefore(env: Env, d: Deployment, s: State, e: Event)
    requires Enabled(env, d, s, e) && Fresh(Step(env, d, s, e))
    ensures Fresh(s)
  {
    var s' := Step(env, d, s, e);
    forall g | g in s.handlers && s.handlers[g].Get?
      ensures g in s'.handlers && s'.handlers[g].Get? && s'.handlers[g].grant == s.handlers[g].grant
    {
    }
  }

  // ---- One token per jti -----------------------------------------------------------------------

  /** Two handlers that recorded a session recorded different ones. */
  ghost predicate DistinctJtis(s: State) {
    forall p, q ::
      (p in s.handlers && q in s.handlers && p != q && HasMinted(s.handlers[p]) && HasMinted(s.handlers[q]))
      ==> s.handlers[p].stage.claims.jti != s.handlers[q].stage.claims.jti
  }

  /** A step that mints nothing. */
  ghost predicate NothingMinted(s: State, s': State) {
    forall p :: p in s'.handlers && HasMinted(s'.handlers[p]) ==> WasMinted(s, p, s'.handlers[p].stage.claims)
  }

  predicate WasMinted(s: State, p: Pid, claims: T.Claims) {
    p in s.handlers && HasMinted(s.handlers[p]) && s.handlers[p].stage.claims == claims
  }

  lemma QuietMintsNothing(env: Env, d: Deployment, s: State, e: Event)
    requires Enabled(env, d, s, e) && !e.Mint?
    ensures NothingMinted(s, Step(env, d, s, e))
  {
  }

  lemma MintJtis(env: Env, d: Deployment, s: State, p: Pid, ch: Challenge, now: int, row: S.ConsumedChallenge,
                 accounts: Address -> Lookup, r: Result<T.Claims, T.TokenError>)
    requires Inv(env, d, s) && DistinctJtis(s) && Posting(s, p) && s.handlers[p].stage == Verified(now, row, accounts)
    requires r == T.Issue(d.tokens, H.TokenRequest(env, ch, now))
    ensures DistinctJtis(StepMint(s, p, ch, now, row, accounts, H.SessionOf(env, d.tokens, ch, row.homeDomain, now), r))
  {
    forall q | q in s.handlers && HasMinted(s.handlers[q]) ensures s.handlers[q].stage.claims.jti in s.db.sessions {
      assert HandlerOk(env, d, s, s.handlers[q]);
    }
  }

  lemma StepKeepsJtis(env: Env, d: Deployment, s: State, e: Event)
    requires Inv(env, d, s) && DistinctJtis(s) && Enabled(env, d, s, e)
    ensures DistinctJtis(Step(env, d, s, e))
  {
    match e
    case Mint(p) =>
      var ch, now := s.handlers[p].ch, s.handlers[p].stage.now;
      MintJtis(env, d, s, p, ch, now, s.handlers[p].stage.row, s.handlers[p].stage.accounts,
        T.Issue(d.tokens, H.TokenRequest(env, ch, now)));
    case _ => QuietMintsNothing(env, d, s, e);
  }

  // ---- Spending --------------------------------------------------------------------------------

  /** A consumed row was consumed by some handler. */
  ghost predicate ConsumersKnown(s: State) {
    forall n :: n in s.db.challenges && s.db.challenges[n].consumedAt.Some? ==> exists p :: ConsumedBy(s, p, n)
  }

  /** With fresh nonces: one consumer a nonce, and no consumed or missed nonce can be consumed again. */
  ghost predicate SpentOnce(s: State) {
    && (forall p, q, n :: ConsumedBy(s, p, n) && ConsumedBy(s, q, n) ==> p == q)
    && (forall p, n :: ConsumedBy(s, p, n) ==> !R.Open(s.db, n))
    && (forall p :: p in s.handlers && HasMissed(s.handlers[p]) ==>
          !S.Consumable(s.db, s.handlers[p].ch.nonce, s.handlers[p].stage.now))
  }

  /** With fresh nonces, a recorded challenge keeps its row until it has expired. */
  ghost predicate RowsKeptUntilExpiry(s: State) {
    forall g :: RecordedBy(s, g) ==>
      var c := s.handlers[g].grant.challenge;
      c.expiresAt < s.clock || (c.nonce in s.db.challenges && s.db.challenges[c.nonce].expiresAt == c.expiresAt)
  }

  ghost predicate Spending(s: State) {
    ConsumersKnown(s) && (Fresh(s) ==> SpentOnce(s) && RowsKeptUntilExpiry(s))
  }

  predicate StillMissed(s: State, p: Pid, h: Handler) {
    && HasMissed(h) && p in s.handlers && HasMissed(s.handlers[p])
    && s.handlers[p].ch == h.ch && s.handlers[p].stage.now == h.stage.now
  }

  /** A step that neither records, consumes nor deletes. */
  ghost predicate Idle(s: State, s': State) {
    && s'.db.challenges == s.db.challenges && s.clock <= s'.clock
    && (forall p, n :: ConsumedBy(s', p, n) <==> ConsumedBy(s, p, n))
    && (forall p :: p in s'.handlers && HasMissed(s'.handlers[p]) ==> StillMissed(s, p, s'.handlers[p]))
    && (forall g :: RecordedBy(s', g) ==> RecordedBy(s, g) && s'.handlers[g].grant == s.handlers[g].grant)
  }

  lemma IdleKeeps(s: State, s': State)
    requires Spending(s) && Idle(s, s') && (Fresh(s') ==> Fresh(s))
    ensures Spending(s')
  {
    forall n | n in s'.db.challenges && s'.db.challenges[n].consumedAt.Some? ensures exists p :: ConsumedBy(s', p, n) {
      var p :| ConsumedBy(s, p, n);
      assert ConsumedBy(s', p, n);
    }
  }

  predicate Quiet(e: Event) {
    !e.Record? && !e.Consume? && !e.Cleanup?
  }

  /** Handler p moves on without recording or consuming anything, and without missing anything new. */
  predicate QuietMove(s: State, p: Pid, h: Handler) {
    && (HasMissed(h) ==> StillMissed(s, p, h))
    && (h.Get? && h.progress != Issued ==> RecordedBy(s, p) && s.handlers[p].grant == h.grant)
    && (if HasConsumed(h) then ConsumedBy(s, p, h.ch.nonce) else p in s.handlers ==> !HasConsumed(s.handlers[p]))
  }

  lemma QuietMoveIsIdle(s: State, s': State, p: Pid)
    requires p in s'.handlers && s'.handlers == s.handlers[p := s'.handlers[p]] && QuietMove(s, p, s'.handlers[p])
    requires s'.db.challenges == s.db.challenges && s.clock <= s'.clock
    ensures Idle(s, s')
  {
  }

  lemma QuietIsIdle(env: Env, d: Deployment, s: State, e: Event)
    requires Enabled(env, d, s, e) && Quiet(e)
    ensures Idle(s, Step(env, d, s, e))
  {
    QuietMoveIsIdle(s, Step(env, d, s, e), e.p);
  }

  lemma QuietKeeps(env: Env, d: Deployment, s: State, e: Event)
    requires Spending(s) && Enabled(env, d, s, e) && Quiet(e)
    requires Fresh(Step(env, d, s, e)) ==> Fresh(s)
    ensures Spending(Step(env, d, s, e))
  {
    QuietIsIdle(env, d, s, e);
    IdleKeeps(s, Step(env, d, s, e));
  }

  /** A challenge read back shares its nonce with the grant that was answered, which had recorded it. */
  lemma PostedNonceRecorded(env: Env, d: Deployment, s: State, p: Pid) returns (g: Pid)
    requires Inv(env, d, s) && p in s.handlers && s.handlers[p].Post?
    ensures AnsweredBy(s, g) && RecordedBy(s, g) && s.handlers[g].grant.challenge.nonce == s.handlers[p].ch.nonce
  {
    assert HandlerOk(env, d, s, s.handlers[p]);
    g :| IssuedAs(s, g, s.handlers[p].ch);
  }

  lemma RecordConsumers(s: State, p: Pid, g: Grant, at: int)
    requires ConsumersKnown(s) && Getting(s, p, Issued) && g == s.handlers[p].grant
    ensures ConsumersKnown(StepRecord(s, p, g, at))
    ensures forall q, n :: ConsumedBy(StepRecord(s, p, g, at), q, n) <==> ConsumedBy(s, q, n)
  {
    var s' := StepRecord(s, p, g, at);
    forall n | n in s'.db.challenges && s'.db.challenges[n].consumedAt.Some? ensures exists q :: ConsumedBy(s', q, n) {
      var q :| ConsumedBy(s, q, n);
      assert ConsumedBy(s', q, n);
    }
  }

  lemma RecordSpentOnce(s: State, p: Pid, g: Grant, at: int)
    requires ConsumersKnown(s) && SpentOnce(s) && Getting(s, p, Issued) && g == s.handlers[p].grant
    requires forall q :: q in s.handlers && s.handlers[q].Post? ==> s.handlers[q].ch.nonce != g.challenge.nonce
    ensures SpentOnce(StepRecord(s, p, g, at))
  {
    RecordConsumers(s, p, g, at);
  }

  lemma RecordSpending(env: Env, d: Deployment, s: State, p: Pid, g: Grant, at: int)
    requires Inv(env, d, s) && Spending(s) && Getting(s, p, Issued) && g == s.handlers[p].grant && s.clock <= at
    requires Fresh(StepRecord(s, p, g, at)) ==> Fresh(s)
    ensures Spending(StepRecord(s, p, g, at))
  {
    RecordConsumers(s, p, g, at);
    if Fresh(StepRecord(s, p, g, at)) {
      forall q | q in s.handlers && s.handlers[q].Post? ensures s.handlers[q].ch.nonce != g.challenge.nonce {
        var r := PostedNonceRecorded(env, d, s, q);
        assert r != p;
      }
      RecordSpentOnce(s, p, g, at);
      RecordKeepsRows(s, p, g, at);
    }
  }

  lemma RecordKeepsRows(s: State, p: Pid, g: Grant, at: int)
    requires Getting(s, p, Issued) && g == s.handlers[p].grant && s.clock <= at && RowsKeptUntilExpiry(s)
    ensures RowsKeptUntilExpiry(StepRecord(s, p, g, at))
  {
    var s' := StepRecord(s, p, g, at);
    forall h | RecordedBy(s', h) && h != p ensures RecordedBy(s, h) && s'.handlers[h] == s.handlers[h] {
    }
  }

  lemma ConsumeConsumers(s: State, p: Pid, ch: Challenge, now: int)
    requires ConsumersKnown(s) && Posting(s, p) && s.handlers[p] == Post(ch, HasClock(now), true)
    ensures ConsumersKnown(StepConsume(s, p, ch, now))
    ensures forall q, n :: ConsumedBy(StepConsume(s, p, ch, now), q, n)
                      <==> ConsumedBy(s, q, n) || (q == p && n == ch.nonce && S.Consumable(s.db, n, now))
  {
    var s' := StepConsume(s, p, ch, now);
    forall n | n in s'.db.challenges && s'.db.challenges[n].consumedAt.Some? ensures exists q :: ConsumedBy(s', q, n) {
      if s.db.challenges[n].consumedAt.Some? {
        var q :| ConsumedBy(s, q, n);
        assert ConsumedBy(s', q, n);
      } else {
        assert ConsumedBy(s', p, n);
      }
    }
  }

  lemma ConsumeSpentOnce(s: State, p: Pid, ch: Challenge, now: int)
    requires ConsumersKnown(s) && SpentOnce(s) && Posting(s, p) && s.handlers[p] == Post(ch, HasClock(now), true)
    ensures SpentOnce(StepConsume(s, p, ch, now))
  {
    ConsumeConsumers(s, p, ch, now);
  }

  lemma ConsumeKeepsRows(s: State, p: Pid, ch: Challenge, now: int)
    requires RowsKeptUntilExpiry(s) && Posting(s, p) && s.handlers[p] == Post(ch, HasClock(now), true)
    ensures RowsKeptUntilExpiry(StepConsume(s, p, ch, now))
  {
    var s' := StepConsume(s, p, ch, now);
    forall g | RecordedBy(s', g) ensures RecordedBy(s, g) && s'.handlers[g] == s.handlers[g] {}
  }

  lemma ConsumeSpending(s: State, p: Pid, ch: Challenge, now: int)
    requires Spending(s) && Posting(s, p) && s.handlers[p] == Post(ch, HasClock(now), true)
    requires Fresh(StepConsume(s, p, ch, now)) ==> Fresh(s)
    ensures Spending(StepConsume(s, p, ch, now))
  {
    ConsumeConsumers(s, p, ch, now);
    if Fresh(s) {
      ConsumeSpentOnce(s, p, ch, now);
      ConsumeKeepsRows(s, p, ch, now);
    }
  }

  lemma CleanupSpending(s: State, before: int, at: int)
    requires Spending(s) && s.clock <= at && before <= at
    ensures Spending(StepCleanup(s, before, at))
  {
    var s' := StepCleanup(s, before, at);
    forall n | n in s'.db.challenges && s'.db.challenges[n].consumedAt.Some? ensures exists q :: ConsumedBy(s', q, n) {
      var q :| ConsumedBy(s, q, n);
      assert ConsumedBy(s', q, n);
    }
    assert Fresh(s') ==> Fresh(s);
    forall q, n | ConsumedBy(s', q, n) ensures ConsumedBy(s, q, n) {}
    forall g | RecordedBy(s', g) ensures RecordedBy(s, g) && s'.handlers[g] == s.handlers[g] {}
  }

  lemma FreshOnlyGrows(env: Env, d: Deployment, s: State, e: Event)
    requires Enabled(env, d, s, e)
    ensures Fresh(Step(env, d, s, e)) ==> Fresh(s)
  {
    if Fresh(Step(env, d, s, e)) { FreshBefore(env, d, s, e); }
  }

  lemma RecordKeeps(env: Env, d: Deployment, s: State, e: Event)
    requires Inv(env, d, s) && Spending(s) && e.Record? && Enabled(env, d, s, e)
    requires Fresh(Step(env, d, s, e)) ==> Fresh(s)
    ensures Spending(Step(env, d, s, e))
  {
    RecordSpending(env, d, s, e.p, s.handlers[e.p].grant, e.at);
  }

  lemma StepKeepsSpending(env: Env, d: Deployment, s: State, e: Event)
    requires Inv(env, d, s) && Spending(s) && Enabled(env, d, s, e)
    ensures Spending(Step(env, d, s, e))
  {
    FreshOnlyGrows(env, d, s, e);
    if e.Record? {
      RecordKeeps(env, d, s, e);
    } else if e.Consume? {
      ConsumeSpending(s, e.p, s.handlers[e.p].ch, s.handlers[e.p].stage.now);
    } else if e.Cleanup? {
      CleanupSpending(s, e.before, e.at);
    } else {
      QuietKeeps(env, d, s, e);
    }
  }

  lemma {:induction false} ReachableSpending(env: Env, d: Deployment, run: seq<Event>)
    requires Lawful(env, d) && After(env, d, run).Some?
    ensures Spending(After(env, d, run).value) && DistinctJtis(After(env, d, run).value)
  {
    if run != [] {
      var pre, e := run[..|run| - 1], run[|run| - 1];
      ReachableSpending(env, d, pre);
      ReachableInv(env, d, pre);
      StepKeepsSpending(env, d, After(env, d, pre).value, e);
      StepKeepsJtis(env, d, After(env, d, pre).value, e);
    }
  }
}
