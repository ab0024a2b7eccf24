/** Every step of every handler, and of the cleanup loop, keeps the protocol's invariant. */
module ProtocolInvariant {
  import opened Prelude
  import opened Txn
  import opened Reader
  import opened Verify
  import opened Protocol
  import H = Records
  import I = Issuer
  import T = Token
  import S = Store
  import R = StoreRuns

  /** A step without a statement. */
  lemma PutKeeps(env: Env, d: Deployment, s: State, p: Pid, h: Handler, at: int)
    requires Inv(env, d, s) && s.clock <= at
    requires p in s.handlers ==> Later(s.handlers[p], h)
    requires HandlerOk(env, d, Put(s, p, h).(clock := at), h)
    ensures Inv(env, d, Put(s, p, h).(clock := at))
  {
    HandlersKept(env, d, s, Put(s, p, h).(clock := at), p, h);
    RowsKept(s, Put(s, p, h).(clock := at));
  }

  /** A step that takes no time, to a stage the handler's own facts already allow. */
  lemma MoveKeeps(env: Env, d: Deployment, s: State, p: Pid, h: Handler)
    requires Inv(env, d, s) && HandlerOk(env, d, s, h) && (p in s.handlers ==> Later(s.handlers[p], h))
    ensures Inv(env, d, Put(s, p, h))
  {
    HandlerOkGrows(env, d, s, Put(s, p, h), h);
    PutKeeps(env, d, s, p, h, s.clock);
  }

  /** A step with a statement that records no row. */
  lemma ExecKeeps(env: Env, d: Deployment, s: State, st: R.Statement, p: Pid, h: Handler)
    requires Inv(env, d, s) && Grows(s, Exec(s, st, p, h)) && NoNewRows(s.db, R.Apply(s.db, st))
    requires HandlerOk(env, d, Exec(s, st, p, h), h)
    ensures Inv(env, d, Exec(s, st, p, h))
  {
    HandlersKept(env, d, s, Exec(s, st, p, h), p, h);
    RowsKept(s, Exec(s, st, p, h));
    LogKept(s, st);
  }

  lemma RecordRows(s: State, p: Pid, g: Grant, at: int)
    requires RowsOk(s) && Grows(s, StepRecord(s, p, g, at))
    ensures RowsOk(StepRecord(s, p, g, at))
  {
    var s' := StepRecord(s, p, g, at);
    forall n | n in s'.db.challenges ensures exists g :: RowFrom(s', g, n, s'.db.challenges[n]) {
      if n in s.db.challenges {
        var g :| RowFrom(s, g, n, s.db.challenges[n]);
        assert RowFrom(s', g, n, s'.db.challenges[n]);
      } else {
        assert RowFrom(s', p, n, s'.db.challenges[n]);
      }
    }
  }

  lemma RecordKeeps(env: Env, d: Deployment, s: State, p: Pid, g: Grant, at: int)
    requires Inv(env, d, s) && Getting(s, p, Issued) && g == s.handlers[p].grant && s.clock <= at
    ensures Inv(env, d, StepRecord(s, p, g, at))
  {
    var s' := StepRecord(s, p, g, at);
    HandlersKept(env, d, s, s', p, s'.handlers[p]);
    RecordRows(s, p, g, at);
    LogKept(s, R.Insert(H.RecordOf(g.challenge, at)));
  }

  lemma ReadKeeps(env: Env, d: Deployment, s: State, p: Pid, at: int, r: Result<Challenge, AuthError>)
    requires Inv(env, d, s) && p !in s.handlers && s.clock <= at
    requires r.Ok? ==> ChallengeOk(s, r.value) && NotEarly(r.value, at)
    ensures Inv(env, d, Put(s, p, AfterRead(r)).(clock := at))
  {
    if r.Ok? {
      var g :| IssuedAs(s, g, r.value);
      assert IssuedAs(Put(s, p, AfterRead(r)).(clock := at), g, r.value);
    }
    PutKeeps(env, d, s, p, AfterRead(r), at);
  }

  lemma ChallengeKept(s: State, s': State, ch: Challenge)
    requires Grows(s, s') && ChallengeOk(s, ch)
    ensures ChallengeOk(s', ch)
  {
    var g :| IssuedAs(s, g, ch);
    assert IssuedAs(s', g, ch);
  }

  lemma ClockKeeps(env: Env, d: Deployment, s: State, p: Pid, at: int)
    requires Inv(env, d, s) && Posting(s, p) && s.handlers[p].stage.HasRead? && s.clock <= at
    ensures Inv(env, d, Put(s, p, Post(s.handlers[p].ch, HasClock(at), true)).(clock := at))
  {
    var h := Post(s.handlers[p].ch, HasClock(at), true);
    assert HandlerOk(env, d, s, s.handlers[p]);
    ChallengeKept(s, Put(s, p, h).(clock := at), h.ch);
    PutKeeps(env, d, s, p, h, at);
  }

  lemma ConsumeLeaves(env: Env, d: Deployment, s: State, p: Pid, ch: Challenge, now: int)
    requires Inv(env, d, s) && Posting(s, p) && s.handlers[p].ch == ch && s.handlers[p].stage == HasClock(now)
    ensures HandlerOk(env, d, StepConsume(s, p, ch, now), StepConsume(s, p, ch, now).handlers[p])
  {
    var s' := StepConsume(s, p, ch, now);
    assert HandlerOk(env, d, s, s.handlers[p]);
    ChallengeKept(s, s', ch);
    if S.Consumable(s.db, ch.nonce, now) {
      var g :| RowFrom(s, g, ch.nonce, s.db.challenges[ch.nonce]);
      assert ConsumedFrom(s', g, ch.nonce, S.Consume(s.db, ch.nonce, now).1.value, now);
    }
  }

  lemma ConsumeGrows(s: State, p: Pid, ch: Challenge, now: int)
    requires Posting(s, p)
    ensures Grows(s, StepConsume(s, p, ch, now)) && NoNewRows(s.db, R.Apply(s.db, R.Update(ch.nonce, now)))
  {
  }

  lemma ConsumeKeeps(env: Env, d: Deployment, s: State, p: Pid, ch: Challenge, now: int)
    requires Inv(env, d, s) && Posting(s, p) && s.handlers[p].ch == ch && s.handlers[p].stage == HasClock(now)
    ensures Inv(env, d, StepConsume(s, p, ch, now))
  {
    ConsumeLeaves(env, d, s, p, ch, now);
    ConsumeGrows(s, p, ch, now);
    ExecKeeps(env, d, s, R.Update(ch.nonce, now), p, StepConsume(s, p, ch, now).handlers[p]);
  }

  lemma ClassifyKeeps(env: Env, d: Deployment, s: State, p: Pid, ch: Challenge, now: int)
    requires Inv(env, d, s) && Posting(s, p) && s.handlers[p].ch == ch && s.handlers[p].stage == Missed(now)
    ensures Inv(env, d, StepClassify(s, p, ch, now))
  {
    var s' := StepClassify(s, p, ch, now);
    assert HandlerOk(env, d, s, s.handlers[p]);
    ChallengeKept(s, s', ch);
    ExecKeeps(env, d, s, R.Select(ch.nonce, now), p, s'.handlers[p]);
  }

  lemma CompareKeeps(env: Env, d: Deployment, s: State, p: Pid, ch: Challenge, now: int, row: S.ConsumedChallenge)
    requires Inv(env, d, s) && Posting(s, p) && s.handlers[p].ch == ch && s.handlers[p].stage == Claimed(now, row)
    ensures Inv(env, d, Put(s, p, AfterCompare(ch, now, row)))
  {
    assert HandlerOk(env, d, s, s.handlers[p]);
    MoveKeeps(env, d, s, p, AfterCompare(ch, now, row));
  }

  lemma VerifyKeeps(env: Env, d: Deployment, s: State, p: Pid, ch: Challenge, now: int, row: S.ConsumedChallenge,
                    accounts: Address -> Lookup, ok: bool)
    requires Inv(env, d, s) && Posting(s, p) && s.handlers[p].ch == ch && s.handlers[p].stage == Agreed(now, row)
    requires ok == ClientVerdict(env, ch, accounts).Ok?
    ensures Inv(env, d, Put(s, p, AfterVerify(ch, now, row, accounts, ok)))
  {
    assert HandlerOk(env, d, s, s.handlers[p]);
    MoveKeeps(env, d, s, p, AfterVerify(ch, now, row, accounts, ok));
  }

  lemma MintLeaves(env: Env, d: Deployment, s: State, p: Pid, ch: Challenge, now: int, row: S.ConsumedChallenge,
                   accounts: Address -> Lookup, session: S.SessionRecord, claims: T.Claims)
    requires Inv(env, d, s) && Posting(s, p) && s.handlers[p].ch == ch
    requires s.handlers[p].stage == Verified(now, row, accounts)
    requires session == H.SessionOf(env, d.tokens, ch, row.homeDomain, now)
    requires T.Issue(d.tokens, H.TokenRequest(env, ch, now)) == Ok(claims)
    ensures var s' := StepMint(s, p, ch, now, row, accounts, session, Ok(claims));
      HandlerOk(env, d, s', s'.handlers[p])
  {
    var s' := StepMint(s, p, ch, now, row, accounts, session, Ok(claims));
    assert HandlerOk(env, d, s, s.handlers[p]);
    ChallengeKept(s, s', ch);
    ConsumptionGrows(s, s', ch, now, row);
  }

  lemma MintKeeps(env: Env, d: Deployment, s: State, p: Pid, ch: Challenge, now: int, row: S.ConsumedChallenge,
                  accounts: Address -> Lookup, session: S.SessionRecord, r: Result<T.Claims, T.TokenError>)
    requires Inv(env, d, s) && Posting(s, p) && s.handlers[p].ch == ch
    requires s.handlers[p].stage == Verified(now, row, accounts)
    requires session == H.SessionOf(env, d.tokens, ch, row.homeDomain, now)
    requires r == T.Issue(d.tokens, H.TokenRequest(env, ch, now))
    ensures Inv(env, d, StepMint(s, p, ch, now, row, accounts, session, r))
  {
    if r.Ok? {
      MintLeaves(env, d, s, p, ch, now, row, accounts, session, r.value);
      ExecKeeps(env, d, s, R.InsertInto(session), p, StepMint(s, p, ch, now, row, accounts, session, r).handlers[p]);
    } else {
      assert HandlerOk(env, d, s, s.handlers[p]);
      MoveKeeps(env, d, s, p, Post(ch, Verified(now, row, accounts), false));
    }
  }

  lemma DeliverKeeps(env: Env, d: Deployment, s: State, p: Pid)
    requires Inv(env, d, s) && Posting(s, p) && s.handlers[p].stage.Minted?
    ensures var st := s.handlers[p].stage;
      Inv(env, d, Put(s, p, Post(s.handlers[p].ch, Delivered(st.now, st.row, st.accounts, st.claims), false)))
  {
    var st := s.handlers[p].stage;
    assert HandlerOk(env, d, s, s.handlers[p]);
    MoveKeeps(env, d, s, p, Post(s.handlers[p].ch, Delivered(st.now, st.row, st.accounts, st.claims), false));
  }

  lemma AllGrow(env: Env, d: Deployment, s: State, s': State)
    requires HandlersOk(env, d, s) && Grows(s, s') && s'.handlers == s.handlers
    ensures HandlersOk(env, d, s')
  {
    forall q | q in s'.handlers ensures HandlerOk(env, d, s', s'.handlers[q]) {
      HandlerOkGrows(env, d, s, s', s.handlers[q]);
    }
  }

  lemma CleanupKeeps(env: Env, d: Deployment, s: State, before: int, at: int)
    requires Inv(env, d, s) && s.clock <= at
    ensures Inv(env, d, StepCleanup(s, before, at))
  {
    LogKept(s, R.Delete(before));
    RowsKept(s, StepCleanup(s, before, at));
    AllGrow(env, d, s, StepCleanup(s, before, at));
  }

  lemma CrashKeeps(env: Env, d: Deployment, s: State, p: Pid)
    requires Inv(env, d, s) && p in s.handlers
    ensures Inv(env, d, Put(s, p, Stopped(s.handlers[p])))
  {
    assert HandlerOk(env, d, s, s.handlers[p]);
    MoveKeeps(env, d, s, p, Stopped(s.handlers[p]));
  }

  /** A posted challenge the reader accepts is one the server released, read back. */
  lemma ReadIsReleased(env: Env, d: Deployment, s: State, posted: Posted, at: int)
    requires Lawful(env, d) && Inv(env, d, s) && Unforged(env, d, s, posted)
    requires Reader.Read(env, d.issuer.cfg, posted, at / SECOND).Ok?
    ensures var ch := Reader.Read(env, d.issuer.cfg, posted, at / SECOND).value;
      ChallengeOk(s, ch) && NotEarly(ch, at)
  {
    var ch := Reader.Read(env, d.issuer.cfg, posted, at / SECOND).value;
    ReadChallengeShape(env, d.issuer.cfg, posted, at / SECOND);
    var g :| AnsweredBy(s, g) && env.hash(s.handlers[g].grant.challenge.tx.body) == env.hash(posted.tx.body);
    var gr := s.handlers[g].grant;
    assert HandlerOk(env, d, s, s.handlers[g]);
    I.IssuedBodyReads(env, d.issuer, gr.req, gr.key, gr.challenge, posted.tx, at / SECOND);
    assert IssuedAs(s, g, ch);
  }

  lemma StepKeepsInv(env: Env, d: Deployment, s: State, e: Event)
    requires Lawful(env, d) && Inv(env, d, s) && Enabled(env, d, s, e)
    ensures Inv(env, d, Step(env, d, s, e))
  {
    match e
    case Issue(p, req, resolve, build) =>
      var r := I.Issued(env, d.issuer, req, resolve, build);
      if r.Ok? { I.IssuedIsShaped(env, d.issuer, req, resolve, build); }
      PutKeeps(env, d, s, p, AfterIssue(req, I.KeyFor(req, resolve), r), s.clock);
    case Record(p, at) => RecordKeeps(env, d, s, p, s.handlers[p].grant, at);
    case Respond(p) =>
      assert HandlerOk(env, d, s, s.handlers[p]);
      PutKeeps(env, d, s, p, Get(s.handlers[p].grant, Answered, false), s.clock);
    case Read(p, posted, at) =>
      var r := Reader.Read(env, d.issuer.cfg, posted, at / SECOND);
      if r.Ok? { ReadIsReleased(env, d, s, posted, at); }
      ReadKeeps(env, d, s, p, at, r);
    case Clock(p, at) => ClockKeeps(env, d, s, p, at);
    case Consume(p) => ConsumeKeeps(env, d, s, p, s.handlers[p].ch, s.handlers[p].stage.now);
    case Classify(p) => ClassifyKeeps(env, d, s, p, s.handlers[p].ch, s.handlers[p].stage.now);
    case Compare(p) => CompareKeeps(env, d, s, p, s.handlers[p].ch, s.handlers[p].stage.now, s.handlers[p].stage.row);
    case Verify(p, accounts) =>
      VerifyKeeps(env, d, s, p, s.handlers[p].ch, s.handlers[p].stage.now, s.handlers[p].stage.row, accounts,
        ClientVerdict(env, s.handlers[p].ch, accounts).Ok?);
    case Mint(p) =>
      var ch, now, row := s.handlers[p].ch, s.handlers[p].stage.now, s.handlers[p].stage.row;
      MintKeeps(env, d, s, p, ch, now, row, s.handlers[p].stage.accounts,
        H.SessionOf(env, d.tokens, ch, row.homeDomain, now), T.Issue(d.tokens, H.TokenRequest(env, ch, now)));
    case Deliver(p) => DeliverKeeps(env, d, s, p);
    case Cleanup(before, at) => CleanupKeeps(env, d, s, before, at);
    case Crash(p) => CrashKeeps(env, d, s, p);
  }

  lemma {:induction false} ReachableInv(env: Env, d: Deployment, run: seq<Event>)
    requires Lawful(env, d) && After(env, d, run).Some?
    ensures Inv(env, d, After(env, d, run).value)
  {
    if run != [] {
      ReachableInv(env, d, run[..|run| - 1]);
      StepKeepsInv(env, d, After(env, d, run[..|run| - 1]).value, run[|run| - 1]);
    }
  }
}
