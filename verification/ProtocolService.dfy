/** The other direction: in any reachable state an honest client is still served. */
module ProtocolService {
  import opened Prelude
  import opened Txn
  import opened Reader
  import opened Signatures
  import opened Verify
  import opened Acceptance
  import opened Protocol
  import opened ProtocolSafety
  import H = Records
  import I = Issuer
  import T = Token
  import S = Store

  /** The events, each enabled in turn, lead from s to s'. */
  ghost predicate Path(env: Env, d: Deployment, s: State, events: seq<Event>, s': State)
    decreases |events|
  {
    if events == [] then s' == s
    else Enabled(env, d, s, events[0]) && Path(env, d, Step(env, d, s, events[0]), events[1..], s')
  }

  lemma {:induction false} PathThen(env: Env, d: Deployment, s: State, events: seq<Event>, mid: State, e: Event)
    requires Path(env, d, s, events, mid) && Enabled(env, d, mid, e)
    ensures Path(env, d, s, events + [e], Step(env, d, mid, e))
    decreases |events|
  {
    if events == [] {
      assert events + [e] == [e] && [e][1..] == [];
    } else {
      PathThen(env, d, Step(env, d, s, events[0]), events[1..], mid, e);
      assert (events + [e])[1..] == events[1..] + [e];
    }
  }

  lemma {:induction false} AfterPath(env: Env, d: Deployment, run: seq<Event>, events: seq<Event>, s': State)
    requires After(env, d, run).Some? && Path(env, d, After(env, d, run).value, events, s')
    ensures After(env, d, run + events) == Some(s')
    decreases |events|
  {
    if events == [] {
      assert run + events == run;
    } else {
      assert (run + [events[0]])[..|run|] == run;
      AfterPath(env, d, run + [events[0]], events[1..], s');
      assert run + events == run + [events[0]] + events[1..];
    }
  }

  /** A GET for a request the issuer grants, its nonce unused, is recorded and answered. */
  lemma GetServed(env: Env, d: Deployment, s: State, g: Pid, req: I.IssueRequest, resolve: I.Resolve,
                  build: I.Build, at: int)
    returns (events: seq<Event>, s': State)
    requires g !in s.handlers && s.clock <= at && I.LawfulBuild(env, d.issuer, build)
    requires I.Issued(env, d.issuer, req, resolve, build).Ok?
    requires I.Issued(env, d.issuer, req, resolve, build).value.nonce !in s.db.challenges
    ensures Path(env, d, s, events, s')
    ensures var gr := Grant(req, I.KeyFor(req, resolve), I.Issued(env, d.issuer, req, resolve, build).value);
      && s'.handlers == s.handlers[g := Get(gr, Answered, false)] && s'.clock == at
      && s'.db.sessions == s.db.sessions
      && s'.db.challenges == s.db.challenges[gr.challenge.nonce := S.RowOf(H.RecordOf(gr.challenge, at))]
    ensures var issued := I.Issued(env, d.issuer, req, resolve, build).value;
      s'.db == S.InsertChallenge(s.db, H.RecordOf(issued, at)).0
  {
    var s1 := Step(env, d, s, Issue(g, req, resolve, build));
    assert Path(env, d, s, [], s);
    PathThen(env, d, s, [], s, Issue(g, req, resolve, build));
    var s2 := Step(env, d, s1, Record(g, at));
    PathThen(env, d, s, [] + [Issue(g, req, resolve, build)], s1, Record(g, at));
    s' := Step(env, d, s2, Respond(g));
    events := [] + [Issue(g, req, resolve, build)] + [Record(g, at)] + [Respond(g)];
    PathThen(env, d, s, [] + [Issue(g, req, resolve, build)] + [Record(g, at)], s2, Respond(g));
  }

  /** A POST the reader accepts, of a challenge whose row is open and in time, consumes it. */
  lemma PostConsumes(env: Env, d: Deployment, s: State, p: Pid, posted: Posted, ch: Challenge, readAt: int, now: int)
    returns (events: seq<Event>, s': State)
    requires p !in s.handlers && s.clock <= readAt <= now && Unforged(env, d, s, posted)
    requires Reader.Read(env, d.issuer.cfg, posted, readAt / SECOND) == Ok(ch)
    requires S.Consumable(s.db, ch.nonce, now)
    ensures Path(env, d, s, events, s')
    ensures var row := s.db.challenges[ch.nonce];
      var out := S.ConsumedChallenge(row.account, row.homeDomain, row.clientDomain);
      && p in s'.handlers
      && s'.handlers[p] == Post(ch, Claimed(now, out), true)
      && s'.db.sessions == s.db.sessions
  {
    assert Path(env, d, s, [], s);
    PathThen(env, d, s, [], s, Read(p, posted, readAt));
    var s1 := Step(env, d, s, Read(p, posted, readAt));
    PathThen(env, d, s, [] + [Read(p, posted, readAt)], s1, Clock(p, now));
    var s2 := Step(env, d, s1, Clock(p, now));
    PathThen(env, d, s, [] + [Read(p, posted, readAt)] + [Clock(p, now)], s2, Consume(p));
    s' := Step(env, d, s2, Consume(p));
    events := [] + [Read(p, posted, readAt)] + [Clock(p, now)] + [Consume(p)];
  }

  lemma {:induction false} PathConcat(env: Env, d: Deployment, s: State, a: seq<Event>, mid: State, b: seq<Event>,
                                      s': State)
    requires Path(env, d, s, a, mid) && Path(env, d, mid, b, s')
    ensures Path(env, d, s, a + b, s')
    decreases |a|
  {
    if a == [] {
      assert a + b == b;
    } else {
      PathConcat(env, d, Step(env, d, s, a[0]), a[1..], mid, b, s');
      assert (a + b)[1..] == a[1..] + b;
    }
  }

  lemma PutTwice(s: State, p: Pid, h: Handler, h': Handler)
    ensures Put(Put(s, p, h), p, h') == Put(s, p, h')
  {
    assert s.handlers[p := h][p := h'] == s.handlers[p := h'];
  }

  lemma ClaimVerifies(env: Env, d: Deployment, s: State, p: Pid, ch: Challenge, now: int, row: S.ConsumedChallenge,
                      accounts: Address -> Lookup)
    returns (events: seq<Event>, s': State)
    requires p in s.handlers && s.handlers[p] == Post(ch, Claimed(now, row), true)
    requires SameClient(ch, row) && ClientVerdict(env, ch, accounts).Ok?
    ensures Path(env, d, s, events, s') && s' == Put(s, p, Post(ch, Verified(now, row, accounts), true))
  {
    assert Path(env, d, s, [], s);
    PathThen(env, d, s, [], s, Compare(p));
    var s1 := Step(env, d, s, Compare(p));
    PathThen(env, d, s, [] + [Compare(p)], s1, Verify(p, accounts));
    s' := Step(env, d, s1, Verify(p, accounts));
    events := [] + [Compare(p)] + [Verify(p, accounts)];
    PutTwice(s, p, Post(ch, Agreed(now, row), true), Post(ch, Verified(now, row, accounts), true));
  }

  lemma VerifiedDelivers(env: Env, d: Deployment, s: State, p: Pid, ch: Challenge, now: int, row: S.ConsumedChallenge,
                         accounts: Address -> Lookup)
    returns (events: seq<Event>, s': State)
    requires p in s.handlers && s.handlers[p] == Post(ch, Verified(now, row, accounts), true)
    requires ch.clientAccount != "" && env.hash(ch.tx.body) != "" && env.hash(ch.tx.body) !in s.db.sessions
    ensures Path(env, d, s, events, s')
    ensures p in s'.handlers && HasDelivered(s'.handlers[p]) && s'.handlers[p].ch == ch
    ensures T.Issue(d.tokens, H.TokenRequest(env, ch, now)) == Ok(s'.handlers[p].stage.claims)
    ensures s'.db.sessions == s.db.sessions[env.hash(ch.tx.body) := H.SessionOf(env, d.tokens, ch, row.homeDomain, now)]
    ensures s'.db == S.InsertSession(s.db, H.SessionOf(env, d.tokens, ch, row.homeDomain, now)).0
    ensures s'.handlers[p].stage == Delivered(now, row, accounts, s'.handlers[p].stage.claims) && !s'.handlers[p].live
  {
    assert Path(env, d, s, [], s);
    PathThen(env, d, s, [], s, Mint(p));
    var s1 := Step(env, d, s, Mint(p));
    PathThen(env, d, s, [] + [Mint(p)], s1, Deliver(p));
    s' := Step(env, d, s1, Deliver(p));
    events := [] + [Mint(p)] + [Deliver(p)];
  }

  /** A consumed challenge whose row agrees and whose signatures are accepted gives a token. */
  lemma ClaimDelivers(env: Env, d: Deployment, s: State, p: Pid, ch: Challenge, now: int, row: S.ConsumedChallenge,
                      accounts: Address -> Lookup)
    returns (events: seq<Event>, s': State)
    requires p in s.handlers && s.handlers[p] == Post(ch, Claimed(now, row), true)
    requires SameClient(ch, row) && ClientVerdict(env, ch, accounts).Ok?
    requires ch.clientAccount != "" && env.hash(ch.tx.body) != "" && env.hash(ch.tx.body) !in s.db.sessions
    ensures Path(env, d, s, events, s')
    ensures p in s'.handlers && HasDelivered(s'.handlers[p]) && s'.handlers[p].ch == ch
    ensures T.Issue(d.tokens, H.TokenRequest(env, ch, now)) == Ok(s'.handlers[p].stage.claims)
    ensures s'.db.sessions == s.db.sessions[env.hash(ch.tx.body) := H.SessionOf(env, d.tokens, ch, row.homeDomain, now)]
  {
    var e1, s1 := ClaimVerifies(env, d, s, p, ch, now, row, accounts);
    var e2, s2 := VerifiedDelivers(env, d, s1, p, ch, now, row, accounts);
    PathConcat(env, d, s, e1, s1, e2, s2);
    events, s' := e1 + e2, s2;
  }

  /** The challenge a client reads off what it was sent, its own signatures added. */
  function ClientReply(req: I.IssueRequest, key: Address, issued: I.IssuedChallenge, extra: seq<Signature>): Challenge {
    I.ReadBack(req, key, issued, issued.tx.(signatures := issued.tx.signatures + extra))
  }

  /** Both halves of an exchange, each inside its time, in a state that has not seen the challenge yet. */
  ghost predicate Exchange(env: Env, d: Deployment, s: State, g: Pid, p: Pid, req: I.IssueRequest,
                           resolve: I.Resolve, build: I.Build, askedAt: int, readAt: int, now: int)
  {
    && I.LawfulBuild(env, d.issuer, build) && I.Issued(env, d.issuer, req, resolve, build).Ok?
    && var issued := I.Issued(env, d.issuer, req, resolve, build).value;
       && g != p && g !in s.handlers && p !in s.handlers && s.clock <= askedAt <= readAt <= now
       && issued.nonce !in s.db.challenges && env.hash(issued.tx.body) !in s.db.sessions
       && issued.tx.body.minTime - 300 <= readAt / 1_000_000_000 <= issued.tx.body.maxTime
       && now <= issued.expiresAt
       && issued.homeDomain != "" && I.KeyFor(req, resolve) != d.issuer.cfg.server
  }

  /** Handler p delivered a token for exactly what was asked, its session on record. */
  ghost predicate ServedBy(env: Env, s: State, p: Pid, req: I.IssueRequest, issued: I.IssuedChallenge) {
    && p in s.handlers && HasDelivered(s.handlers[p])
    && s.handlers[p].stage.claims.sub == T.Subject(req.account, req.memo)
    && s.handlers[p].stage.claims.clientDomain == req.clientDomain
    && s.handlers[p].stage.claims.jti == env.hash(issued.tx.body)
    && env.hash(issued.tx.body) in s.db.sessions
    && s.db.sessions[env.hash(issued.tx.body)].homeDomain == issued.homeDomain
  }

  /** A reply VerifyClient accepts is given its token. */
  lemma AcceptedClientServed(env: Env, d: Deployment, run: seq<Event>, g: Pid, p: Pid, req: I.IssueRequest,
                           resolve: I.Resolve, build: I.Build, extra: seq<Signature>, accounts: Address -> Lookup,
                           askedAt: int, readAt: int, now: int)
    returns (events: seq<Event>)
    requires Lawful(env, d) && After(env, d, run).Some?
    requires Exchange(env, d, After(env, d, run).value, g, p, req, resolve, build, askedAt, readAt, now)
    requires var issued := I.Issued(env, d.issuer, req, resolve, build).value;
      ClientVerdict(env, ClientReply(req, I.KeyFor(req, resolve), issued, extra), accounts).Ok?
    ensures After(env, d, run + events).Some?
    ensures ServedBy(env, After(env, d, run + events).value, p, req, I.Issued(env, d.issuer, req, resolve, build).value)
  {
    var s := After(env, d, run).value;
    var issued := I.Issued(env, d.issuer, req, resolve, build).value;
    var ch := ClientReply(req, I.KeyFor(req, resolve), issued, extra);
    var posted := Plain(ch.tx);
    I.IssuedIsShaped(env, d.issuer, req, resolve, build);
    I.IssueThenRead(env, d.issuer, req, resolve, build, extra, readAt / SECOND);
    var e1, s1 := GetServed(env, d, s, g, req, resolve, build, askedAt);
    assert AnsweredBy(s1, g);
    var e2, s2 := PostConsumes(env, d, s1, p, posted, ch, readAt, now);
    var row := S.ConsumedChallenge(req.account, issued.homeDomain, req.clientDomain);
    var e3, s3 := ClaimDelivers(env, d, s2, p, ch, now, row, accounts);
    PathConcat(env, d, s, e1, s1, e2, s2);
    PathConcat(env, d, s, e1 + e2, s2, e3, s3);
    events := e1 + e2 + e3;
    AfterPath(env, d, run, events, s3);
  }

  /**
   Each further signature has a maker of its own; they are candidates, among them a signer of the account,
   and the client domain when there is one; and the account's own reach its medium threshold.
   */
  ghost predicate SignedBy(env: Env, ch: Challenge, base: Address, lookup: Lookup, extra: seq<Signature>,
                           makers: seq<Address>) {
    && |makers| == |extra| && NoDup(makers)
    && (forall i :: 0 <= i < |makers| ==> Accepts(env, env.hash(ch.tx.body), makers[i], extra[i]))
    && Elems(makers) <= Candidates(env, ch, SignersOf(base, lookup))
    && (exists k :: k in Elems(makers) && k in SignersOf(base, lookup) && k != ch.clientDomainKey)
    && (ch.clientDomainKey != "" ==> ch.clientDomainKey in Elems(makers))
    && Enough(ch, lookup, Elems(makers))
  }

  lemma FirstApart(server: Address, makers: seq<Address>)
    requires NoDup(makers) && server !in Elems(makers)
    ensures NoDup([server] + makers) && Elems([server] + makers) == {server} + Elems(makers)
  {
    assert forall i :: 0 < i < |[server] + makers| ==> ([server] + makers)[i] in Elems(makers);
  }

  lemma EnoughWithServer(ch: Challenge, lookup: Lookup, who: set<Address>)
    requires Enough(ch, lookup, who)
    ensures Enough(ch, lookup, {ch.tx.body.source} + who)
  {
    var off := {ch.tx.body.source, ch.clientDomainKey};
    assert {ch.tx.body.source} + who - off == who - off;
  }

  lemma EachMade(env: Env, h: string, server: Address, own: Signature, extra: seq<Signature>, makers: seq<Address>)
    requires Accepts(env, h, server, own) && |makers| == |extra|
    requires forall i :: 0 <= i < |makers| ==> Accepts(env, h, makers[i], extra[i])
    ensures forall i :: 0 <= i < |[server] + makers| ==> Accepts(env, h, ([server] + makers)[i], ([own] + extra)[i])
  {
    forall i | 0 <= i < |[server] + makers| ensures Accepts(env, h, ([server] + makers)[i], ([own] + extra)[i]) {
      if i > 0 { assert Accepts(env, h, makers[i - 1], extra[i - 1]); }
    }
  }

  lemma SignedByAttests(env: Env, ch: Challenge, base: Address, lookup: Lookup, own: Signature, extra: seq<Signature>,
                        makers: seq<Address>)
    requires SignedBy(env, ch, base, lookup, extra, makers) && ch.tx.signatures == [own] + extra
    requires Accepts(env, env.hash(ch.tx.body), ch.tx.body.source, own)
    ensures Attested(env, ch, SignersOf(base, lookup), [ch.tx.body.source] + makers)
  {
    var server := ch.tx.body.source;
    assert server !in Elems(makers);
    FirstApart(server, makers);
    EachMade(env, env.hash(ch.tx.body), server, own, extra, makers);
    var k :| k in Elems(makers) && k in SignersOf(base, lookup) && k != ch.clientDomainKey;
    assert k in Elems([server] + makers) && k != server;
    AccountedAreMade(env, ch, SignersOf(base, lookup), [server] + makers);
  }

  lemma SignedByAccepted(env: Env, ch: Challenge, accounts: Address -> Lookup, base: Address, own: Signature,
                         extra: seq<Signature>, makers: seq<Address>)
    requires AskedFor(env, ch.clientAccount, base) && env.isEd25519(ch.tx.body.source)
    requires !accounts(base).LookupBroken? && BoundedLookup(accounts(base))
    requires Unambiguous(env, ch.tx, Parties(env, ch, SignersOf(base, accounts(base))))
    requires SignedBy(env, ch, base, accounts(base), extra, makers) && ch.tx.signatures == [own] + extra
    requires Accepts(env, env.hash(ch.tx.body), ch.tx.body.source, own)
    ensures ClientVerdict(env, ch, accounts).Ok?
  {
    SignedByAttests(env, ch, base, accounts(base), own, extra, makers);
    EnoughWithServer(ch, accounts(base), Elems(makers));
    FirstApart(ch.tx.body.source, makers);
    ClientAcceptanceExact(env, ch, base, accounts(base));
  }

  lemma SignedReplyAccepted(env: Env, d: Deployment, req: I.IssueRequest, resolve: I.Resolve, build: I.Build,
                            extra: seq<Signature>, makers: seq<Address>, accounts: Address -> Lookup, base: Address)
    requires Lawful(env, d) && I.LawfulBuild(env, d.issuer, build) && I.Issued(env, d.issuer, req, resolve, build).Ok?
    requires AskedFor(env, req.account, base)
    requires !accounts(base).LookupBroken? && BoundedLookup(accounts(base))
    requires var issued := I.Issued(env, d.issuer, req, resolve, build).value;
      var ch := ClientReply(req, I.KeyFor(req, resolve), issued, extra);
      && SignedBy(env, ch, base, accounts(base), extra, makers)
      && Unambiguous(env, ch.tx, Parties(env, ch, SignersOf(base, accounts(base))))
    ensures var issued := I.Issued(env, d.issuer, req, resolve, build).value;
      ClientVerdict(env, ClientReply(req, I.KeyFor(req, resolve), issued, extra), accounts).Ok?
  {
    var issued := I.Issued(env, d.issuer, req, resolve, build).value;
    var ch := ClientReply(req, I.KeyFor(req, resolve), issued, extra);
    I.IssuedIsSound(env, d.issuer, req, resolve, build);
    I.IssueKeepsWhatWasBuilt(env, d.issuer, req, resolve, build);
    assert ch.tx.signatures == [issued.tx.signatures[0]] + extra;
    SignedByAccepted(env, ch, accounts, base, issued.tx.signatures[0], extra, makers);
  }

  /**
   Whatever has happened before, a client that asks for a challenge, has it signed by signers of the account
   that reach the threshold (and by the client domain, when there is one) and posts it inside the window, up
   to the very instant of expiry, is given a token for exactly what it asked, unless the home domain is
   empty or the client domain published the server's own key.
   */
  lemma HonestClientServed(env: Env, d: Deployment, run: seq<Event>, g: Pid, p: Pid, req: I.IssueRequest,
                           resolve: I.Resolve, build: I.Build, extra: seq<Signature>, makers: seq<Address>,
                           accounts: Address -> Lookup, base: Address, askedAt: int, readAt: int, now: int)
    returns (events: seq<Event>)
    requires Lawful(env, d) && After(env, d, run).Some?
    requires Exchange(env, d, After(env, d, run).value, g, p, req, resolve, build, askedAt, readAt, now)
    requires AskedFor(env, req.account, base)
    requires !accounts(base).LookupBroken? && BoundedLookup(accounts(base))
    requires var issued := I.Issued(env, d.issuer, req, resolve, build).value;
      var ch := ClientReply(req, I.KeyFor(req, resolve), issued, extra);
      && SignedBy(env, ch, base, accounts(base), extra, makers)
      && Unambiguous(env, ch.tx, Parties(env, ch, SignersOf(base, accounts(base))))
    ensures After(env, d, run + events).Some?
    ensures ServedBy(env, After(env, d, run + events).value, p, req, I.Issued(env, d.issuer, req, resolve, build).value)
  {
    SignedReplyAccepted(env, d, req, resolve, build, extra, makers, accounts, base);
    events := AcceptedClientServed(env, d, run, g, p, req, resolve, build, extra, accounts, askedAt, readAt, now);
  }
}
