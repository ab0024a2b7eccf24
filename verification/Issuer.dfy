/** internal/auth/challenge.go: building, rebuilding and signing a challenge. */
module Issuer {
  import opened Prelude
  import opened Txn
  import opened Reader
  import Base64

  /** The issuer's state: sign is the server's key pair, applied to a hash. */
  datatype Issuer = Issuer(
    cfg: Config, homeSet: set<string>, firstDom: string, clientDomainRequired: bool, sign: string -> Signature)

  datatype IssueRequest = IssueRequest(account: Address, memo: Option<nat>, homeDomain: string, clientDomain: string)

  /** Times in the store are in nanoseconds. */
  datatype IssuedChallenge = IssuedChallenge(
    tx: Transaction, nonce: string, account: Address, homeDomain: string, clientDomain: string, expiresAt: int)

  datatype ConfigError = BadSeed | NoHomeDomain | ShortTimeout

  /** A client domain's published key; None when it cannot be resolved. */
  type Resolve = string -> Option<Address>

  /** The SDK's BuildChallengeTx for this server, given account, home domain and memo; None when it fails. */
  type Build = (Address, string, Option<nat>) -> Option<Transaction>

  method NewIssuer(server: Option<Address>, sign: string -> Signature, webAuthDomain: string, homeDomains: seq<string>,
                   challengeTimeout: int, clientDomainRequired: bool)
    returns (r: Result<Issuer, ConfigError>)
    ensures r.Ok? <==> server.Some? && homeDomains != [] && challengeTimeout >= SECOND
    ensures r == Err(BadSeed) <==> server.None?
    ensures r == Err(NoHomeDomain) <==> server.Some? && homeDomains == []
    ensures r == Err(ShortTimeout) <==> server.Some? && homeDomains != [] && challengeTimeout < SECOND
    ensures r.Ok? ==> WellConfigured(r.value) && r.value.cfg == Config(server.value, webAuthDomain, homeDomains)
    ensures r.Ok? ==> r.value.clientDomainRequired == clientDomainRequired && r.value.sign == sign
  {
    if server.None? {
      return Err(BadSeed);
    }
    if |homeDomains| == 0 {
      return Err(NoHomeDomain);
    }
    if challengeTimeout < SECOND {
      return Err(ShortTimeout);
    }
    var homeSet: set<string> := {};
    for i := 0 to |homeDomains|
      invariant homeSet == Elems(homeDomains[..i])
    {
      assert homeDomains[..i + 1] == homeDomains[..i] + [homeDomains[i]];
      homeSet := homeSet + {homeDomains[i]};
    }
    assert homeDomains[..|homeDomains|] == homeDomains;
    var cfg := Config(server.value, webAuthDomain, homeDomains);
    return Ok(Issuer(cfg, homeSet, homeDomains[0], clientDomainRequired, sign));
  }

  predicate WellConfigured(iss: Issuer) {
    && iss.cfg.homeDomains != []
    && iss.homeSet == Elems(iss.cfg.homeDomains)
    && iss.firstDom == iss.cfg.homeDomains[0]
  }

  /** The server's key pair: a real address, whose signatures verify. */
  ghost predicate LawfulSigner(env: Env, iss: Issuer) {
    && env.isEd25519(iss.cfg.server)
    && forall h :: Accepts(env, h, iss.cfg.server, iss.sign(h))
  }

  function MemoOf(memo: Option<nat>): Memo {
    match memo
    case None => NoMemo
    case Some(id) => MemoId(id)
  }

  /** The SDK's promise: the two-operation challenge for exactly these arguments, signed once by the server. */
  ghost predicate Built(env: Env, iss: Issuer, account: Address, homeDomain: string, memo: Option<nat>,
                        tx: Transaction) {
    && BuiltBody(iss, account, homeDomain, memo, tx.body)
    && tx.signatures == [iss.sign(env.hash(tx.body))]
  }

  ghost predicate BuiltBody(iss: Issuer, account: Address, homeDomain: string, memo: Option<nat>, b: Body) {
    && b.source == iss.cfg.server && b.sequence == 0 && b.minTime <= b.maxTime && 0 < b.maxTime
    && b.memo == MemoOf(memo)
    && |b.operations| == 2
    && b.operations[1] == ManageData(iss.cfg.server, WEB_AUTH_DOMAIN, iss.cfg.webAuthDomain)
    && b.operations[0].ManageData?
    && b.operations[0] == ManageData(account, homeDomain + AUTH_SUFFIX, b.operations[0].value)
    && Base64.ValidNonce(b.operations[0].value)
  }

  ghost predicate LawfulBuild(env: Env, iss: Issuer, build: Build) {
    forall account, homeDomain, memo :: build(account, homeDomain, memo).Some? ==>
      Built(env, iss, account, homeDomain, memo, build(account, homeDomain, memo).value)
  }

  // ---- appendClientDomain and Issue ------------------------------------------------------------

  function WithClientDomain(b: Body, domain: string, key: Address): Body {
    b.(sequence := 0, operations := b.operations + [ManageData(key, CLIENT_DOMAIN, domain)])
  }

  function Appended(env: Env, iss: Issuer, tx: Transaction, domain: string, key: Address): Result<Transaction,
                    AuthError> {
    var b := WithClientDomain(tx.body, domain, key);
    if !env.isEd25519(key) then Err(ClientDomainRejected)
    else if !env.canBuild(b) then Err(BuildFailed)
    else Ok(Transaction(b, [iss.sign(env.hash(b))]))
  }

  method AppendClientDomain(env: Env, iss: Issuer, tx: Transaction, domain: string, signingKey: Address)
    returns (r: Result<Transaction, AuthError>)
    ensures r == Appended(env, iss, tx, domain, signingKey)
    ensures r.Ok? ==>
      && r.value.body.(operations := [], sequence := tx.body.sequence) == tx.body.(operations := [])
      && r.value.body.sequence == 0
      && r.value.body.operations == tx.body.operations + [ManageData(signingKey, CLIENT_DOMAIN, domain)]
      && |r.value.signatures| == 1
      && (LawfulSigner(env, iss) ==> Accepts(env, env.hash(r.value.body), iss.cfg.server, r.value.signatures[0]))
    ensures r.Err? <==> !env.isEd25519(signingKey) || !env.canBuild(WithClientDomain(tx.body, domain, signingKey))
    ensures r == Err(ClientDomainRejected) <==> !env.isEd25519(signingKey)
  {
    if !env.isEd25519(signingKey) {
      return Err(ClientDomainRejected);
    }
    var operations := tx.body.operations + [ManageData(signingKey, CLIENT_DOMAIN, domain)];
    var rebuilt := Body(tx.body.source, 0, tx.body.minTime, tx.body.maxTime, tx.body.memo, operations, tx.body.baseFee);
    if !env.canBuild(rebuilt) {
      return Err(BuildFailed);
    }
    return Ok(Transaction(rebuilt, [iss.sign(env.hash(rebuilt))]));
  }

  function HomeDomainFor(iss: Issuer, req: IssueRequest): string {
    if req.homeDomain == "" then iss.firstDom else req.homeDomain
  }

  function Issued(env: Env, iss: Issuer, req: IssueRequest, resolve: Resolve, build: Build): Result<IssuedChallenge,
                  AuthError> {
    var home := HomeDomainFor(iss, req);
    if !env.isMuxed(req.account) && !env.isEd25519(req.account) then Err(InvalidAccount)
    else if req.memo.Some? && env.isMuxed(req.account) then Err(MemoWithMuxed)
    else if req.homeDomain != "" && home !in iss.homeSet then Err(UnknownHomeDomain)
    else if req.clientDomain == "" && iss.clientDomainRequired then Err(ClientDomainRequired)
    else if req.clientDomain != "" && resolve(req.clientDomain) in {None, Some("")} then Err(ClientDomainRejected)
    else
      var built := build(req.account, home, req.memo);
      if built.None? then Err(BuildFailed)
      else if req.clientDomain == "" then Finished(built.value, req, home)
      else
        match Appended(env, iss, built.value, req.clientDomain, resolve(req.clientDomain).value)
        case Err(e) => Err(e)
        case Ok(tx) => Finished(tx, req, home)
  }

  function Finished(tx: Transaction, req: IssueRequest, home: string): Result<IssuedChallenge, AuthError> {
    var ops := tx.body.operations;
    if ops != [] && ops[0].ManageData? then
      Ok(IssuedChallenge(tx, ops[0].value, req.account, home, req.clientDomain, tx.body.maxTime * SECOND))
    else Err(BuildFailed)
  }

  method Issue(env: Env, iss: Issuer, req: IssueRequest, resolve: Resolve, build: Build)
    returns (r: Result<IssuedChallenge, AuthError>)
    ensures r == Issued(env, iss, req, resolve, build)
    ensures r.Ok? && WellConfigured(iss) && LawfulSigner(env, iss) && LawfulBuild(env, iss, build) ==>
      && IssuedBody(env, iss, req, KeyFor(req, resolve), r.value, r.value.tx.body)
      && |r.value.tx.signatures| == 1 && Signed(env, r.value.tx, iss.cfg.server)
  {
    var isMuxed := env.isMuxed(req.account);
    if !isMuxed && !env.isEd25519(req.account) {
      return Err(InvalidAccount);
    }
    if req.memo.Some? && isMuxed {
      return Err(MemoWithMuxed);
    }
    var homeDomain := req.homeDomain;
    if homeDomain == "" {
      homeDomain := iss.firstDom;
    } else if homeDomain !in iss.homeSet {
      return Err(UnknownHomeDomain);
    }
    var clientDomainKey := "";
    if req.clientDomain != "" {
      var key := resolve(req.clientDomain);
      if key.None? || key.value == "" {
        return Err(ClientDomainRejected);
      }
      clientDomainKey := key.value;
    } else if iss.clientDomainRequired {
      return Err(ClientDomainRequired);
    }
    var built := build(req.account, homeDomain, req.memo);
    if built.None? {
      return Err(BuildFailed);
    }
    var tx := built.value;
    if clientDomainKey != "" {
      var appended := AppendClientDomain(env, iss, tx, req.clientDomain, clientDomainKey);
      if appended.Err? {
        return Err(appended.error);
      }
      tx := appended.value;
    }
    if |tx.body.operations| == 0 || !tx.body.operations[0].ManageData? {
      return Err(BuildFailed);
    }
    IssuedIsSound(env, iss, req, resolve, build);
    return Ok(IssuedChallenge(tx, tx.body.operations[0].value, req.account, homeDomain, req.clientDomain,
                              tx.body.maxTime * SECOND));
  }

  // ---- What issuing promises -------------------------------------------------------------------

  /** The client domain's key inside an issued challenge; empty when none was asked for. */
  function KeyFor(req: IssueRequest, resolve: Resolve): Address {
    if req.clientDomain == "" || resolve(req.clientDomain).None? then "" else resolve(req.clientDomain).value
  }

  /**
   The rebuild keeps everything the SDK put there: the same body but for one operation at the end, and
   one signature, the server's, over the new body.
   */
  lemma IssueKeepsWhatWasBuilt(env: Env, iss: Issuer, req: IssueRequest, resolve: Resolve, build: Build)
    requires LawfulSigner(env, iss) && LawfulBuild(env, iss, build)
    requires Issued(env, iss, req, resolve, build).Ok?
    ensures var issued := Issued(env, iss, req, resolve, build).value;
      var built := build(req.account, HomeDomainFor(iss, req), req.memo);
      && built.Some?
      && issued.tx.body == built.value.body.(operations :=
           built.value.body.operations
           + if req.clientDomain == "" then [] else [ManageData(KeyFor(req, resolve), CLIENT_DOMAIN, req.clientDomain)])
      && |issued.tx.signatures| == 1
      && Accepts(env, env.hash(issued.tx.body), iss.cfg.server, issued.tx.signatures[0])
      && issued.nonce == built.value.body.operations[0].value
  {
    var built := build(req.account, HomeDomainFor(iss, req), req.memo).value;
    assert Built(env, iss, req.account, HomeDomainFor(iss, req), req.memo, built);
    assert built.body.operations + [] == built.body.operations;
  }

  /** The home domain asked for, or the first configured one. */
  predicate HomeAsked(iss: Issuer, req: IssueRequest, home: string) {
    if req.homeDomain == "" then iss.cfg.homeDomains != [] && home == iss.cfg.homeDomains[0] else home == req.homeDomain
  }

  /** The body of a challenge issued for req, key being the client domain's. */
  ghost predicate IssuedBody(env: Env, iss: Issuer, req: IssueRequest, key: Address, issued: IssuedChallenge, b: Body) {
    && |b.operations| == (if req.clientDomain == "" then 2 else 3)
    && b.operations[0] == ManageData(req.account, issued.homeDomain + " auth", issued.nonce)
    && b.operations[1] == ManageData(iss.cfg.server, "web_auth_domain", iss.cfg.webAuthDomain)
    && (req.clientDomain != "" ==>
          env.isEd25519(key) && b.operations[2] == ManageData(key, "client_domain", req.clientDomain))
    && b.source == iss.cfg.server && b.sequence == 0 && b.minTime <= b.maxTime && 0 < b.maxTime
    && b.memo == (match req.memo case None => NoMemo case Some(id) => MemoId(id))
    && Base64.ValidNonce(issued.nonce)
    && issued.expiresAt == b.maxTime * 1_000_000_000
    && issued.account == req.account && issued.clientDomain == req.clientDomain
    && issued.homeDomain in iss.cfg.homeDomains && HomeAsked(iss, req, issued.homeDomain)
    && (env.isMuxed(req.account) || env.isEd25519(req.account))
    && (req.memo.Some? ==> !env.isMuxed(req.account))
  }

  lemma IssuedIsShaped(env: Env, iss: Issuer, req: IssueRequest, resolve: Resolve, build: Build)
    requires WellConfigured(iss) && LawfulSigner(env, iss) && LawfulBuild(env, iss, build)
    requires Issued(env, iss, req, resolve, build).Ok?
    ensures var issued := Issued(env, iss, req, resolve, build).value;
      IssuedBody(env, iss, req, KeyFor(req, resolve), issued, issued.tx.body)
  {
    IssueKeepsWhatWasBuilt(env, iss, req, resolve, build);
    var built := build(req.account, HomeDomainFor(iss, req), req.memo).value;
    assert Built(env, iss, req.account, HomeDomainFor(iss, req), req.memo, built);
    assert HomeDomainFor(iss, req) in iss.cfg.homeDomains by {
      assert HomeDomainFor(iss, req) in iss.homeSet || HomeDomainFor(iss, req) == iss.cfg.homeDomains[0];
    }
  }

  lemma IssuedIsSound(env: Env, iss: Issuer, req: IssueRequest, resolve: Resolve, build: Build)
    requires Issued(env, iss, req, resolve, build).Ok?
    ensures var issued := Issued(env, iss, req, resolve, build).value;
      WellConfigured(iss) && LawfulSigner(env, iss) && LawfulBuild(env, iss, build) ==>
        && IssuedBody(env, iss, req, KeyFor(req, resolve), issued, issued.tx.body)
        && |issued.tx.signatures| == 1 && Signed(env, issued.tx, iss.cfg.server)
  {
    if WellConfigured(iss) && LawfulSigner(env, iss) && LawfulBuild(env, iss, build) {
      IssuedIsShaped(env, iss, req, resolve, build);
      IssueKeepsWhatWasBuilt(env, iss, req, resolve, build);
    }
  }

  /** What reading an issued body back must give. */
  function ReadBack(req: IssueRequest, key: Address, issued: IssuedChallenge, tx: Transaction): Challenge {
    Challenge(tx, req.account, issued.homeDomain, req.memo, issued.nonce, req.clientDomain,
              if req.clientDomain == "" then "" else key)
  }

  lemma IssuedRest(env: Env, iss: Issuer, req: IssueRequest, key: Address, issued: IssuedChallenge, b: Body)
    requires LawfulAddresses(env) && LawfulSigner(env, iss)
    requires IssuedBody(env, iss, req, key, issued, b)
    ensures var rest := b.operations[1..];
      && (RestOk(env, iss.cfg, rest) <==> req.clientDomain == "" || key != iss.cfg.server)
      && FindNamed(rest, CLIENT_DOMAIN) == if req.clientDomain == "" then None else Some(b.operations[2])
  {
    var rest := b.operations[1..];
    assert rest[0] == b.operations[1];
    if req.clientDomain != "" {
      assert rest[1] == b.operations[2];
      assert Named(rest[1], CLIENT_DOMAIN);
      assert OperationOk(env, iss.cfg, rest[1]) <==> key != iss.cfg.server;
    } else {
      assert forall i :: 0 <= i < |rest| ==> !Named(rest[i], CLIENT_DOMAIN);
    }
    assert OperationOk(env, iss.cfg, rest[0]);
  }

  lemma HomeDomainReadsBack(homeDomains: seq<string>, home: string)
    requires home in homeDomains
    ensures HomeDomainOf(homeDomains, home + AUTH_SUFFIX) == if home == "" then None else Some(home)
  {
    var r := HomeDomainOf(homeDomains, home + AUTH_SUFFIX);
    if r.Some? {
      SuffixDetermines(r.value, home);
    }
  }

  /**
   A transaction with an issued body, whatever signatures it carries, is read inside its window exactly
   when it carries the server's, its home domain is not empty and the client domain's key is not the
   server's; and then it reads back as issued.
   */
  lemma IssuedBodyReads(env: Env, iss: Issuer, req: IssueRequest, key: Address, issued: IssuedChallenge,
                        tx: Transaction, now: int)
    requires LawfulAddresses(env) && LawfulSigner(env, iss)
    requires IssuedBody(env, iss, req, key, issued, tx.body) && InWindow(tx.body, now)
    ensures var r := Read(env, iss.cfg, Plain(tx), now);
      && (r.Ok? <==> && Signed(env, tx, iss.cfg.server) && issued.homeDomain != ""
                     && (req.clientDomain == "" || key != iss.cfg.server))
      && (r.Ok? ==> r.value == ReadBack(req, key, issued, tx))
      && (issued.homeDomain == "" ==> r == Err(UnknownHomeDomain))
      && (issued.homeDomain != "" && r.Err? ==> r == Err(ChallengeMalformed))
  {
    IssuedRest(env, iss, req, key, issued, tx.body);
    HomeDomainReadsBack(iss.cfg.homeDomains, issued.homeDomain);
    assert SourcedData(tx.body.operations[0]);
  }

  /**
   Issue, then read: with any signatures appended, an issued challenge reads back inside its window as
   exactly what was asked for, unless the home domain is empty or the client domain published the
   server's own key; those the reader always refuses.
   */
  lemma IssueThenRead(env: Env, iss: Issuer, req: IssueRequest, resolve: Resolve, build: Build,
                      extra: seq<Signature>, now: int)
    requires LawfulAddresses(env) && WellConfigured(iss) && LawfulSigner(env, iss) && LawfulBuild(env, iss, build)
    requires Issued(env, iss, req, resolve, build).Ok?
    requires InWindow(Issued(env, iss, req, resolve, build).value.tx.body, now)
    ensures var issued := Issued(env, iss, req, resolve, build).value;
      var tx := issued.tx.(signatures := issued.tx.signatures + extra);
      var r := Read(env, iss.cfg, Plain(tx), now);
      && (r.Ok? <==> issued.homeDomain != "" && KeyFor(req, resolve) != iss.cfg.server)
      && (r.Ok? ==> r.value == ReadBack(req, KeyFor(req, resolve), issued, tx))
  {
    var issued := Issued(env, iss, req, resolve, build).value;
    var tx := issued.tx.(signatures := issued.tx.signatures + extra);
    IssuedIsShaped(env, iss, req, resolve, build);
    IssueKeepsWhatWasBuilt(env, iss, req, resolve, build);
    assert tx.signatures[0] == issued.tx.signatures[0];
    assert Signed(env, tx, iss.cfg.server);
    IssuedBodyReads(env, iss, req, KeyFor(req, resolve), issued, tx, now);
  }

  /** The client domain's part of a request: none where none is required, or one that resolves to a real key. */
  ghost predicate ClientDomainFine(env: Env, iss: Issuer, req: IssueRequest, resolve: Resolve, b: Body) {
    if req.clientDomain == "" then !iss.clientDomainRequired
    else
      && resolve(req.clientDomain).Some? && resolve(req.clientDomain).value != ""
      && env.isEd25519(resolve(req.clientDomain).value)
      && env.canBuild(b.(operations := b.operations
           + [ManageData(resolve(req.clientDomain).value, "client_domain", req.clientDomain)]))
  }

  predicate AccountFine(env: Env, req: IssueRequest) {
    (env.isMuxed(req.account) || env.isEd25519(req.account)) && (req.memo.Some? ==> !env.isMuxed(req.account))
  }

  predicate HomeFine(iss: Issuer, req: IssueRequest) {
    req.homeDomain == "" || req.homeDomain in iss.cfg.homeDomains
  }

  /** The home domain is the one asked for, or the first; and one that is not ours is refused as such. */
  lemma HomeIsAsked(env: Env, iss: Issuer, req: IssueRequest, home: string)
    requires WellConfigured(iss) && HomeAsked(iss, req, home)
    ensures HomeDomainFor(iss, req) == home
    ensures req.homeDomain in iss.homeSet <==> req.homeDomain in iss.cfg.homeDomains
  {
  }

  lemma RebuiltIsAppended(b: Body, domain: string, key: Address)
    requires b.sequence == 0
    ensures WithClientDomain(b, domain, key)
         == b.(operations := b.operations + [ManageData(key, "client_domain", domain)])
  {
  }

  /** When a challenge is issued. */
  lemma IssueExact(env: Env, iss: Issuer, req: IssueRequest, resolve: Resolve, build: Build, home: string)
    requires WellConfigured(iss) && LawfulBuild(env, iss, build) && HomeAsked(iss, req, home)
    ensures Issued(env, iss, req, resolve, build).Ok?
       <==> && AccountFine(env, req) && HomeFine(iss, req) && build(req.account, home, req.memo).Some?
            && ClientDomainFine(env, iss, req, resolve, build(req.account, home, req.memo).value.body)
  {
    HomeIsAsked(env, iss, req, home);
    var built := build(req.account, home, req.memo);
    if built.Some? {
      assert Built(env, iss, req.account, home, req.memo, built.value);
      if req.clientDomain != "" && resolve(req.clientDomain).Some? {
        RebuiltIsAppended(built.value.body, req.clientDomain, resolve(req.clientDomain).value);
      }
    }
  }

  /** What each refusal of a request means, and which others there are. */
  lemma IssueRefusals(env: Env, iss: Issuer, req: IssueRequest, resolve: Resolve, build: Build, home: string)
    requires WellConfigured(iss) && HomeAsked(iss, req, home)
    ensures var r, built := Issued(env, iss, req, resolve, build), build(req.account, home, req.memo);
      var named, key := req.clientDomain != "", resolve(req.clientDomain);
      && (r == Err(InvalidAccount) <==> !env.isMuxed(req.account) && !env.isEd25519(req.account))
      && (r == Err(MemoWithMuxed) <==> env.isMuxed(req.account) && req.memo.Some?)
      && (r == Err(UnknownHomeDomain) <==> AccountFine(env, req) && !HomeFine(iss, req))
      && (r == Err(ClientDomainRequired) <==>
            AccountFine(env, req) && HomeFine(iss, req) && !named && iss.clientDomainRequired)
      && (r == Err(ClientDomainRejected) <==>
            && AccountFine(env, req) && HomeFine(iss, req) && named
            && (key in {None, Some("")} || (built.Some? && !env.isEd25519(key.value))))
      && (r.Err? ==> r.error in {InvalidAccount, MemoWithMuxed, UnknownHomeDomain, ClientDomainRequired,
                                 ClientDomainRejected, BuildFailed})
  {
    HomeIsAsked(env, iss, req, home);
  }

  /** A client domain that publishes the server's own key is issued a challenge that is then never read. */
  lemma ServerKeyIssuedNeverRead(env: Env, iss: Issuer, req: IssueRequest, resolve: Resolve, build: Build, now: int)
    requires LawfulAddresses(env) && WellConfigured(iss) && LawfulSigner(env, iss) && LawfulBuild(env, iss, build)
    requires env.isEd25519(req.account) && req.homeDomain == "" && iss.firstDom != ""
    requires req.clientDomain != "" && resolve(req.clientDomain) == Some(iss.cfg.server)
    requires build(req.account, iss.firstDom, req.memo).Some?
    requires var b := build(req.account, iss.firstDom, req.memo).value.body;
      env.canBuild(WithClientDomain(b, req.clientDomain, iss.cfg.server)) && InWindow(b, now)
    ensures var r := Issued(env, iss, req, resolve, build);
      r.Ok? && Read(env, iss.cfg, Plain(r.value.tx), now) == Err(ChallengeMalformed)
  {
    var built := build(req.account, iss.firstDom, req.memo).value;
    assert Built(env, iss, req.account, iss.firstDom, req.memo, built);
    var issued := Issued(env, iss, req, resolve, build).value;
    IssuedIsShaped(env, iss, req, resolve, build);
    IssuedBodyReads(env, iss, req, iss.cfg.server, issued, issued.tx, now);
  }
}
