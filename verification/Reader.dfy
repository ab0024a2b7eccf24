/** internal/auth/read.go: parsing a posted challenge and checking its structure in one pass. */
module Reader {
  import opened Prelude
  import opened Txn
  import opened Signatures
  import Base64

  const CLOCK_GRACE := 300
  const WEB_AUTH_DOMAIN := "web_auth_domain"
  const CLIENT_DOMAIN := "client_domain"
  const AUTH_SUFFIX := " auth"

  datatype Config = Config(server: Address, webAuthDomain: string, homeDomains: seq<string>)

  // ---- The declarative reading -----------------------------------------------------------------

  predicate HeaderOk(env: Env, cfg: Config, b: Body) {
    env.isEd25519(b.source) && b.source == cfg.server && b.sequence == 0 && b.maxTime != 0
  }

  /** now is a Unix time in whole seconds. */
  predicate InWindow(b: Body, now: int) {
    b.minTime - CLOCK_GRACE <= now <= b.maxTime
  }

  predicate Named(op: Operation, name: string) {
    op.ManageData? && op.name == name
  }

  predicate Has(ops: seq<Operation>, name: string) {
    exists i :: 0 <= i < |ops| && Named(ops[i], name)
  }

  predicate AtMostOnce(ops: seq<Operation>, name: string) {
    forall i, j :: 0 <= i < j < |ops| ==> !(Named(ops[i], name) && Named(ops[j], name))
  }

  predicate SourcedData(op: Operation) {
    op.ManageData? && op.source != ""
  }

  /** One operation after the first, on its own. */
  predicate OperationOk(env: Env, cfg: Config, op: Operation) {
    && SourcedData(op)
    && if op.name == WEB_AUTH_DOMAIN then op.source == cfg.server && op.value == cfg.webAuthDomain
       else if op.name == CLIENT_DOMAIN then env.isEd25519(op.source) && op.source != cfg.server && op.value != ""
       else op.source == cfg.server
  }

  predicate AllOk(env: Env, cfg: Config, ops: seq<Operation>) {
    forall i :: 0 <= i < |ops| ==> OperationOk(env, cfg, ops[i])
  }

  predicate RestOk(env: Env, cfg: Config, rest: seq<Operation>) {
    && AllOk(env, cfg, rest)
    && AtMostOnce(rest, WEB_AUTH_DOMAIN) && AtMostOnce(rest, CLIENT_DOMAIN)
  }

  /** The configured, non-empty home domain an operation key names. */
  function HomeDomainOf(homeDomains: seq<string>, key: string): (d: Option<string>)
    ensures d.Some? ==> d.value in homeDomains && d.value != "" && key == d.value + AUTH_SUFFIX
    ensures d.None? ==> forall h :: h in homeDomains && h != "" ==> key != h + AUTH_SUFFIX
  {
    var n := |key| - |AUTH_SUFFIX|;
    if n > 0 && key[n..] == AUTH_SUFFIX && key[..n] in homeDomains then
      assert key == key[..n] + key[n..];
      Some(key[..n])
    else
      assert forall h {:trigger h in homeDomains} :: h in homeDomains && h != "" && key == h + AUTH_SUFFIX ==>
        key[..n] == h && key[n..] == AUTH_SUFFIX;
      None
  }

  /** The client_domain operation, if any. */
  function FindNamed(ops: seq<Operation>, name: string): (r: Option<Operation>)
    ensures r.Some? <==> Has(ops, name)
    ensures r.Some? ==> r.value in ops && Named(r.value, name)
  {
    if ops == [] then None
    else if Named(ops[|ops| - 1], name) then Some(ops[|ops| - 1])
    else
      var r := FindNamed(ops[..|ops| - 1], name);
      assert Has(ops, name) ==> Has(ops[..|ops| - 1], name);
      r
  }

  function ChallengeOf(tx: Transaction, homeDomain: string): Challenge
    requires |tx.body.operations| > 0 && tx.body.operations[0].ManageData?
  {
    var first := tx.body.operations[0];
    var cd := FindNamed(tx.body.operations[1..], CLIENT_DOMAIN);
    Challenge(tx, first.source, homeDomain,
      if tx.body.memo.MemoId? then Some(tx.body.memo.id) else None,
      first.value,
      if cd.Some? then cd.value.value else "",
      if cd.Some? then cd.value.source else "")
  }

  /** A reader, but for what it demands of the operations after the first. */
  function ReadWith(env: Env, cfg: Config, posted: Posted, now: int,
                    restOk: seq<Operation> -> bool): Result<Challenge, AuthError> {
    if !posted.Plain? then Err(ChallengeMalformed)
    else
      var tx := posted.tx;
      var b := tx.body;
      if !HeaderOk(env, cfg, b) then Err(ChallengeMalformed)
      else if !InWindow(b, now) then Err(ChallengeExpired)
      else if b.operations == [] || !SourcedData(b.operations[0]) then Err(ChallengeMalformed)
      else
        var first := b.operations[0];
        var isMuxed := env.isMuxed(first.source);
        var home := HomeDomainOf(cfg.homeDomains, first.name);
        if home.None? then Err(UnknownHomeDomain)
        else if !isMuxed && !env.isEd25519(first.source) then Err(ChallengeMalformed)
        else if b.memo != NoMemo && isMuxed then Err(MemoWithMuxed)
        else if b.memo.OtherMemo? || !Base64.ValidNonce(first.value) || !restOk(b.operations[1..])
                || !Signed(env, tx, cfg.server) then Err(ChallengeMalformed)
        else Ok(ChallengeOf(tx, home.value))
  }

  function Read(env: Env, cfg: Config, posted: Posted, now: int): Result<Challenge, AuthError> {
    ReadWith(env, cfg, posted, now, rest => RestOk(env, cfg, rest))
  }

  // ---- The one-pass reader ---------------------------------------------------------------------

  lemma SoleSigner(env: Env, tx: Transaction, key: Address)
    ensures Found(env, tx, [key]) == [] <==> !Signed(env, tx, key)
  {
    FoundAreThoseWhoSigned(env, tx, [key]);
    var found := Found(env, tx, [key]);
    if Signed(env, tx, key) {
      assert key in Elems(found);
    }
    if found != [] {
      assert found[0] in Elems(found);
    }
  }

  lemma SuffixDetermines(a: string, b: string)
    requires a + AUTH_SUFFIX == b + AUTH_SUFFIX
    ensures a == b
  {
    assert |a| == |b|;
    assert a == (a + AUTH_SUFFIX)[..|a|] && b == (b + AUTH_SUFFIX)[..|b|];
  }

  method MatchHomeDomain(homeDomains: seq<string>, key: string) returns (homeDomain: string)
    ensures homeDomain == match HomeDomainOf(homeDomains, key) case Some(d) => d case None => ""
  {
    homeDomain := "";
    for i := 0 to |homeDomains|
      invariant homeDomain == ""
      invariant forall j :: 0 <= j < i ==> key != homeDomains[j] + AUTH_SUFFIX
    {
      if key == homeDomains[i] + AUTH_SUFFIX {
        homeDomain := homeDomains[i];
        break;
      }
    }
    var home := HomeDomainOf(homeDomains, key);
    if home.Some? && homeDomain + AUTH_SUFFIX == key {
      SuffixDetermines(homeDomain, home.value);
    }
  }

  /** The loop over the operations after the first; an error is ChallengeMalformed in every case. */
  method ReadRest(env: Env, cfg: Config, rest: seq<Operation>)
    returns (ok: bool, clientDomain: string, clientDomainKey: Address)
    ensures ok <==> RestOk(env, cfg, rest)
    ensures ok ==> match FindNamed(rest, CLIENT_DOMAIN)
      case Some(op) => clientDomain == op.value && clientDomainKey == op.source
      case None => clientDomain == "" && clientDomainKey == ""
  {
    var sawWebAuthDomain, sawClientDomain := false, false;
    clientDomain, clientDomainKey := "", "";
    for i := 0 to |rest|
      invariant RestOk(env, cfg, rest[..i])
      invariant sawWebAuthDomain <==> Has(rest[..i], WEB_AUTH_DOMAIN)
      invariant sawClientDomain <==> Has(rest[..i], CLIENT_DOMAIN)
      invariant match FindNamed(rest[..i], CLIENT_DOMAIN)
        case Some(op) => clientDomain == op.value && clientDomainKey == op.source
        case None => clientDomain == "" && clientDomainKey == ""
    {
      var op := rest[i];
      RestOkAfter(env, cfg, rest, i);
      if !op.ManageData? || op.source == "" {
        return false, "", "";
      }
      if op.name == WEB_AUTH_DOMAIN {
        if sawWebAuthDomain {
          return false, "", "";
        }
        sawWebAuthDomain := true;
        if op.source != cfg.server || op.value != cfg.webAuthDomain {
          return false, "", "";
        }
      } else if op.name == CLIENT_DOMAIN {
        if sawClientDomain {
          return false, "", "";
        }
        sawClientDomain := true;
        if !env.isEd25519(op.source) || op.source == cfg.server || |op.value| == 0 {
          return false, "", "";
        }
        clientDomain, clientDomainKey := op.value, op.source;
      } else if op.source != cfg.server {
        return false, "", "";
      }
    }
    assert rest[..|rest|] == rest;
    ok := true;
  }

  /** What one more operation changes. */
  lemma RestOkAfter(env: Env, cfg: Config, rest: seq<Operation>, i: nat)
    requires i < |rest| && RestOk(env, cfg, rest[..i])
    ensures RestOk(env, cfg, rest[..i + 1])
       <==> && OperationOk(env, cfg, rest[i])
            && !(Named(rest[i], WEB_AUTH_DOMAIN) && Has(rest[..i], WEB_AUTH_DOMAIN))
            && !(Named(rest[i], CLIENT_DOMAIN) && Has(rest[..i], CLIENT_DOMAIN))
    ensures !RestOk(env, cfg, rest[..i + 1]) ==> !RestOk(env, cfg, rest)
    ensures forall name :: Has(rest[..i + 1], name) <==> Has(rest[..i], name) || Named(rest[i], name)
    ensures FindNamed(rest[..i + 1], CLIENT_DOMAIN)
         == if Named(rest[i], CLIENT_DOMAIN) then Some(rest[i]) else FindNamed(rest[..i], CLIENT_DOMAIN)
  {
    var pre := rest[..i + 1];
    assert pre[..i] == rest[..i] && pre[i] == rest[i];
    forall name ensures Has(pre, name) <==> Has(rest[..i], name) || Named(rest[i], name) {
      HasAfter(pre, name);
    }
    AtMostOnceAfter(pre, WEB_AUTH_DOMAIN);
    AtMostOnceAfter(pre, CLIENT_DOMAIN);
    AllOkAfter(env, cfg, pre);
    if RestOk(env, cfg, rest) {
      AtMostOncePrefix(rest, i + 1, WEB_AUTH_DOMAIN);
      AtMostOncePrefix(rest, i + 1, CLIENT_DOMAIN);
    }
  }

  lemma AllOkAfter(env: Env, cfg: Config, ops: seq<Operation>)
    requires ops != []
    ensures AllOk(env, cfg, ops) <==> AllOk(env, cfg, ops[..|ops| - 1]) && OperationOk(env, cfg, ops[|ops| - 1])
  {
    var n := |ops| - 1;
    if AllOk(env, cfg, ops[..n]) && OperationOk(env, cfg, ops[n]) {
      forall i | 0 <= i < |ops| ensures OperationOk(env, cfg, ops[i]) {
        if i < n { assert OperationOk(env, cfg, ops[..n][i]); }
      }
    }
  }

  lemma AtMostOnceAfter(ops: seq<Operation>, name: string)
    requires ops != []
    ensures AtMostOnce(ops, name) <==>
      AtMostOnce(ops[..|ops| - 1], name) && !(Named(ops[|ops| - 1], name) && Has(ops[..|ops| - 1], name))
  {
    var n := |ops| - 1;
    AtMostOncePrefix(ops, n, name);
    if Named(ops[n], name) && Has(ops[..n], name) {
      var i :| 0 <= i < n && Named(ops[..n][i], name);
      assert Named(ops[i], name);
    }
    if !AtMostOnce(ops, name) {
      var i, j :| 0 <= i < j < |ops| && Named(ops[i], name) && Named(ops[j], name);
      assert Named(ops[..n][i], name);
      if j < n { assert Named(ops[..n][j], name); }
    }
  }

  lemma AtMostOncePrefix(ops: seq<Operation>, n: nat, name: string)
    requires n <= |ops|
    ensures AtMostOnce(ops, name) ==> AtMostOnce(ops[..n], name)
  {
  }

  lemma HasAfter(ops: seq<Operation>, name: string)
    requires ops != []
    ensures Has(ops, name) <==> Has(ops[..|ops| - 1], name) || Named(ops[|ops| - 1], name)
  {
    var n := |ops| - 1;
    if Has(ops[..n], name) {
      var i :| 0 <= i < n && Named(ops[..n][i], name);
      assert Named(ops[i], name);
    }
    if Has(ops, name) && !Named(ops[n], name) {
      var i :| 0 <= i < |ops| && Named(ops[i], name);
      assert Named(ops[..n][i], name);
    }
  }

  /** The flag-based reader equals the declarative one on every input, error class included. */
  method ReadChallenge(env: Env, cfg: Config, posted: Posted, now: int) returns (r: Result<Challenge, AuthError>)
    ensures r == Read(env, cfg, posted, now)
  {
    if !posted.Plain? {
      return Err(ChallengeMalformed);
    }
    var tx := posted.tx;
    var b := tx.body;
    if !env.isEd25519(b.source) || b.source != cfg.server || b.sequence != 0 || b.maxTime == 0 {
      return Err(ChallengeMalformed);
    }
    if now + CLOCK_GRACE < b.minTime || now > b.maxTime {
      return Err(ChallengeExpired);
    }
    if |b.operations| < 1 || !b.operations[0].ManageData? || b.operations[0].source == "" {
      return Err(ChallengeMalformed);
    }
    var first := b.operations[0];
    var homeDomain := MatchHomeDomain(cfg.homeDomains, first.name);
    if homeDomain == "" {
      return Err(UnknownHomeDomain);
    }
    var isMuxed := env.isMuxed(first.source);
    if !isMuxed && !env.isEd25519(first.source) {
      return Err(ChallengeMalformed);
    }
    var memo: Option<nat> := None;
    if b.memo != NoMemo {
      if isMuxed {
        return Err(MemoWithMuxed);
      }
      if !b.memo.MemoId? {
        return Err(ChallengeMalformed);
      }
      memo := Some(b.memo.id);
    }
    var nonce := first.value;
    if |nonce| != Base64.NONCE_ENCODED_LEN {
      return Err(ChallengeMalformed);
    }
    var raw := Base64.Decode(nonce);
    if raw.None? || |raw.value| != Base64.NONCE_RAW_LEN {
      return Err(ChallengeMalformed);
    }
    var ok, clientDomain, clientDomainKey := ReadRest(env, cfg, b.operations[1..]);
    if !ok {
      return Err(ChallengeMalformed);
    }
    var serverFound := MatchSigners(env, tx, [cfg.server]);
    SoleSigner(env, tx, cfg.server);
    match serverFound {
      case Err(e) =>
        return Err(e);
      case Ok(found) =>
        if |found| == 0 {
          return Err(ChallengeMalformed);
        }
    }
    return Ok(Challenge(tx, first.source, homeDomain, memo, nonce, clientDomain, clientDomainKey));
  }

  // ---- What the reader hands to VerifyClient ---------------------------------------------------

  /** What each operation after the first is, once the client domain and its key are known. */
  predicate RestShape(env: Env, cfg: Config, rest: seq<Operation>, clientDomain: string, key: Address) {
    && (forall i :: 0 <= i < |rest| ==>
          && rest[i].ManageData?
          && (rest[i].name == "client_domain" ==> rest[i].source == key && rest[i].value == clientDomain)
          && (rest[i].name != "client_domain" ==> rest[i].source == cfg.server)
          && (rest[i].name == "web_auth_domain" ==> rest[i].value == cfg.webAuthDomain))
    && (clientDomain == "" <==> forall i :: 0 <= i < |rest| ==> rest[i].name != "client_domain")
    && (if clientDomain == "" then key == "" else env.isEd25519(key) && key != cfg.server)
  }

  lemma RestOkShape(env: Env, cfg: Config, rest: seq<Operation>)
    requires RestOk(env, cfg, rest)
    ensures match FindNamed(rest, CLIENT_DOMAIN)
      case None => RestShape(env, cfg, rest, "", "")
      case Some(op) => RestShape(env, cfg, rest, op.value, op.source)
  {
    var cd := FindNamed(rest, CLIENT_DOMAIN);
    if cd.Some? {
      var i :| 0 <= i < |rest| && rest[i] == cd.value;
      assert OperationOk(env, cfg, rest[i]);
      forall j | 0 <= j < |rest| && Named(rest[j], CLIENT_DOMAIN) ensures rest[j] == cd.value {
        assert i == j;
      }
    }
    forall j | 0 <= j < |rest| ensures OperationOk(env, cfg, rest[j]) {
    }
  }

  /**
   A challenge the reader returned can never be submitted (sequence 0), was signed by the server, is in its
   window, and says what it says: the account and nonce of its first operation, keyed by one of our home
   domains, our web_auth_domain on every operation so named, and a client domain with a real key that is
   not the server's exactly when it has a client_domain operation.
   */
  lemma ReadChallengeShape(env: Env, cfg: Config, posted: Posted, now: int)
    requires Read(env, cfg, posted, now).Ok?
    ensures var ch := Read(env, cfg, posted, now).value;
      var b := ch.tx.body;
      && posted == Plain(ch.tx) && b.source == cfg.server && env.isEd25519(cfg.server) && b.sequence == 0
      && Signed(env, ch.tx, cfg.server) && b.minTime - 300 <= now <= b.maxTime && b.maxTime != 0
      && |b.operations| > 0 && b.operations[0] == ManageData(ch.clientAccount, ch.homeDomain + " auth", ch.nonce)
      && (env.isEd25519(ch.clientAccount) || env.isMuxed(ch.clientAccount))
      && b.memo == (match ch.memo case None => NoMemo case Some(id) => MemoId(id))
      && (ch.memo.Some? ==> !env.isMuxed(ch.clientAccount))
      && Base64.ValidNonce(ch.nonce) && ch.homeDomain in cfg.homeDomains && ch.homeDomain != ""
      && RestShape(env, cfg, b.operations[1..], ch.clientDomain, ch.clientDomainKey)
  {
    RestOkShape(env, cfg, posted.tx.body.operations[1..]);
  }

  /** The header of a challenge of ours, and its first operation. */
  predicate Ours(env: Env, cfg: Config, b: Body) {
    && env.isEd25519(b.source) && b.source == cfg.server && b.sequence == 0 && b.maxTime != 0
  }

  predicate Opens(b: Body) {
    |b.operations| > 0 && b.operations[0].ManageData? && b.operations[0].source != ""
  }

  predicate NamesHome(cfg: Config, key: string) {
    exists h :: h in cfg.homeDomains && h != "" && key == h + " auth"
  }

  /**
   What each refusal means: too early or too late, by Unix seconds and five minutes of grace; a first
   operation that names none of our home domains; a memo on a muxed account. Anything else is malformed.
   */
  lemma ReadRefusals(env: Env, cfg: Config, posted: Posted, now: int)
    ensures var r := Read(env, cfg, posted, now);
      && (r == Err(ChallengeExpired) <==>
            && posted.Plain? && Ours(env, cfg, posted.tx.body)
            && (now + 300 < posted.tx.body.minTime || now > posted.tx.body.maxTime))
      && (r == Err(UnknownHomeDomain) <==>
            && posted.Plain? && Ours(env, cfg, posted.tx.body) && Opens(posted.tx.body)
            && posted.tx.body.minTime - 300 <= now <= posted.tx.body.maxTime
            && !NamesHome(cfg, posted.tx.body.operations[0].name))
      && (r == Err(MemoWithMuxed) <==>
            && posted.Plain? && Ours(env, cfg, posted.tx.body) && Opens(posted.tx.body)
            && posted.tx.body.minTime - 300 <= now <= posted.tx.body.maxTime
            && NamesHome(cfg, posted.tx.body.operations[0].name)
            && posted.tx.body.memo != NoMemo && env.isMuxed(posted.tx.body.operations[0].source))
      && (r.Err? ==> r.error in {ChallengeMalformed, ChallengeExpired, UnknownHomeDomain, MemoWithMuxed})
  {
    if posted.Plain? && Opens(posted.tx.body) {
      var key := posted.tx.body.operations[0].name;
      var home := HomeDomainOf(cfg.homeDomains, key);
      assert home.Some? <==> NamesHome(cfg, key);
    }
  }

  // ---- The SDK's reader ------------------------------------------------------------------------

  /** The SDK's rule for one operation after the first: no client_domain case. */
  predicate SdkOperationOk(cfg: Config, op: Operation) {
    SourcedData(op) && op.source == cfg.server && (op.name == WEB_AUTH_DOMAIN ==> op.value == cfg.webAuthDomain)
  }

  /** No duplicate tracking either. */
  predicate SdkRestOk(cfg: Config, rest: seq<Operation>) {
    forall i :: 0 <= i < |rest| ==> SdkOperationOk(cfg, rest[i])
  }

  function SdkRead(env: Env, cfg: Config, posted: Posted, now: int): Result<Challenge, AuthError> {
    ReadWith(env, cfg, posted, now, rest => SdkRestOk(cfg, rest))
  }

  /** Everything the two readers test alike: all but the operations after the first. */
  predicate BeforeRest(env: Env, cfg: Config, posted: Posted, now: int) {
    && posted.Plain?
    && var b := posted.tx.body;
       && HeaderOk(env, cfg, b) && InWindow(b, now) && Signed(env, posted.tx, cfg.server)
       && b.operations != [] && SourcedData(b.operations[0]) && FirstOk(env, cfg, b.operations[0], b.memo)
  }

  /** The first operation names one of our home domains, an account that may carry the memo, and a nonce. */
  predicate FirstOk(env: Env, cfg: Config, first: Operation, memo: Memo)
    requires first.ManageData?
  {
    && (exists h :: h in cfg.homeDomains && h != "" && first.name == h + AUTH_SUFFIX)
    && (env.isEd25519(first.source) || env.isMuxed(first.source))
    && (memo == NoMemo || (memo.MemoId? && !env.isMuxed(first.source)))
    && Base64.ValidNonce(first.value)
  }

  /** A challenge with client domain: one operation from a real key that is not ours, around it what both accept. */
  predicate ClientDomainShape(env: Env, cfg: Config, rest: seq<Operation>) {
    && (forall i :: 0 <= i < |rest| ==> SdkOperationOk(cfg, rest[i]) || ClientDomainOk(env, cfg, rest[i]))
    && (exists i :: 0 <= i < |rest| && ClientDomainOk(env, cfg, rest[i]))
    && AtMostOnce(rest, CLIENT_DOMAIN) && AtMostOnce(rest, WEB_AUTH_DOMAIN)
  }

  predicate ClientDomainOk(env: Env, cfg: Config, op: Operation) {
    SourcedData(op) && op.name == CLIENT_DOMAIN && env.isEd25519(op.source) && op.source != cfg.server && op.value != ""
  }

  /** All from the server, yet with web_auth_domain twice, or with a client_domain that is the server's own. */
  predicate ServerOnlyShape(cfg: Config, rest: seq<Operation>) {
    SdkRestOk(cfg, rest) && (!AtMostOnce(rest, WEB_AUTH_DOMAIN) || Has(rest, CLIENT_DOMAIN))
  }

  lemma RestsCompared(env: Env, cfg: Config, rest: seq<Operation>)
    ensures RestOk(env, cfg, rest) && !SdkRestOk(cfg, rest) <==> ClientDomainShape(env, cfg, rest)
    ensures SdkRestOk(cfg, rest) && !RestOk(env, cfg, rest) <==> ServerOnlyShape(cfg, rest)
  {
    forall i | 0 <= i < |rest|
      ensures OperationOk(env, cfg, rest[i]) <==>
        ClientDomainOk(env, cfg, rest[i]) || (SdkOperationOk(cfg, rest[i]) && !Named(rest[i], CLIENT_DOMAIN))
    {
    }
  }

  /**
   The two readers differ, in result or in error, exactly when the challenge passes every other test and
   the operations after its first have one of two shapes: with a client domain ours alone accepts it, with
   only server operations the SDK's alone does. So they differ on nothing but a client_domain operation or
   a second web_auth_domain one.
   */
  lemma ReadersAgreeExactly(env: Env, cfg: Config, posted: Posted, now: int)
    ensures var r, sdk := Read(env, cfg, posted, now), SdkRead(env, cfg, posted, now);
      var rest := if posted.Plain? && posted.tx.body.operations != [] then posted.tx.body.operations[1..] else [];
      && (r.Ok? && sdk.Err? <==> BeforeRest(env, cfg, posted, now) && ClientDomainShape(env, cfg, rest))
      && (sdk.Ok? && r.Err? <==> BeforeRest(env, cfg, posted, now) && ServerOnlyShape(cfg, rest))
      && (r != sdk <==> r.Ok? != sdk.Ok?)
      && (r.Ok? <==> BeforeRest(env, cfg, posted, now) && RestOk(env, cfg, rest))
      && (r != sdk ==> Has(rest, CLIENT_DOMAIN) || !AtMostOnce(rest, WEB_AUTH_DOMAIN))
  {
    if posted.Plain? && posted.tx.body.operations != [] {
      RestsCompared(env, cfg, posted.tx.body.operations[1..]);
    }
  }

  // ---- Challenges on which they do differ ------------------------------------------------------

  /** A challenge for the account, open at `now`, signed once, with these operations after web_auth_domain. */
  function Sample(cfg: Config, account: Address, home: string, nonce: string, now: nat, more: seq<Operation>): Body {
    Body(cfg.server, 0, now, now + 1, NoMemo,
         [ManageData(account, home + AUTH_SUFFIX, nonce), WebAuth(cfg)] + more, 100)
  }

  function WebAuth(cfg: Config): Operation {
    ManageData(cfg.server, WEB_AUTH_DOMAIN, cfg.webAuthDomain)
  }

  lemma SampleIsFine(env: Env, cfg: Config, account: Address, home: string, nonce: string, now: nat,
                     more: seq<Operation>, sig: Signature)
    requires env.isEd25519(cfg.server) && env.isEd25519(account) && home in cfg.homeDomains && home != ""
    requires LawfulAddresses(env) && Base64.ValidNonce(nonce)
    requires Accepts(env, env.hash(Sample(cfg, account, home, nonce, now, more)), cfg.server, sig)
    ensures var tx := Transaction(Sample(cfg, account, home, nonce, now, more), [sig]);
      BeforeRest(env, cfg, Plain(tx), now) && tx.body.operations[1..] == [WebAuth(cfg)] + more
  {
    var tx := Transaction(Sample(cfg, account, home, nonce, now, more), [sig]);
    assert Accepts(env, env.hash(tx.body), cfg.server, tx.signatures[0]);
  }

  /** A client_domain operation from any real key but the server's: read here, refused by the SDK. */
  lemma ClientDomainReadHereOnly(env: Env, cfg: Config, account: Address, home: string, nonce: string, now: nat,
                                 key: Address, domain: string, sig: Signature)
    requires env.isEd25519(cfg.server) && env.isEd25519(account) && home in cfg.homeDomains && home != ""
    requires LawfulAddresses(env) && Base64.ValidNonce(nonce) && env.isEd25519(key) && key != cfg.server && domain != ""
    requires Accepts(env, env.hash(Sample(cfg, account, home, nonce, now, [ManageData(key, CLIENT_DOMAIN, domain)])),
                     cfg.server, sig)
    ensures var posted := Plain(Transaction(
                Sample(cfg, account, home, nonce, now, [ManageData(key, CLIENT_DOMAIN, domain)]), [sig]));
      Read(env, cfg, posted, now).Ok? && SdkRead(env, cfg, posted, now) == Err(ChallengeMalformed)
  {
    var more := [ManageData(key, CLIENT_DOMAIN, domain)];
    var tx := Transaction(Sample(cfg, account, home, nonce, now, more), [sig]);
    SampleIsFine(env, cfg, account, home, nonce, now, more, sig);
    var rest := [WebAuth(cfg)] + more;
    assert ClientDomainOk(env, cfg, rest[1]);
    assert ClientDomainShape(env, cfg, rest);
    ReadersAgreeExactly(env, cfg, Plain(tx), now);
  }

  /** A second web_auth_domain operation, or a client_domain one from the server: read by the SDK, refused here. */
  lemma ServerOnlyReadBySdk(env: Env, cfg: Config, account: Address, home: string, nonce: string, now: nat,
                            op: Operation, sig: Signature)
    requires env.isEd25519(cfg.server) && env.isEd25519(account) && home in cfg.homeDomains && home != ""
    requires LawfulAddresses(env) && Base64.ValidNonce(nonce)
    requires op == WebAuth(cfg) || (Named(op, CLIENT_DOMAIN) && op.source == cfg.server)
    requires Accepts(env, env.hash(Sample(cfg, account, home, nonce, now, [op])), cfg.server, sig)
    ensures var posted := Plain(Transaction(Sample(cfg, account, home, nonce, now, [op]), [sig]));
      SdkRead(env, cfg, posted, now).Ok? && Read(env, cfg, posted, now) == Err(ChallengeMalformed)
  {
    var tx := Transaction(Sample(cfg, account, home, nonce, now, [op]), [sig]);
    SampleIsFine(env, cfg, account, home, nonce, now, [op], sig);
    var rest := [WebAuth(cfg)] + [op];
    assert Named(rest[0], WEB_AUTH_DOMAIN) && rest[1] == op;
    assert ServerOnlyShape(cfg, rest);
    ReadersAgreeExactly(env, cfg, Plain(tx), now);
  }
}
