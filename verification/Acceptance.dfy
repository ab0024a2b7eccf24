/** What an accepted challenge proves about its signatures, and what cannot change the decision. */
module Acceptance {
  import opened Prelude
  import opened Txn
  import opened Signatures
  import opened Verify
  import StringOrder

  /** Every key a signature of this challenge may belong to. */
  ghost function Parties(env: Env, ch: Challenge, signers: set<Address>): set<Address> {
    {ch.tx.body.source} + Candidates(env, ch, signers)
  }

  /**
   `who` names a different maker for each signature, by hint and by key: the server, at least one signer of
   the account that is not the client domain's key, and nobody but these and the client domain's key.
   */
  ghost predicate Made(env: Env, ch: Challenge, signers: set<Address>, who: seq<Address>) {
    && |who| == |ch.tx.signatures| && NoDup(who)
    && (forall i :: 0 <= i < |who| ==>
          && ch.tx.signatures[i].hint == env.hint(who[i])
          && env.verifies(who[i], env.hash(ch.tx.body), ch.tx.signatures[i].bytes))
    && (forall k :: k in Elems(who) ==>
          || k == ch.tx.body.source
          || ((k in signers || k == ch.clientDomainKey) && k != "" && env.isEd25519(k)))
    && ch.tx.body.source in Elems(who)
    && (exists k :: k in Elems(who) && k in signers && k != ch.tx.body.source && k != ch.clientDomainKey)
  }

  /** The client domain's key, when there is one, is among the makers. */
  ghost predicate Joined(ch: Challenge, who: set<Address>) {
    ch.clientDomainKey != "" ==> ch.clientDomainKey in who && ch.clientDomainKey != ch.tx.body.source
  }

  ghost predicate Attested(env: Env, ch: Challenge, signers: set<Address>, who: seq<Address>) {
    Made(env, ch, signers, who) && Joined(ch, Elems(who))
  }

  ghost function IndexOf(at: seq<nat>, i: nat): (j: nat)
    requires i in Elems(at)
    ensures j < |at| && at[j] == i
  {
    var j: nat :| j < |at| && at[j] == i;
    j
  }

  ghost function MakersOf(found: seq<Address>, at: seq<nat>): (who: seq<Address>)
    requires |found| == |at| && Elems(at) == Below(|at|)
    ensures |who| == |at| && forall i: nat :: i < |at| ==> i in Elems(at) && who[i] == found[IndexOf(at, i)]
  {
    seq(|at|, (i: nat) requires i in Elems(at) => found[IndexOf(at, i)])
  }

  lemma IndexOfAt(at: seq<nat>, j: nat)
    requires NoDup(at) && j < |at|
    ensures IndexOf(at, at[j]) == j
  {
  }

  lemma MakerAt(found: seq<Address>, at: seq<nat>, j: nat)
    requires NoDup(at) && |found| == |at| && Elems(at) == Below(|at|) && j < |at|
    ensures at[j] < |at| && MakersOf(found, at)[at[j]] == found[j]
  {
    assert at[j] in Elems(at);
    IndexOfAt(at, j);
  }

  lemma SameElements(a: seq<Address>, b: seq<Address>)
    requires forall i :: 0 <= i < |a| ==> a[i] in b
    requires forall j :: 0 <= j < |b| ==> exists i :: 0 <= i < |a| && a[i] == b[j]
    ensures Elems(a) == Elems(b)
  {
  }

  lemma MakersAreFound(found: seq<Address>, at: seq<nat>)
    requires NoDup(at) && |found| == |at| && Elems(at) == Below(|at|)
    ensures Elems(MakersOf(found, at)) == Elems(found)
  {
    var who := MakersOf(found, at);
    forall j: nat | j < |found| ensures exists i :: 0 <= i < |who| && who[i] == found[j] {
      MakerAt(found, at, j);
    }
    SameElements(who, found);
  }

  lemma MakersDiffer(found: seq<Address>, at: seq<nat>)
    requires NoDup(found) && |found| == |at| && Elems(at) == Below(|at|)
    ensures NoDup(MakersOf(found, at))
  {
    var who := MakersOf(found, at);
    forall i: nat, j: nat | i < j < |who| ensures who[i] != who[j] {
      assert IndexOf(at, i) != IndexOf(at, j);
    }
  }

  /** The count check is a pigeonhole: as many signers found as signatures means every signature has its maker. */
  lemma AllAccounted(env: Env, tx: Transaction, signers: seq<Address>) returns (who: seq<Address>)
    requires |Found(env, tx, signers)| == |tx.signatures|
    ensures |who| == |tx.signatures| && NoDup(who) && Elems(who) == Elems(Found(env, tx, signers))
    ensures forall i :: 0 <= i < |who| ==> Accepts(env, env.hash(tx.body), who[i], tx.signatures[i])
    ensures Elems(who) <= Elems(signers)
  {
    var h, sigs := env.hash(tx.body), tx.signatures;
    var pairs := Pairs(env, h, signers, sigs);
    PairsSound(env, h, signers, sigs);
    NamesNoDup(pairs);
    forall k | k in Names(pairs) ensures k in signers { NamesFrom(pairs, k); }
    var at := FirstIndices(env, h, signers, sigs, pairs);
    Pigeonhole(at, |sigs|);
    who := MakersOf(Names(pairs), at);
    MakersAreFound(Names(pairs), at);
    MakersDiffer(Names(pairs), at);
  }

  lemma JudgedPast(server: Address, cdk: Address, count: nat, matched: seq<Address>)
    requires NoDup(matched) && Judged(server, cdk, count, matched) != Err(SignatureUnrecognized)
    ensures |matched| == count && server in Elems(matched)
    ensures exists k :: k in Elems(matched) && k != server && k != cdk
    ensures if cdk != "" && (cdk !in Elems(matched) || cdk == server) then
              Judged(server, cdk, count, matched) == Err(ClientDomainUnverified)
            else
              && Judged(server, cdk, count, matched).Ok? && NoDup(Judged(server, cdk, count, matched).value)
              && Elems(Judged(server, cdk, count, matched).value) == Elems(matched) - {server}
  {
    WithoutElems(matched, server);
    var found := Without(matched, server);
    var k :| k in found && k != cdk;
    assert k in Elems(found);
    assert cdk in found <==> cdk in Elems(found);
  }

  /** Only two errors are possible, and past the first of them every signature has its maker. */
  lemma DecidedIsMade(env: Env, ch: Challenge, signers: seq<Address>) returns (who: seq<Address>)
    requires Verdict(env, ch, signers) != Err(SignatureUnrecognized)
    ensures Made(env, ch, Elems(signers), who)
    ensures if Joined(ch, Elems(who)) then
              && Verdict(env, ch, signers).Ok? && NoDup(Verdict(env, ch, signers).value)
              && Elems(Verdict(env, ch, signers).value) == Elems(who) - {ch.tx.body.source}
            else Verdict(env, ch, signers) == Err(ClientDomainUnverified)
  {
    var all := [ch.tx.body.source] + ClientSigners(env, ch, signers);
    ClientSignersElems(env, ch, signers);
    NamesNoDup(Pairs(env, env.hash(ch.tx.body), all, ch.tx.signatures));
    JudgedPast(ch.tx.body.source, ch.clientDomainKey, |ch.tx.signatures|, Found(env, ch.tx, all));
    who := AllAccounted(env, ch.tx, all);
    AccountedAreMade(env, ch, Elems(signers), who);
  }

  lemma AccountedAreMade(env: Env, ch: Challenge, signers: set<Address>, who: seq<Address>)
    requires |who| == |ch.tx.signatures| && NoDup(who)
    requires forall i :: 0 <= i < |who| ==> Accepts(env, env.hash(ch.tx.body), who[i], ch.tx.signatures[i])
    requires Elems(who) <= {ch.tx.body.source} + Candidates(env, ch, signers)
    requires ch.tx.body.source in Elems(who)
    requires exists k :: k in Elems(who) && k != ch.tx.body.source && k != ch.clientDomainKey
    ensures Made(env, ch, signers, who)
  {
    forall i | 0 <= i < |who|
      ensures && ch.tx.signatures[i].hint == env.hint(who[i])
              && env.verifies(who[i], env.hash(ch.tx.body), ch.tx.signatures[i].bytes)
    {
      assert Accepts(env, env.hash(ch.tx.body), who[i], ch.tx.signatures[i]);
    }
  }

  /** Soundness needs no hypothesis on the signature scheme. */
  lemma AcceptedIsAttested(env: Env, ch: Challenge, signers: seq<Address>) returns (who: seq<Address>)
    requires Verdict(env, ch, signers).Ok?
    ensures Attested(env, ch, Elems(signers), who)
    ensures Elems(Verdict(env, ch, signers).value) == Elems(who) - {ch.tx.body.source}
    ensures NoDup(Verdict(env, ch, signers).value)
  {
    who := DecidedIsMade(env, ch, signers);
  }

  // ---- The decision as a function of who signed ------------------------------------------------

  ghost function Signatories(env: Env, ch: Challenge, signers: set<Address>): set<Address> {
    set k | k in Parties(env, ch, signers) && Signed(env, ch.tx, k)
  }

  ghost function SetVerdict(env: Env, ch: Challenge, signers: set<Address>): Result<set<Address>, AuthError> {
    if Candidates(env, ch, signers) == {} || !env.isEd25519(ch.tx.body.source) then Err(SignatureUnrecognized)
    else Decide(ch.tx.body.source, ch.clientDomainKey, |ch.tx.signatures|, Signatories(env, ch, signers))
  }

  /** The decision once the signatories are known. */
  ghost function Decide(server: Address, cdk: Address, count: nat, s: set<Address>): Result<set<Address>, AuthError> {
    if server !in s || s <= {server, cdk} || |s| != count then Err(SignatureUnrecognized)
    else if cdk != "" && cdk !in s - {server} then Err(ClientDomainUnverified)
    else Ok(s - {server})
  }

  ghost predicate Lists(r: Result<seq<Address>, AuthError>, q: Result<set<Address>, AuthError>) {
    if r.Ok? then q == Ok(Elems(r.value)) && NoDup(r.value) else q == Err(r.error)
  }

  lemma MatchedAreSignatories(env: Env, ch: Challenge, signers: seq<Address>)
    requires Unambiguous(env, ch.tx, Parties(env, ch, Elems(signers)))
    ensures var matched := Found(env, ch.tx, [ch.tx.body.source] + ClientSigners(env, ch, signers));
      && NoDup(matched) && Elems(matched) == Signatories(env, ch, Elems(signers))
      && |matched| == |Signatories(env, ch, Elems(signers))|
  {
    var all := [ch.tx.body.source] + ClientSigners(env, ch, signers);
    ClientSignersElems(env, ch, signers);
    FoundAreThoseWhoSigned(env, ch.tx, all);
    forall k ensures k in all <==> k in Elems(all) {}
    NoDupCard(Found(env, ch.tx, all));
  }

  lemma AllParseIsServerParse(env: Env, ch: Challenge, signers: seq<Address>)
    ensures AllParse(env, [ch.tx.body.source] + ClientSigners(env, ch, signers)) <==> env.isEd25519(ch.tx.body.source)
    ensures ClientSigners(env, ch, signers) == [] <==> Candidates(env, ch, Elems(signers)) == {}
  {
    var server, cs := ch.tx.body.source, ClientSigners(env, ch, signers);
    ClientSignersElems(env, ch, signers);
    assert ([server] + cs)[0] == server;
    forall k | k in cs ensures env.isEd25519(k) { assert k in Elems(cs); }
    if cs != [] { assert cs[0] in Elems(cs); }
  }

  lemma ServerAndKey(s: set<Address>, server: Address, cdk: Address)
    ensures s - {server} <= {cdk} <==> s <= {server, cdk}
  {
    if s - {server} <= {cdk} {
      forall k | k in s ensures k in {server, cdk} { if k != server { assert k in s - {server}; } }
    }
  }

  lemma OnlyOne(found: seq<Address>, x: Address)
    ensures (forall k :: k in found ==> k == x) <==> Elems(found) <= {x}
  {
    forall k ensures k in found <==> k in Elems(found) {}
  }

  lemma JudgedBySets(server: Address, cdk: Address, count: nat, matched: seq<Address>)
    requires NoDup(matched)
    ensures Lists(Judged(server, cdk, count, matched), Decide(server, cdk, count, Elems(matched)))
  {
    NoDupCard(matched);
    WithoutElems(matched, server);
    var found := Without(matched, server);
    assert server in matched <==> server in Elems(matched);
    assert cdk in found <==> cdk in Elems(found);
    OnlyOne(found, cdk);
    ServerAndKey(Elems(matched), server, cdk);
  }

  /** When no signature answers to two parties, the verdict and its error depend on sets alone. */
  lemma VerdictBySets(env: Env, ch: Challenge, signers: seq<Address>)
    requires Unambiguous(env, ch.tx, Parties(env, ch, Elems(signers)))
    ensures Lists(Verdict(env, ch, signers), SetVerdict(env, ch, Elems(signers)))
  {
    MatchedAreSignatories(env, ch, signers);
    AllParseIsServerParse(env, ch, signers);
    JudgedBySets(ch.tx.body.source, ch.clientDomainKey, |ch.tx.signatures|,
      Found(env, ch.tx, [ch.tx.body.source] + ClientSigners(env, ch, signers)));
  }

  /**
   Exact acceptance: the signers are accepted if and only if the signatures are in bijection with such a
   set of makers, the client domain's key among them when there is one, and the signers returned are those
   makers without the server. With such makers but for that key the client domain is unverified; everything
   else is an unrecognised signature.
   */
  lemma AcceptanceExact(env: Env, ch: Challenge, signers: seq<Address>)
    requires Unambiguous(env, ch.tx, Parties(env, ch, Elems(signers)))
    ensures Verdict(env, ch, signers).Ok?
       <==> env.isEd25519(ch.tx.body.source) && exists who :: Attested(env, ch, Elems(signers), who)
    ensures forall who :: Attested(env, ch, Elems(signers), who) && Verdict(env, ch, signers).Ok? ==>
      Elems(Verdict(env, ch, signers).value) == Elems(who) - {ch.tx.body.source}
    ensures Verdict(env, ch, signers) == Err(ClientDomainUnverified)
       <==> env.isEd25519(ch.tx.body.source)
            && exists who :: Made(env, ch, Elems(signers), who) && !Joined(ch, Elems(who))
    ensures Verdict(env, ch, signers).Err? ==>
      Verdict(env, ch, signers).error in {SignatureUnrecognized, ClientDomainUnverified}
  {
    AllParseIsServerParse(env, ch, signers);
    if Verdict(env, ch, signers) != Err(SignatureUnrecognized) {
      var who := DecidedIsMade(env, ch, signers);
      assert Made(env, ch, Elems(signers), who) && MadeVerdict(Verdict(env, ch, signers), ch, Elems(who));
    }
    if env.isEd25519(ch.tx.body.source) {
      forall who | Made(env, ch, Elems(signers), who)
        ensures MadeVerdict(Verdict(env, ch, signers), ch, Elems(who))
      {
        MadeIsDecided(env, ch, signers, who);
      }
    }
    MadeDecides(env, ch, Elems(signers), Verdict(env, ch, signers));
  }

  lemma MadeDecides(env: Env, ch: Challenge, signers: set<Address>, r: Result<seq<Address>, AuthError>)
    requires forall who :: Made(env, ch, signers, who) && env.isEd25519(ch.tx.body.source) ==>
      MadeVerdict(r, ch, Elems(who))
    requires r != Err(SignatureUnrecognized) ==>
      env.isEd25519(ch.tx.body.source) && exists who :: Made(env, ch, signers, who) && MadeVerdict(r, ch, Elems(who))
    ensures r.Ok? <==> env.isEd25519(ch.tx.body.source) && exists who :: Attested(env, ch, signers, who)
    ensures forall who :: Attested(env, ch, signers, who) && r.Ok? ==>
      Elems(r.value) == Elems(who) - {ch.tx.body.source}
    ensures r == Err(ClientDomainUnverified)
       <==> env.isEd25519(ch.tx.body.source) && exists who :: Made(env, ch, signers, who) && !Joined(ch, Elems(who))
    ensures r.Err? ==> r.error in {SignatureUnrecognized, ClientDomainUnverified}
  {
    if r != Err(SignatureUnrecognized) {
      var who :| Made(env, ch, signers, who) && MadeVerdict(r, ch, Elems(who));
      assert Joined(ch, Elems(who)) ==> Attested(env, ch, signers, who);
    }
  }

  lemma MadeIsDecided(env: Env, ch: Challenge, signers: seq<Address>, who: seq<Address>)
    requires Unambiguous(env, ch.tx, Parties(env, ch, Elems(signers))) && Made(env, ch, Elems(signers), who)
    requires env.isEd25519(ch.tx.body.source)
    ensures MadeVerdict(Verdict(env, ch, signers), ch, Elems(who))
  {
    VerdictBySets(env, ch, signers);
    MadeSetVerdict(env, ch, Elems(signers), who);
  }

  ghost predicate MadeVerdict(r: Result<seq<Address>, AuthError>, ch: Challenge, who: set<Address>) {
    if Joined(ch, who) then r.Ok? && Elems(r.value) == who - {ch.tx.body.source} else r == Err(ClientDomainUnverified)
  }

  lemma MadeSetVerdict(env: Env, ch: Challenge, signers: set<Address>, who: seq<Address>)
    requires Unambiguous(env, ch.tx, Parties(env, ch, signers)) && Made(env, ch, signers, who)
    requires env.isEd25519(ch.tx.body.source)
    ensures SetVerdict(env, ch, signers)
         == if Joined(ch, Elems(who)) then Ok(Elems(who) - {ch.tx.body.source}) else Err(ClientDomainUnverified)
  {
    MakersAreSignatories(env, ch, signers, who);
    var k :| k in Elems(who) && k in signers && k != ch.tx.body.source && k != ch.clientDomainKey;
    assert k in Candidates(env, ch, signers);
    DecideMade(ch.tx.body.source, ch.clientDomainKey, |ch.tx.signatures|, Elems(who), k);
  }

  lemma DecideMade(server: Address, cdk: Address, count: nat, s: set<Address>, k: Address)
    requires server in s && k in s && k != server && k != cdk && |s| == count
    ensures Decide(server, cdk, count, s)
         == if cdk != "" && (cdk !in s || cdk == server) then Err(ClientDomainUnverified) else Ok(s - {server})
  {
  }

  lemma MakersAreSignatories(env: Env, ch: Challenge, signers: set<Address>, who: seq<Address>)
    requires Unambiguous(env, ch.tx, Parties(env, ch, signers)) && Made(env, ch, signers, who)
    ensures Elems(who) == Signatories(env, ch, signers) && |Signatories(env, ch, signers)| == |ch.tx.signatures|
  {
    NoDupCard(who);
    forall k | k in Elems(who) ensures k in Signatories(env, ch, signers) {
      var i :| 0 <= i < |who| && who[i] == k;
      assert Accepts(env, env.hash(ch.tx.body), k, ch.tx.signatures[i]);
    }
    forall k | k in Signatories(env, ch, signers) ensures k in Elems(who) {
      var i :| 0 <= i < |ch.tx.signatures| && Accepts(env, env.hash(ch.tx.body), k, ch.tx.signatures[i]);
      assert who[i] in Elems(who);
      assert Accepts(env, env.hash(ch.tx.body), who[i], ch.tx.signatures[i]);
    }
  }

  // ---- Non-interference ------------------------------------------------------------------------

  ghost predicate SameVerdict(r: Result<seq<Address>, AuthError>, q: Result<seq<Address>, AuthError>) {
    if r.Ok? then q.Ok? && Elems(r.value) == Elems(q.value) else q == r
  }

  /** Two accounts that differ at most in whether, and with what weight, one key is a signer. */
  ghost predicate AgreeOff(a: Account, b: Account, key: Address) {
    && a.medThreshold == b.medThreshold
    && a.signers - {key} == b.signers - {key}
  }

  lemma AgreeOffWeights(a: Account, b: Account, key: Address)
    requires AgreeOff(a, b, key)
    ensures a.signers.Keys + {key} == b.signers.Keys + {key}
    ensures forall k :: k != key ==> WeightOf(a.signers, k) == WeightOf(b.signers, k)
  {
    forall k | k != key
      ensures k in a.signers <==> k in b.signers
      ensures WeightOf(a.signers, k) == WeightOf(b.signers, k)
    {
      assert k in a.signers - {key} <==> k in b.signers - {key};
      if k in a.signers { assert (a.signers - {key})[k] == (b.signers - {key})[k]; }
    }
  }

  lemma AgreeOffSum(a: Account, b: Account, off: Address, cdk: Address, found: seq<Address>, found': seq<Address>)
    requires AgreeOff(a, b, off) && (off == cdk || off !in Elems(found))
    requires NoDup(found) && NoDup(found') && Elems(found) == Elems(found') && "" !in Elems(found)
    ensures WeightSum(found, a.signers, cdk) == WeightSum(found', b.signers, cdk)
  {
    AgreeOffWeights(a, b, off);
    forall k | k in found && k != cdk ensures WeightOf(a.signers, k) == WeightOf(b.signers, k) {
      assert k in Elems(found);
    }
    WeightSumIgnoresExcluded(found, a.signers, b.signers, cdk);
    WeightSumByElems(found, found', b.signers, cdk);
  }

  lemma AgreeOffVerdict(env: Env, ch: Challenge, a: Account, b: Account, off: Address)
    requires AgreeOff(a, b, off) && off in {ch.clientDomainKey, ch.tx.body.source}
    ensures SetVerdict(env, ch, a.signers.Keys) == SetVerdict(env, ch, b.signers.Keys)
    ensures Parties(env, ch, a.signers.Keys) == Parties(env, ch, b.signers.Keys)
    ensures var r := SetVerdict(env, ch, a.signers.Keys); r.Ok? ==> "" !in r.value && ch.tx.body.source !in r.value
  {
    AgreeOffWeights(a, b, off);
    assert Candidates(env, ch, a.signers.Keys) == Candidates(env, ch, b.signers.Keys);
  }

  lemma AgreeOffWeighed(a: Account, b: Account, off: Address, cdk: Address, r: Result<seq<Address>, AuthError>,
                        q: Result<seq<Address>, AuthError>, both: Result<set<Address>, AuthError>)
    requires AgreeOff(a, b, off) && Lists(r, both) && Lists(q, both)
    requires both.Ok? ==> "" !in both.value && (off == cdk || off !in both.value)
    ensures SameVerdict(Weighed(r, AccountFound(a), cdk), Weighed(q, AccountFound(b), cdk))
  {
    if both.Ok? { AgreeOffSum(a, b, off, cdk, r.value, q.value); }
  }

  lemma KeyNonInterference(env: Env, ch: Challenge, base: Address, a: Account, b: Account, off: Address)
    requires AgreeOff(a, b, off) && off in {ch.clientDomainKey, ch.tx.body.source}
    requires Unambiguous(env, ch.tx, Parties(env, ch, a.signers.Keys))
    ensures SameVerdict(VerdictFor(env, ch, base, AccountFound(a)), VerdictFor(env, ch, base, AccountFound(b)))
  {
    var la, lb := StringOrder.Listing(a.signers.Keys), StringOrder.Listing(b.signers.Keys);
    AgreeOffVerdict(env, ch, a, b, off);
    VerdictBySets(env, ch, la);
    VerdictBySets(env, ch, lb);
    AgreeOffWeighed(a, b, off, ch.clientDomainKey, Verdict(env, ch, la), Verdict(env, ch, lb),
      SetVerdict(env, ch, a.signers.Keys));
  }

  /** The client domain's key can be no signer, a light one or a heavy one: nothing changes. */
  lemma ClientDomainNonInterference(env: Env, ch: Challenge, base: Address, a: Account, b: Account)
    requires AgreeOff(a, b, ch.clientDomainKey)
    requires Unambiguous(env, ch.tx, Parties(env, ch, a.signers.Keys))
    ensures SameVerdict(VerdictFor(env, ch, base, AccountFound(a)), VerdictFor(env, ch, base, AccountFound(b)))
  {
    KeyNonInterference(env, ch, base, a, b, ch.clientDomainKey);
  }

  /** Nor does the server's key: it never authenticates on the client's behalf. */
  lemma ServerNonInterference(env: Env, ch: Challenge, base: Address, a: Account, b: Account)
    requires AgreeOff(a, b, ch.tx.body.source)
    requires Unambiguous(env, ch.tx, Parties(env, ch, a.signers.Keys))
    ensures SameVerdict(VerdictFor(env, ch, base, AccountFound(a)), VerdictFor(env, ch, base, AccountFound(b)))
  {
    KeyNonInterference(env, ch, base, a, b, ch.tx.body.source);
  }

  // ---- One more signature ----------------------------------------------------------------------

  function WithSignature(ch: Challenge, sig: Signature): Challenge {
    ch.(tx := ch.tx.(signatures := ch.tx.signatures + [sig]))
  }

  /** The candidates that had not signed and made the extra signature. */
  ghost function NewSigners(env: Env, ch: Challenge, signers: set<Address>, sig: Signature): set<Address> {
    set k | k in Candidates(env, ch, signers) && !Signed(env, ch.tx, k) && Accepts(env, env.hash(ch.tx.body), k, sig)
  }

  lemma SignedAfter(env: Env, ch: Challenge, sig: Signature, key: Address)
    ensures Signed(env, WithSignature(ch, sig).tx, key)
       <==> Signed(env, ch.tx, key) || Accepts(env, env.hash(ch.tx.body), key, sig)
  {
    var sigs, sigs' := ch.tx.signatures, WithSignature(ch, sig).tx.signatures;
    assert sigs'[|sigs|] == sig;
    if Signed(env, ch.tx, key) {
      var i :| 0 <= i < |sigs| && Accepts(env, env.hash(ch.tx.body), key, sigs[i]);
      assert sigs'[i] == sigs[i];
    }
  }

  lemma FewerStayUnambiguous(env: Env, ch: Challenge, keys: set<Address>, sig: Signature)
    requires Unambiguous(env, WithSignature(ch, sig).tx, keys)
    ensures Unambiguous(env, ch.tx, keys)
    ensures forall a, b ::
      (&& a in keys && b in keys
       && Accepts(env, env.hash(ch.tx.body), a, sig) && Accepts(env, env.hash(ch.tx.body), b, sig))
      ==> a == b
  {
    var sigs' := WithSignature(ch, sig).tx.signatures;
    assert sigs'[|ch.tx.signatures|] == sig;
    assert forall i :: 0 <= i < |ch.tx.signatures| ==> sigs'[i] == ch.tx.signatures[i];
  }

  lemma AtMostOne(s: set<Address>)
    requires forall a, b :: a in s && b in s ==> a == b
    ensures |s| <= 1
  {
    if a :| a in s { assert s == {a}; }
  }

  /** At most one element joins the set. */
  ghost predicate Grown(s: set<Address>, more: set<Address>, s': set<Address>) {
    s' == s + more && more !! s && |more| <= 1
  }

  lemma SignatoriesAfter(env: Env, ch: Challenge, signers: set<Address>, sig: Signature)
    requires Unambiguous(env, WithSignature(ch, sig).tx, Parties(env, ch, signers))
    requires ch.tx.body.source in Signatories(env, ch, signers)
    ensures Grown(Signatories(env, ch, signers), NewSigners(env, ch, signers, sig),
                  Signatories(env, WithSignature(ch, sig), signers))
  {
    var ch' := WithSignature(ch, sig);
    assert Parties(env, ch', signers) == Parties(env, ch, signers);
    FewerStayUnambiguous(env, ch, Parties(env, ch, signers), sig);
    forall k ensures Signed(env, ch'.tx, k) <==> Signed(env, ch.tx, k) || Accepts(env, env.hash(ch.tx.body), k, sig) {
      SignedAfter(env, ch, sig, k);
    }
    AtMostOne(NewSigners(env, ch, signers, sig));
  }

  lemma DecideAfter(server: Address, cdk: Address, count: nat, s: set<Address>, more: set<Address>)
    requires Decide(server, cdk, count, s).Ok? && |more| <= 1 && more !! s
    ensures Decide(server, cdk, count + 1, s + more)
         == if more != {} then Ok(Decide(server, cdk, count, s).value + more) else Err(SignatureUnrecognized)
    ensures more !! Decide(server, cdk, count, s).value
  {
    assert |s + more| == |s| + |more|;
    assert (s + more) - {server} == (s - {server}) + more;
    var k :| k in s && k !in {server, cdk};
    assert k in s + more;
  }

  lemma SetVerdictAfter(env: Env, ch: Challenge, signers: set<Address>, sig: Signature)
    requires SetVerdict(env, ch, signers).Ok?
    ensures ch.tx.body.source in Signatories(env, ch, signers)
    ensures SetVerdict(env, ch, signers)
         == Decide(ch.tx.body.source, ch.clientDomainKey, |ch.tx.signatures|, Signatories(env, ch, signers))
    ensures SetVerdict(env, WithSignature(ch, sig), signers)
         == Decide(ch.tx.body.source, ch.clientDomainKey, |ch.tx.signatures| + 1,
                   Signatories(env, WithSignature(ch, sig), signers))
  {
    assert Candidates(env, WithSignature(ch, sig), signers) == Candidates(env, ch, signers);
  }

  /** The decision on a grown set of signatories, read off the decision on the old one. */
  lemma AddedDecision(server: Address, cdk: Address, count: nat, s: set<Address>, s': set<Address>, more: set<Address>,
                      r: Result<set<Address>, AuthError>, r': Result<set<Address>, AuthError>)
    requires Grown(s, more, s')
    requires r == Decide(server, cdk, count, s) && r.Ok? && r' == Decide(server, cdk, count + 1, s')
    ensures more !! r.value && r' == if more == {} then Err(SignatureUnrecognized) else Ok(r.value + more)
  {
    DecideAfter(server, cdk, count, s, more);
  }

  lemma AddedSignatureSets(env: Env, ch: Challenge, signers: set<Address>, sig: Signature)
    requires SetVerdict(env, ch, signers).Ok?
    requires Grown(Signatories(env, ch, signers), NewSigners(env, ch, signers, sig),
                   Signatories(env, WithSignature(ch, sig), signers))
    ensures NewSigners(env, ch, signers, sig) !! SetVerdict(env, ch, signers).value
    ensures SetVerdict(env, WithSignature(ch, sig), signers)
         == if NewSigners(env, ch, signers, sig) == {} then Err(SignatureUnrecognized)
            else Ok(SetVerdict(env, ch, signers).value + NewSigners(env, ch, signers, sig))
  {
    SetVerdictAfter(env, ch, signers, sig);
    AddedDecision(ch.tx.body.source, ch.clientDomainKey, |ch.tx.signatures|,
      Signatories(env, ch, signers), Signatories(env, WithSignature(ch, sig), signers),
      NewSigners(env, ch, signers, sig),
      SetVerdict(env, ch, signers), SetVerdict(env, WithSignature(ch, sig), signers));
  }

  /** On an accepted challenge one more signature is accepted exactly when a new candidate made it. */
  lemma AddedSignatureVerdict(env: Env, ch: Challenge, signers: seq<Address>, sig: Signature)
    requires Verdict(env, ch, signers).Ok?
    requires Unambiguous(env, WithSignature(ch, sig).tx, Parties(env, ch, Elems(signers)))
    ensures var more := NewSigners(env, ch, Elems(signers), sig);
      var r, r' := Verdict(env, ch, signers), Verdict(env, WithSignature(ch, sig), signers);
      && NoDup(r.value) && more !! Elems(r.value) && |more| <= 1
      && if more != {} then r'.Ok? && NoDup(r'.value) && Elems(r'.value) == Elems(r.value) + more
         else r' == Err(SignatureUnrecognized)
  {
    FewerStayUnambiguous(env, ch, Parties(env, ch, Elems(signers)), sig);
    VerdictBySets(env, ch, signers);
    assert Parties(env, WithSignature(ch, sig), Elems(signers)) == Parties(env, ch, Elems(signers));
    VerdictBySets(env, WithSignature(ch, sig), signers);
    SetVerdictAfter(env, ch, Elems(signers), sig);
    SignatoriesAfter(env, ch, Elems(signers), sig);
    AddedSignatureSets(env, ch, Elems(signers), sig);
  }

  // ---- The whole client check ------------------------------------------------------------------

  ghost function SignersOf(base: Address, lookup: Lookup): (keys: set<Address>)
    ensures keys == Elems(CandidateList(base, lookup))
  {
    if lookup.AccountFound? then lookup.account.signers.Keys else {base}
  }

  /** The account's own weight behind a set of signatories: the server and the client domain count for nothing. */
  ghost function AccountWeight(ch: Challenge, account: Account, signatories: set<Address>): int {
    WeightSum(StringOrder.Listing(signatories - {ch.tx.body.source, ch.clientDomainKey}), account.signers, "")
  }

  /**
   That weight is the sum of the weights the account gives its signers, each counted once: nothing for
   nobody, what the account says for each signatory, nothing for a stranger, the server or the client domain.
   */
  lemma AccountWeightIsSum(ch: Challenge, account: Account, signatories: set<Address>, k: Address)
    ensures AccountWeight(ch, account, {}) == 0
    ensures k in signatories ==>
      AccountWeight(ch, account, signatories)
      == AccountWeight(ch, account, signatories - {k})
         + (if k in account.signers && k != ch.tx.body.source && k != ch.clientDomainKey then account.signers[k] else 0)
  {
    var off := {ch.tx.body.source, ch.clientDomainKey};
    assert {} - off == {};
    NoDupCard(StringOrder.Listing({}));
    if k in off {
      assert signatories - {k} - off == signatories - off;
    } else if k in signatories {
      assert signatories - {k} - off == signatories - off - {k};
      ListingSum(signatories - off, k, account.signers);
    }
  }

  lemma ListingSum(s: set<Address>, k: Address, weights: map<Address, int32>)
    requires k in s
    ensures WeightSum(StringOrder.Listing(s), weights, "")
         == WeightSum(StringOrder.Listing(s - {k}), weights, "") + (if k in weights then weights[k] else 0)
  {
    var rest := StringOrder.Listing(s - {k});
    assert k !in Elems(rest);
    assert Elems(rest + [k]) == Elems(rest) + {k} == s;
    WeightSumByElems(StringOrder.Listing(s), rest + [k], weights, "");
    WeightSumNext(rest, k, weights, "");
  }

  ghost predicate Enough(ch: Challenge, lookup: Lookup, signatories: set<Address>) {
    lookup.AccountFound? ==> AccountWeight(ch, lookup.account, signatories) >= lookup.account.medThreshold
  }

  ghost predicate BoundedLookup(lookup: Lookup) {
    lookup.AccountFound? ==> Bounded(lookup.account)
  }

  lemma WeightOfAccepted(ch: Challenge, account: Account, found: seq<Address>, who: set<Address>)
    requires Bounded(account) && NoDup(found) && "" !in found && Elems(found) == who - {ch.tx.body.source}
    ensures Wrap32(WeightSum(found, account.signers, ch.clientDomainKey)) == AccountWeight(ch, account, who)
  {
    NoOverflow(found, account, ch.clientDomainKey);
    WeightSumWithout(found, account.signers, ch.clientDomainKey);
    WithoutElems(found, ch.clientDomainKey);
    assert Elems(found) - {ch.clientDomainKey} == who - {ch.tx.body.source, ch.clientDomainKey};
    WeightSumByElems(Without(found, ch.clientDomainKey),
      StringOrder.Listing(who - {ch.tx.body.source, ch.clientDomainKey}), account.signers, "");
  }

  lemma FoundNeverEmptyString(env: Env, ch: Challenge, signers: set<Address>, who: seq<Address>, found: seq<Address>)
    requires Attested(env, ch, signers, who) && Elems(found) == Elems(who) - {ch.tx.body.source}
    ensures "" !in found
  {
    assert "" in found ==> "" in Elems(found);
  }

  lemma WeighedExact(env: Env, ch: Challenge, signers: set<Address>, lookup: Lookup,
                     r: Result<seq<Address>, AuthError>, who: seq<Address>)
    requires !lookup.LookupBroken? && BoundedLookup(lookup) && Attested(env, ch, signers, who)
    requires r.Ok? && NoDup(r.value) && Elems(r.value) == Elems(who) - {ch.tx.body.source}
    ensures Weighed(r, lookup, ch.clientDomainKey).Ok? <==> Enough(ch, lookup, Elems(who))
  {
    FoundNeverEmptyString(env, ch, signers, who, r.value);
    if lookup.AccountFound? {
      WeightOfAccepted(ch, lookup.account, r.value, Elems(who));
    }
  }

  /**
   Exact acceptance of VerifyClient, the int32 sum replaced by the real one: the lookup answered, every
   signature has its maker, and the account's own signers among them reach its medium threshold.
   */
  lemma ClientAcceptanceExact(env: Env, ch: Challenge, base: Address, lookup: Lookup)
    requires env.isEd25519(ch.tx.body.source) && BoundedLookup(lookup)
    requires Unambiguous(env, ch.tx, Parties(env, ch, SignersOf(base, lookup)))
    ensures VerdictFor(env, ch, base, lookup).Ok?
       <==> !lookup.LookupBroken? && exists who ::
              Attested(env, ch, SignersOf(base, lookup), who) && Enough(ch, lookup, Elems(who))
    ensures VerdictFor(env, ch, base, lookup) == Err(ThresholdNotMet)
       <==> lookup.AccountFound? && exists who ::
              && Attested(env, ch, lookup.account.signers.Keys, who)
              && AccountWeight(ch, lookup.account, Elems(who)) < lookup.account.medThreshold
  {
    if !lookup.LookupBroken? {
      var signers := CandidateList(base, lookup);
      AcceptanceExact(env, ch, signers);
      if Verdict(env, ch, signers).Ok? {
        var w := AcceptedIsAttested(env, ch, signers);
        forall who | Attested(env, ch, SignersOf(base, lookup), who)
          ensures VerdictFor(env, ch, base, lookup).Ok? <==> Enough(ch, lookup, Elems(who))
        {
          WeighedExact(env, ch, SignersOf(base, lookup), lookup, Verdict(env, ch, signers), who);
        }
      }
    }
  }

  /** The account asked for: an address's own, or the one inside a muxed address. */
  ghost predicate AskedFor(env: Env, address: Address, base: Address) {
    if env.isEd25519(address) then base == address else env.isMuxed(address) && base == env.muxedBase(address)
  }

  /** What each refusal of VerifyClient means, and that there is no other. */
  lemma ClientRefusals(env: Env, ch: Challenge, accounts: Address -> Lookup, base: Address)
    ensures ClientVerdict(env, ch, accounts) == Err(InvalidAccount)
       <==> !env.isEd25519(ch.clientAccount) && !env.isMuxed(ch.clientAccount)
    ensures AskedFor(env, ch.clientAccount, base) ==>
      && ClientVerdict(env, ch, accounts) == VerdictFor(env, ch, base, accounts(base))
      && (ClientVerdict(env, ch, accounts) == Err(AccountLookupFailed) <==> accounts(base).LookupBroken?)
      && (var r := Verdict(env, ch, CandidateList(base, accounts(base)));
          r.Err? && !accounts(base).LookupBroken? ==> ClientVerdict(env, ch, accounts) == r)
  {
    if AskedFor(env, ch.clientAccount, base) {
      WeighedRefusals(Verdict(env, ch, CandidateList(base, accounts(base))), accounts(base), ch.clientDomainKey);
      VerdictErrors(env, ch, CandidateList(base, accounts(base)));
    }
  }

  lemma VerdictErrors(env: Env, ch: Challenge, signers: seq<Address>)
    ensures Verdict(env, ch, signers).Err? ==>
      Verdict(env, ch, signers).error in {SignatureUnrecognized, ClientDomainUnverified}
  {
  }

  lemma WeighedRefusals(r: Result<seq<Address>, AuthError>, lookup: Lookup, cdk: Address)
    requires r.Err? ==> r.error in {SignatureUnrecognized, ClientDomainUnverified}
    ensures var q := Weighed(r, lookup, cdk);
      && (q == Err(AccountLookupFailed) <==> lookup.LookupBroken?)
      && (r.Err? && !lookup.LookupBroken? ==> q == r)
      && (r.Ok? && q.Err? && !lookup.LookupBroken? ==> q == Err(ThresholdNotMet))
  {
  }

  /** What an accepted challenge proves, with no hypothesis on the signature scheme at all. */
  ghost predicate Authorised(env: Env, ch: Challenge, accounts: Address -> Lookup) {
    exists base, who :: AskedFor(env, ch.clientAccount, base) && AuthorisedBy(env, ch, base, accounts(base), who)
  }

  ghost predicate AuthorisedBy(env: Env, ch: Challenge, base: Address, lookup: Lookup, who: seq<Address>) {
    match lookup
    case LookupBroken => false
    case AccountMissing => Attested(env, ch, {base}, who) && base in Elems(who) && base != ch.clientDomainKey
    case AccountFound(account) =>
      && Attested(env, ch, account.signers.Keys, who)
      && (Bounded(account) ==> AccountWeight(ch, account, Elems(who)) >= account.medThreshold)
  }

  lemma AcceptedIsAuthorised(env: Env, ch: Challenge, accounts: Address -> Lookup)
    requires ClientVerdict(env, ch, accounts).Ok?
    ensures Authorised(env, ch, accounts)
  {
    var base := BaseAccount(env, ch.clientAccount).value;
    var lookup := accounts(base);
    var signers := CandidateList(base, lookup);
    var who := AcceptedIsAttested(env, ch, signers);
    if BoundedLookup(lookup) {
      WeighedExact(env, ch, SignersOf(base, lookup), lookup, Verdict(env, ch, signers), who);
    }
    assert AskedFor(env, ch.clientAccount, base) && AuthorisedBy(env, ch, base, lookup, who);
  }

  lemma MoreWeight(ch: Challenge, account: Account, found: seq<Address>, found': seq<Address>, more: set<Address>)
    requires Bounded(account) && NoDup(found) && NoDup(found') && |more| == 1
    requires Elems(found') == Elems(found) + more && more !! Elems(found)
    ensures Wrap32(WeightSum(found, account.signers, ch.clientDomainKey))
         <= Wrap32(WeightSum(found', account.signers, ch.clientDomainKey))
  {
    var k :| k in more;
    assert |more - {k}| == 0;
    assert more == {k};
    NoOverflow(found, account, ch.clientDomainKey);
    NoOverflow(found', account, ch.clientDomainKey);
    assert Elems(found + [k]) == Elems(found');
    WeightSumByElems(found', found + [k], account.signers, ch.clientDomainKey);
    assert (found + [k])[..|found|] == found;
  }

  lemma ClientDomainSigned(env: Env, ch: Challenge, signers: seq<Address>)
    requires Verdict(env, ch, signers).Ok? && ch.clientDomainKey != ""
    ensures Signed(env, ch.tx, ch.clientDomainKey)
  {
    var who := AcceptedIsAttested(env, ch, signers);
    var i :| 0 <= i < |who| && who[i] == ch.clientDomainKey;
    assert Accepts(env, env.hash(ch.tx.body), who[i], ch.tx.signatures[i]);
  }

  lemma NewSignersAreSigners(env: Env, ch: Challenge, signers: seq<Address>, sig: Signature)
    requires Verdict(env, ch, signers).Ok?
    ensures NewSigners(env, ch, Elems(signers), sig) <= Elems(signers)
  {
    if ch.clientDomainKey != "" { ClientDomainSigned(env, ch, signers); }
  }

  /**
   Monotonicity: on a challenge VerifyClient accepts, one more signature keeps it accepted exactly when a
   signer of the account that had not signed made it; any other extra signature makes it unrecognised.
   */
  lemma AddedSignature(env: Env, ch: Challenge, base: Address, lookup: Lookup, sig: Signature)
    requires VerdictFor(env, ch, base, lookup).Ok? && BoundedLookup(lookup)
    requires Unambiguous(env, WithSignature(ch, sig).tx, Parties(env, ch, SignersOf(base, lookup)))
    ensures var r := VerdictFor(env, WithSignature(ch, sig), base, lookup);
      if NewSigners(env, ch, SignersOf(base, lookup), sig) != {} then r.Ok? else r == Err(SignatureUnrecognized)
    ensures NewSigners(env, ch, SignersOf(base, lookup), sig) <= SignersOf(base, lookup)
  {
    var signers := CandidateList(base, lookup);
    AddedSignatureVerdict(env, ch, signers, sig);
    NewSignersAreSigners(env, ch, signers, sig);
    var more := NewSigners(env, ch, Elems(signers), sig);
    if more != {} && lookup.AccountFound? {
      MoreWeight(ch, lookup.account, Verdict(env, ch, signers).value,
        Verdict(env, WithSignature(ch, sig), signers).value, more);
    }
  }
}
