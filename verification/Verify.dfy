/** internal/auth/verify.go: does this challenge carry the account's authority? */
module Verify {
  import opened Prelude
  import opened Txn
  import opened Signatures
  import StringOrder

  type int32 = x: int | -0x8000_0000 <= x < 0x8000_0000

  datatype Account = Account(signers: map<Address, int32>, medThreshold: int32)

  /** The three answers of an account lookup. */
  datatype Lookup = AccountFound(account: Account) | AccountMissing | LookupBroken

  // ---- Candidate signers -----------------------------------------------------------------------

  function Add(env: Env, server: Address, acc: seq<Address>, signer: Address): seq<Address> {
    if signer == "" || signer == server || signer in acc || !env.isEd25519(signer) then acc else acc + [signer]
  }

  function AddAll(env: Env, server: Address, signers: seq<Address>): seq<Address> {
    if signers == [] then []
    else Add(env, server, AddAll(env, server, signers[..|signers| - 1]), signers[|signers| - 1])
  }

  function ClientSigners(env: Env, ch: Challenge, signers: seq<Address>): seq<Address> {
    Add(env, ch.tx.body.source, AddAll(env, ch.tx.body.source, signers), ch.clientDomainKey)
  }

  /** The keys a challenge may carry signatures of, besides the server's. */
  ghost function Candidates(env: Env, ch: Challenge, signers: set<Address>): set<Address> {
    set k | k in signers + {ch.clientDomainKey} && k != "" && k != ch.tx.body.source && env.isEd25519(k)
  }

  lemma {:induction false} AddAllElems(env: Env, server: Address, signers: seq<Address>)
    ensures NoDup(AddAll(env, server, signers))
    ensures Elems(AddAll(env, server, signers))
         == set k | k in Elems(signers) && k != "" && k != server && env.isEd25519(k)
  {
    if signers != [] {
      var n := |signers| - 1;
      AddAllElems(env, server, signers[..n]);
      assert Elems(signers) == Elems(signers[..n]) + {signers[n]};
      var acc := AddAll(env, server, signers[..n]);
      assert signers[n] in acc <==> signers[n] in Elems(acc);
      assert Elems(acc + [signers[n]]) == Elems(acc) + {signers[n]};
    }
  }

  lemma ClientSignersElems(env: Env, ch: Challenge, signers: seq<Address>)
    ensures NoDup(ClientSigners(env, ch, signers))
    ensures Elems(ClientSigners(env, ch, signers)) == Candidates(env, ch, Elems(signers))
    ensures ch.tx.body.source !in ClientSigners(env, ch, signers)
    ensures NoDup([ch.tx.body.source] + ClientSigners(env, ch, signers))
    ensures Elems([ch.tx.body.source] + ClientSigners(env, ch, signers))
         == {ch.tx.body.source} + Candidates(env, ch, Elems(signers))
  {
    AddAllElems(env, ch.tx.body.source, signers);
    var acc := AddAll(env, ch.tx.body.source, signers);
    assert ch.clientDomainKey in acc <==> ch.clientDomainKey in Elems(acc);
    assert Elems(acc + [ch.clientDomainKey]) == Elems(acc) + {ch.clientDomainKey};
    var cs := ClientSigners(env, ch, signers);
    assert ch.tx.body.source in cs ==> ch.tx.body.source in Elems(cs);
    assert Elems([ch.tx.body.source] + cs) == {ch.tx.body.source} + Elems(cs);
  }

  // ---- verifySigners ---------------------------------------------------------------------------

  function Without(s: seq<Address>, x: Address): seq<Address> {
    if s == [] then []
    else Without(s[..|s| - 1], x) + (if s[|s| - 1] == x then [] else [s[|s| - 1]])
  }

  lemma {:induction false} WithoutElems(s: seq<Address>, x: Address)
    ensures Elems(Without(s, x)) == Elems(s) - {x}
    ensures NoDup(s) ==> NoDup(Without(s, x))
  {
    if s != [] {
      var n := |s| - 1;
      WithoutElems(s[..n], x);
      var w := Without(s[..n], x);
      assert Elems(s) == Elems(s[..n]) + {s[n]};
      assert Elems(w + [s[n]]) == Elems(w) + {s[n]};
      assert NoDup(s) ==> s[n] !in Elems(w);
    }
  }

  function Verdict(env: Env, ch: Challenge, signers: seq<Address>): Result<seq<Address>, AuthError> {
    var server := ch.tx.body.source;
    var cs := ClientSigners(env, ch, signers);
    if cs == [] || !AllParse(env, [server] + cs) then Err(SignatureUnrecognized)
    else Judged(server, ch.clientDomainKey, |ch.tx.signatures|, Found(env, ch.tx, [server] + cs))
  }

  /** The verdict on the signers that were matched to `count` signatures. */
  function Judged(server: Address, cdk: Address, count: nat, matched: seq<Address>): Result<seq<Address>, AuthError> {
    var found := Without(matched, server);
    if server !in matched || (forall k :: k in found ==> k == cdk) || |matched| != count then Err(SignatureUnrecognized)
    else if cdk != "" && cdk !in found then Err(ClientDomainUnverified)
    else Ok(found)
  }

  method AddSigner(env: Env, server: Address, acc: seq<Address>, seen: set<Address>, signer: Address)
    returns (acc': seq<Address>, seen': set<Address>)
    requires seen == Elems(acc)
    ensures acc' == Add(env, server, acc, signer) && seen' == Elems(acc')
  {
    acc', seen' := acc, seen;
    if signer == "" || signer == server || signer in seen {
      return;
    }
    if !env.isEd25519(signer) {
      return;
    }
    seen' := seen + {signer};
    acc' := acc + [signer];
  }

  /** The matched signers without the server, and whether the server was among them. */
  method SetAside(matched: seq<Address>, server: Address) returns (serverFound: bool, found: seq<Address>)
    ensures serverFound <==> server in matched
    ensures found == Without(matched, server)
  {
    serverFound, found := false, [];
    for i := 0 to |matched|
      invariant serverFound <==> server in matched[..i]
      invariant found == Without(matched[..i], server)
    {
      assert matched[..i + 1][..i] == matched[..i];
      if matched[i] == server {
        serverFound := true;
      } else {
        found := found + [matched[i]];
      }
    }
    assert matched[..|matched|] == matched;
  }

  method JudgeMatched(server: Address, cdk: Address, count: nat, matched: seq<Address>)
    returns (r: Result<seq<Address>, AuthError>)
    ensures r == Judged(server, cdk, count, matched)
  {
    var serverFound, found := SetAside(matched, server);
    if !serverFound {
      return Err(SignatureUnrecognized);
    }

    var signerFound := false;
    for i := 0 to |found|
      invariant !signerFound ==> forall j :: 0 <= j < i ==> found[j] == cdk
      invariant signerFound ==> exists k :: k in found && k != cdk
    {
      if found[i] != cdk {
        assert found[i] in found;
        signerFound := true;
        break;
      }
    }
    if !signerFound {
      return Err(SignatureUnrecognized);
    }
    if |matched| != count {
      return Err(SignatureUnrecognized);
    }

    if cdk != "" {
      var signed := false;
      for i := 0 to |found|
        invariant signed ==> cdk in found
        invariant !signed ==> forall j :: 0 <= j < i ==> found[j] != cdk
      {
        if found[i] == cdk {
          signed := true;
          break;
        }
      }
      if !signed {
        return Err(ClientDomainUnverified);
      }
    }
    return Ok(found);
  }

  method VerifySigners(env: Env, ch: Challenge, accountSigners: seq<Address>)
    returns (r: Result<seq<Address>, AuthError>)
    ensures r == Verdict(env, ch, accountSigners)
  {
    var server := ch.tx.body.source;
    var clientSigners: seq<Address> := [];
    var seen: set<Address> := {};
    for i := 0 to |accountSigners|
      invariant clientSigners == AddAll(env, server, accountSigners[..i]) && seen == Elems(clientSigners)
    {
      assert accountSigners[..i + 1][..i] == accountSigners[..i];
      clientSigners, seen := AddSigner(env, server, clientSigners, seen, accountSigners[i]);
    }
    assert accountSigners[..|accountSigners|] == accountSigners;
    clientSigners, seen := AddSigner(env, server, clientSigners, seen, ch.clientDomainKey);
    if |clientSigners| == 0 {
      return Err(SignatureUnrecognized);
    }

    var matched := MatchSigners(env, ch.tx, [server] + clientSigners);
    if matched.Err? {
      return matched;
    }
    r := JudgeMatched(server, ch.clientDomainKey, |ch.tx.signatures|, matched.value);
  }

  // ---- Weights ---------------------------------------------------------------------------------

  /** A Go int32 after an addition. */
  function Wrap32(x: int): (r: int32)
    ensures -0x8000_0000 <= x < 0x8000_0000 ==> r == x
    ensures (x - r) % 0x1_0000_0000 == 0
  {
    (x + 0x8000_0000) % 0x1_0000_0000 - 0x8000_0000
  }

  lemma WrapAdds(a: int, b: int)
    ensures Wrap32(Wrap32(a) + b) == Wrap32(a + b)
  {
    var q := (a + 0x8000_0000) / 0x1_0000_0000;
    assert Wrap32(a) == a - q * 0x1_0000_0000;
    assert Wrap32(a) + b + 0x8000_0000 == a + b + 0x8000_0000 - q * 0x1_0000_0000;
  }

  /** A Go map read: zero for a missing key. */
  function WeightOf(weights: map<Address, int32>, k: Address): int32 {
    if k in weights then weights[k] else 0
  }

  /** The exact sum of the matched weights, one key left out. */
  function WeightSum(found: seq<Address>, weights: map<Address, int32>, excluded: Address): int {
    if found == [] then 0
    else
      var k := found[|found| - 1];
      WeightSum(found[..|found| - 1], weights, excluded)
      + (if excluded != "" && k == excluded then 0 else WeightOf(weights, k))
  }

  method AccountSignerWeight(found: seq<Address>, weights: map<Address, int32>, clientDomainKey: Address)
    returns (weight: int32)
    ensures weight == Wrap32(WeightSum(found, weights, clientDomainKey))
  {
    weight := 0;
    for i := 0 to |found|
      invariant weight == Wrap32(WeightSum(found[..i], weights, clientDomainKey))
    {
      assert found[..i + 1][..i] == found[..i];
      if !(clientDomainKey != "" && found[i] == clientDomainKey) {
        WrapAdds(WeightSum(found[..i], weights, clientDomainKey), WeightOf(weights, found[i]));
        weight := Wrap32(weight + WeightOf(weights, found[i]));
      }
    }
    assert found[..|found|] == found;
  }

  lemma {:induction false} WeightSumConcat(a: seq<Address>, b: seq<Address>, weights: map<Address, int32>,
                                           excluded: Address)
    ensures WeightSum(a + b, weights, excluded) == WeightSum(a, weights, excluded) + WeightSum(b, weights, excluded)
  {
    if b == [] {
      assert a + b == a;
    } else {
      assert (a + b)[..|a + b| - 1] == a + b[..|b| - 1];
      WeightSumConcat(a, b[..|b| - 1], weights, excluded);
    }
  }

  lemma WeightSumNext(found: seq<Address>, k: Address, weights: map<Address, int32>, excluded: Address)
    ensures WeightSum(found + [k], weights, excluded)
         == WeightSum(found, weights, excluded)
            + (if k in weights && (excluded == "" || k != excluded) then weights[k] else 0)
  {
    assert (found + [k])[..|found|] == found;
  }

  lemma WeightSumMoveLast(pre: seq<Address>, x: Address, post: seq<Address>, weights: map<Address, int32>,
                          excluded: Address)
    ensures WeightSum(pre + [x] + post, weights, excluded) == WeightSum(pre + post + [x], weights, excluded)
  {
    WeightSumConcat(pre + [x], post, weights, excluded);
    WeightSumConcat(pre, [x], weights, excluded);
    WeightSumConcat(pre + post, [x], weights, excluded);
    WeightSumConcat(pre, post, weights, excluded);
  }

  /** A duplicate-free sequence split around one of its elements. */
  lemma SplitAt(s: seq<Address>, x: Address) returns (pre: seq<Address>, post: seq<Address>)
    requires NoDup(s) && x in s
    ensures s == pre + [x] + post && NoDup(pre + post) && Elems(pre + post) == Elems(s) - {x}
  {
    var i :| 0 <= i < |s| && s[i] == x;
    pre, post := s[..i], s[i + 1..];
    forall k ensures k in pre + post <==> k in s && k != x {
      if k in s && k != x {
        var j :| 0 <= j < |s| && s[j] == k;
        assert (pre + post)[if j < i then j else j - 1] == k;
      }
    }
  }

  lemma LastApart(a: seq<Address>)
    requires a != [] && NoDup(a)
    ensures var n := |a| - 1; NoDup(a[..n]) && Elems(a[..n]) == Elems(a) - {a[n]} && a == a[..n] + [a[n]]
  {
    forall k ensures k in a <==> k in a[..|a| - 1] || k == a[|a| - 1] {}
  }

  /** The order of the matched signers does not change their weight. */
  lemma {:induction false} WeightSumByElems(a: seq<Address>, b: seq<Address>, weights: map<Address, int32>,
                                            excluded: Address)
    requires NoDup(a) && NoDup(b) && Elems(a) == Elems(b)
    ensures WeightSum(a, weights, excluded) == WeightSum(b, weights, excluded)
  {
    if a == [] {
      SameElemsSameLength(a, b);
    } else {
      var n := |a| - 1;
      LastApart(a);
      assert a[n] in Elems(b);
      var pre, post := SplitAt(b, a[n]);
      WeightSumByElems(a[..n], pre + post, weights, excluded);
      WeightSumMoveLast(pre, a[n], post, weights, excluded);
      WeightSumConcat(a[..n], [a[n]], weights, excluded);
      WeightSumConcat(pre + post, [a[n]], weights, excluded);
    }
  }

  lemma {:induction false} WeightSumIgnoresExcluded(found: seq<Address>, v: map<Address, int32>,
                                                    w: map<Address, int32>, excluded: Address)
    requires excluded != "" || "" !in found
    requires forall k :: k in found && k != excluded ==> WeightOf(v, k) == WeightOf(w, k)
    ensures WeightSum(found, v, excluded) == WeightSum(found, w, excluded)
  {
    if found != [] {
      WeightSumIgnoresExcluded(found[..|found| - 1], v, w, excluded);
    }
  }

  /** Leaving a key out of the sum is the same as leaving it out of the sequence. */
  lemma {:induction false} WeightSumWithout(found: seq<Address>, weights: map<Address, int32>, excluded: Address)
    requires excluded != "" || "" !in found
    ensures WeightSum(found, weights, excluded) == WeightSum(Without(found, excluded), weights, "")
  {
    if found != [] {
      var n := |found| - 1;
      WeightSumWithout(found[..n], weights, excluded);
      if found[n] == excluded {
        assert Without(found, excluded) == Without(found[..n], excluded);
      } else {
        WeightSumConcat(Without(found[..n], excluded), [found[n]], weights, "");
        assert [found[n]][..0] == [];
      }
    }
  }

  /** What the network allows: the master key and at most 20 more signers, each weighing 0 to 255. */
  ghost predicate Bounded(account: Account) {
    && |account.signers| <= 21
    && forall k :: k in account.signers ==> 0 <= account.signers[k] <= 255
  }

  lemma HeldGrows(found: seq<Address>, keys: set<Address>)
    requires NoDup(found) && found != []
    ensures var n := |found| - 1;
      |Elems(found) * keys| == |Elems(found[..n]) * keys| + (if found[n] in keys then 1 else 0)
  {
    var n := |found| - 1;
    assert found[n] !in Elems(found[..n]);
    assert Elems(found) == Elems(found[..n]) + {found[n]};
    if found[n] in keys {
      assert Elems(found) * keys == Elems(found[..n]) * keys + {found[n]};
    } else {
      assert Elems(found) * keys == Elems(found[..n]) * keys;
    }
  }

  lemma {:induction false} WeightSumBounded(found: seq<Address>, account: Account, excluded: Address)
    requires Bounded(account) && NoDup(found)
    ensures 0 <= WeightSum(found, account.signers, excluded) <= 255 * |Elems(found) * account.signers.Keys|
  {
    if found != [] {
      WeightSumBounded(found[..|found| - 1], account, excluded);
      HeldGrows(found, account.signers.Keys);
    }
  }

  /** For every account the network allows, the int32 sum is the real sum: no wrap-around. */
  lemma NoOverflow(found: seq<Address>, account: Account, excluded: Address)
    requires Bounded(account) && NoDup(found)
    ensures Wrap32(WeightSum(found, account.signers, excluded)) == WeightSum(found, account.signers, excluded)
    ensures 0 <= WeightSum(found, account.signers, excluded) <= 255 * 21
  {
    WeightSumBounded(found, account, excluded);
    SubsetCard(Elems(found) * account.signers.Keys, account.signers.Keys);
  }

  // ---- VerifyClient ----------------------------------------------------------------------------

  /** The account on the ledger behind an address: itself, or the one inside a muxed address. */
  function BaseAccount(env: Env, address: Address): Option<Address> {
    if env.isEd25519(address) then Some(address)
    else if env.isMuxed(address) then Some(env.muxedBase(address))
    else None
  }

  ghost function ClientVerdict(env: Env, ch: Challenge, accounts: Address -> Lookup): Result<seq<Address>, AuthError> {
    match BaseAccount(env, ch.clientAccount)
    case None => Err(InvalidAccount)
    case Some(base) => VerdictFor(env, ch, base, accounts(base))
  }

  ghost function VerdictFor(env: Env, ch: Challenge, base: Address, lookup: Lookup): Result<seq<Address>, AuthError> {
    Weighed(Verdict(env, ch, CandidateList(base, lookup)), lookup, ch.clientDomainKey)
  }

  /** The signers asked about: the account's own, or its master key when it does not exist. */
  ghost function CandidateList(base: Address, lookup: Lookup): seq<Address> {
    if lookup.AccountFound? then StringOrder.Listing(lookup.account.signers.Keys) else [base]
  }

  /** What the lookup makes of the verdict on the signers. */
  ghost function Weighed(r: Result<seq<Address>, AuthError>, lookup: Lookup, cdk: Address): Result<seq<Address>,
                         AuthError> {
    match lookup
    case AccountMissing => r
    case LookupBroken => Err(AccountLookupFailed)
    case AccountFound(account) =>
      if r.Ok? && Wrap32(WeightSum(r.value, account.signers, cdk)) < account.medThreshold then Err(ThresholdNotMet)
      else r
  }

  /** The account's signers, in map order and then sorted. */
  method SignerList(account: Account) returns (candidates: seq<Address>)
    ensures candidates == StringOrder.Listing(account.signers.Keys)
  {
    candidates := [];
    var rest := account.signers.Keys;
    while rest != {}
      invariant rest !! Elems(candidates) && rest + Elems(candidates) == account.signers.Keys
      invariant NoDup(candidates)
      decreases |rest|
    {
      var signer :| signer in rest;
      assert signer !in Elems(candidates);
      assert Elems(candidates + [signer]) == Elems(candidates) + {signer};
      candidates := candidates + [signer];
      rest := rest - {signer};
    }
    assert Elems(candidates) == account.signers.Keys;
    StringOrder.SortIsListing(candidates);
    candidates := StringOrder.Sort(candidates);
  }

  method VerifyClient(env: Env, ch: Challenge, accounts: Address -> Lookup)
    returns (r: Result<seq<Address>, AuthError>)
    ensures r == ClientVerdict(env, ch, accounts)
  {
    var base := BaseAccount(env, ch.clientAccount);
    if base == None {
      return Err(InvalidAccount);
    }
    var lookup := accounts(base.value);
    if lookup.AccountMissing? {
      r := VerifySigners(env, ch, [base.value]);
      return;
    }
    if lookup.LookupBroken? {
      return Err(AccountLookupFailed);
    }

    var account := lookup.account;
    var candidates := SignerList(account);
    var found := VerifySigners(env, ch, candidates);
    if found.Err? {
      return found;
    }
    var weight := AccountSignerWeight(found.value, account.signers, ch.clientDomainKey);
    if weight < account.medThreshold {
      return Err(ThresholdNotMet);
    }
    return found;
  }
}
