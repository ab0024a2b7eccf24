/** internal/auth/signatures.go: pairing each signature with at most one signer. */
module Signatures {
  import opened Prelude
  import opened Txn

  datatype Pair = Pair(key: Address, index: nat)

  function Used(pairs: seq<Pair>): set<nat> {
    if pairs == [] then {} else Used(pairs[..|pairs| - 1]) + {pairs[|pairs| - 1].index}
  }

  /** The first signature at or after `from` that no earlier signer took and this key accepts. */
  function FirstFree(env: Env, h: string, key: Address, sigs: seq<Signature>, used: set<nat>,
                     from: nat): (r: Option<nat>)
    requires from <= |sigs|
    ensures r.Some? ==>
      && from <= r.value < |sigs| && r.value !in used && Accepts(env, h, key, sigs[r.value])
      && (forall i: nat :: from <= i < r.value ==> i in used || !Accepts(env, h, key, sigs[i]))
    ensures r.None? ==> forall i: nat :: from <= i < |sigs| ==> i in used || !Accepts(env, h, key, sigs[i])
    decreases |sigs| - from
  {
    if from == |sigs| then None
    else if from !in used && Accepts(env, h, key, sigs[from]) then Some(from)
    else FirstFree(env, h, key, sigs, used, from + 1)
  }

  /** The pairing after one more signer: it takes its first free signature, if there is one. */
  function PairedWith(env: Env, h: string, signer: Address, sigs: seq<Signature>, prev: seq<Pair>): seq<Pair> {
    match FirstFree(env, h, signer, sigs, Used(prev), 0)
    case None => prev
    case Some(i) => prev + [Pair(signer, i)]
  }

  /** The greedy pairing of the first n signers, one by one. */
  function PairsTo(env: Env, h: string, signers: seq<Address>, sigs: seq<Signature>, n: nat): seq<Pair>
    requires n <= |signers|
  {
    if n == 0 then [] else PairedWith(env, h, signers[n - 1], sigs, PairsTo(env, h, signers, sigs, n - 1))
  }

  function Pairs(env: Env, h: string, signers: seq<Address>, sigs: seq<Signature>): seq<Pair> {
    PairsTo(env, h, signers, sigs, |signers|)
  }

  /** The paired signers, each named once, in the order they were paired. */
  function Names(pairs: seq<Pair>): seq<Address> {
    if pairs == [] then []
    else
      var prev := Names(pairs[..|pairs| - 1]);
      var key := pairs[|pairs| - 1].key;
      if key in prev then prev else prev + [key]
  }

  function Found(env: Env, tx: Transaction, signers: seq<Address>): seq<Address> {
    Names(Pairs(env, env.hash(tx.body), signers, tx.signatures))
  }

  predicate AllParse(env: Env, signers: seq<Address>) {
    forall k :: k in signers ==> env.isEd25519(k)
  }

  function Matched(env: Env, tx: Transaction, signers: seq<Address>): Result<seq<Address>, AuthError> {
    if AllParse(env, signers) then Ok(Found(env, tx, signers)) else Err(SignatureUnrecognized)
  }

  /** What one more pair changes. */
  lemma OneMorePair(pairs: seq<Pair>, p: Pair)
    ensures Used(pairs + [p]) == Used(pairs) + {p.index}
    ensures Names(pairs + [p]) == if p.key in Names(pairs) then Names(pairs) else Names(pairs) + [p.key]
    ensures Elems(Names(pairs) + [p.key]) == Elems(Names(pairs)) + {p.key}
  {
    assert (pairs + [p])[..|pairs|] == pairs;
  }

  /** The inner loop: the signature the signer takes. */
  method TakeSignature(env: Env, h: string, signer: Address, sigs: seq<Signature>, used: set<nat>)
    returns (taken: Option<nat>)
    ensures taken == FirstFree(env, h, signer, sigs, used, 0)
  {
    var i := 0;
    while i < |sigs|
      invariant 0 <= i <= |sigs|
      invariant FirstFree(env, h, signer, sigs, used, 0) == FirstFree(env, h, signer, sigs, used, i)
    {
      if i !in used && sigs[i].hint == env.hint(signer) && env.verifies(signer, h, sigs[i].bytes) {
        return Some(i);
      }
      i := i + 1;
    }
    return None;
  }

  /** One turn of the outer loop: the signer is paired, or passed over. */
  method MatchOne(env: Env, h: string, signer: Address, sigs: seq<Signature>,
                  used: set<nat>, found: seq<Address>, seen: set<Address>, ghost pairs: seq<Pair>)
    returns (used': set<nat>, found': seq<Address>, seen': set<Address>, ghost pairs': seq<Pair>)
    requires used == Used(pairs) && found == Names(pairs) && seen == Elems(found)
    ensures pairs' == PairedWith(env, h, signer, sigs, pairs)
    ensures used' == Used(pairs') && found' == Names(pairs') && seen' == Elems(found')
  {
    used', found', seen', pairs' := used, found, seen, pairs;
    var taken := TakeSignature(env, h, signer, sigs, used);
    if taken.Some? {
      OneMorePair(pairs, Pair(signer, taken.value));
      used' := used + {taken.value};
      pairs' := pairs + [Pair(signer, taken.value)];
      if signer !in seen {
        seen' := seen + {signer};
        found' := found + [signer];
      }
    }
  }

  method MatchSigners(env: Env, tx: Transaction, signers: seq<Address>)
    returns (r: Result<seq<Address>, AuthError>)
    ensures r == Matched(env, tx, signers)
    ensures r.Err? <==> exists k :: k in signers && !env.isEd25519(k)
    ensures r.Err? ==> r.error == SignatureUnrecognized
  {
    var h := env.hash(tx.body);
    var sigs := tx.signatures;
    var used: set<nat> := {};
    var found: seq<Address> := [];
    var seen: set<Address> := {};

    ghost var pairs: seq<Pair> := [];
    for n := 0 to |signers|
      invariant forall i :: 0 <= i < n ==> env.isEd25519(signers[i])
      invariant pairs == PairsTo(env, h, signers, sigs, n)
      invariant used == Used(pairs) && found == Names(pairs) && seen == Elems(found)
    {
      if !env.isEd25519(signers[n]) {
        return Err(SignatureUnrecognized);
      }
      used, found, seen, pairs := MatchOne(env, h, signers[n], sigs, used, found, seen, pairs);
    }
    return Ok(found);
  }

  // ---- What the pairing guarantees -------------------------------------------------------------

  /** Every pair is a real acceptance, its signer was offered, and no signature is used twice. */
  ghost predicate Sound(env: Env, h: string, signers: seq<Address>, sigs: seq<Signature>, pairs: seq<Pair>) {
    && (forall p :: p in pairs ==> p.key in signers && p.index < |sigs| && Accepts(env, h, p.key, sigs[p.index]))
    && (forall i, j :: 0 <= i < j < |pairs| ==> pairs[i].index != pairs[j].index)
  }

  lemma PairedWithSound(env: Env, h: string, signers: seq<Address>, sigs: seq<Signature>, signer: Address,
                        prev: seq<Pair>)
    requires signer in signers && Sound(env, h, signers, sigs, prev)
    ensures Sound(env, h, signers, sigs, PairedWith(env, h, signer, sigs, prev))
  {
    var taken := FirstFree(env, h, signer, sigs, Used(prev), 0);
    if taken.Some? {
      UsedExact(prev, taken.value);
    }
  }

  lemma {:induction false} PairsToSound(env: Env, h: string, signers: seq<Address>, sigs: seq<Signature>, n: nat)
    requires n <= |signers|
    ensures Sound(env, h, signers, sigs, PairsTo(env, h, signers, sigs, n))
  {
    if n > 0 {
      PairsToSound(env, h, signers, sigs, n - 1);
      PairedWithSound(env, h, signers, sigs, signers[n - 1], PairsTo(env, h, signers, sigs, n - 1));
    }
  }

  lemma PairsSound(env: Env, h: string, signers: seq<Address>, sigs: seq<Signature>)
    ensures Sound(env, h, signers, sigs, Pairs(env, h, signers, sigs))
  {
    PairsToSound(env, h, signers, sigs, |signers|);
  }

  lemma PairedWithGrows(env: Env, h: string, signer: Address, sigs: seq<Signature>, prev: seq<Pair>, i: nat)
    requires i < |sigs|
    ensures var next := PairedWith(env, h, signer, sigs, prev);
      && (forall k :: k in Names(prev) ==> k in Names(next))
      && Used(prev) <= Used(next)
      && (Accepts(env, h, signer, sigs[i]) ==> signer in Names(next) || i in Used(next))
  {
    var taken := FirstFree(env, h, signer, sigs, Used(prev), 0);
    if taken.Some? {
      OneMorePair(prev, Pair(signer, taken.value));
    }
  }

  lemma {:induction false} PairsToMaximal(env: Env, h: string, signers: seq<Address>, sigs: seq<Signature>, n: nat,
                                          j: nat, i: nat)
    requires j < n <= |signers| && i < |sigs| && Accepts(env, h, signers[j], sigs[i])
    ensures var pairs := PairsTo(env, h, signers, sigs, n); signers[j] in Names(pairs) || i in Used(pairs)
  {
    if j < n - 1 {
      PairsToMaximal(env, h, signers, sigs, n - 1, j, i);
    }
    var prev := PairsTo(env, h, signers, sigs, n - 1);
    assert PairsTo(env, h, signers, sigs, n) == PairedWith(env, h, signers[n - 1], sigs, prev);
    PairedWithGrows(env, h, signers[n - 1], sigs, prev, i);
  }

  /** Maximal: a signer left out accepts no signature that is still free at the end. */
  lemma PairsMaximal(env: Env, h: string, signers: seq<Address>, sigs: seq<Signature>, key: Address, i: nat)
    requires key in signers && i < |sigs| && Accepts(env, h, key, sigs[i])
    ensures key in Names(Pairs(env, h, signers, sigs)) || i in Used(Pairs(env, h, signers, sigs))
  {
    var j: nat :| j < |signers| && signers[j] == key;
    PairsToMaximal(env, h, signers, sigs, |signers|, j, i);
  }

  lemma {:induction false} NamesNoDup(pairs: seq<Pair>)
    ensures NoDup(Names(pairs))
  {
    if pairs != [] { NamesNoDup(pairs[..|pairs| - 1]); }
  }

  lemma {:induction false} UsedExact(pairs: seq<Pair>, i: nat)
    ensures i in Used(pairs) <==> exists j :: 0 <= j < |pairs| && pairs[j].index == i
  {
    if pairs != [] {
      var n := |pairs| - 1;
      UsedExact(pairs[..n], i);
      if i in Used(pairs[..n]) {
        var j :| 0 <= j < n && pairs[..n][j].index == i;
        assert pairs[j].index == i;
      }
      if j :| 0 <= j < n && pairs[j].index == i {
        assert pairs[..n][j].index == i;
      }
    }
  }

  lemma {:induction false} SubsequenceEmpty(b: seq<Address>)
    ensures Subsequence([], b)
  {
    if b != [] { SubsequenceEmpty(b[..|b| - 1]); }
  }

  lemma {:induction false} FoundIsSubsequence(env: Env, h: string, signers: seq<Address>, sigs: seq<Signature>, n: nat)
    requires n <= |signers|
    ensures Subsequence(Names(PairsTo(env, h, signers, sigs, n)), signers[..n])
  {
    if n > 0 {
      FoundIsSubsequence(env, h, signers, sigs, n - 1);
      var prev := PairsTo(env, h, signers, sigs, n - 1);
      var taken := FirstFree(env, h, signers[n - 1], sigs, Used(prev), 0);
      assert signers[..n][..n - 1] == signers[..n - 1];
      if taken.Some? {
        OneMorePair(prev, Pair(signers[n - 1], taken.value));
        assert (Names(prev) + [signers[n - 1]])[..|Names(prev)|] == Names(prev);
      }
    }
  }

  /**
   The matcher on any input: a duplicate-free subsequence of the signers, with a distinct accepted
   signature for each signer found, and no signer left out that a spare signature would have served.
   */
  lemma FoundIsInjectiveMaximal(env: Env, tx: Transaction, signers: seq<Address>)
    returns (at: seq<nat>)
    ensures var found := Found(env, tx, signers);
      && NoDup(found) && Subsequence(found, signers)
      && |at| == |found| && NoDup(at)
      && (forall j :: 0 <= j < |found| ==>
            && at[j] < |tx.signatures| && tx.signatures[at[j]].hint == env.hint(found[j])
            && env.verifies(found[j], env.hash(tx.body), tx.signatures[at[j]].bytes))
      && (forall key, i: nat ::
            && key in signers && key !in found && i < |tx.signatures|
            && Accepts(env, env.hash(tx.body), key, tx.signatures[i])
            ==> i in Used(Pairs(env, env.hash(tx.body), signers, tx.signatures)))
  {
    var h, sigs := env.hash(tx.body), tx.signatures;
    var pairs := Pairs(env, h, signers, sigs);
    PairsSound(env, h, signers, sigs);
    NamesNoDup(pairs);
    FoundIsSubsequence(env, h, signers, sigs, |signers|);
    assert signers[..|signers|] == signers;
    at := FirstIndices(env, h, signers, sigs, pairs);
    forall key, i: nat | key in signers && key !in Names(pairs) && i < |sigs| && Accepts(env, h, key, sigs[i])
      ensures i in Used(pairs)
    {
      PairsMaximal(env, h, signers, sigs, key, i);
    }
  }

  /** The signature each named signer was first paired with. */
  lemma {:induction false} FirstIndices(env: Env, h: string, signers: seq<Address>, sigs: seq<Signature>,
                                        pairs: seq<Pair>)
    returns (at: seq<nat>)
    requires Sound(env, h, signers, sigs, pairs)
    ensures |at| == |Names(pairs)| && NoDup(at)
    ensures forall j :: 0 <= j < |at| ==>
      at[j] in Used(pairs) && at[j] < |sigs| && Accepts(env, h, Names(pairs)[j], sigs[at[j]])
  {
    if pairs == [] {
      at := [];
    } else {
      var n := |pairs| - 1;
      at := FirstIndices(env, h, signers, sigs, pairs[..n]);
      UsedExact(pairs[..n], pairs[n].index);
      assert pairs[n] in pairs;
      if pairs[n].key !in Names(pairs[..n]) {
        at := at + [pairs[n].index];
      }
    }
  }

  // ---- When the order cannot matter ------------------------------------------------------------

  /** No signature on the transaction is accepted by two of the keys. */
  ghost predicate Unambiguous(env: Env, tx: Transaction, keys: set<Address>) {
    forall a, b, i ::
      (&& a in keys && b in keys && 0 <= i < |tx.signatures|
       && Accepts(env, env.hash(tx.body), a, tx.signatures[i])
       && Accepts(env, env.hash(tx.body), b, tx.signatures[i]))
      ==> a == b
  }

  /**
   When no signature answers to two signers, exactly the signers that signed are found, whatever the
   order of the signers or of the signatures.
   */
  lemma FoundAreThoseWhoSigned(env: Env, tx: Transaction, signers: seq<Address>)
    requires Unambiguous(env, tx, Elems(signers))
    ensures Elems(Found(env, tx, signers)) == set k | k in signers && Signed(env, tx, k)
    ensures NoDup(Found(env, tx, signers))
    ensures forall k :: k in Found(env, tx, signers) <==> k in signers && exists i ::
      && 0 <= i < |tx.signatures| && tx.signatures[i].hint == env.hint(k)
      && env.verifies(k, env.hash(tx.body), tx.signatures[i].bytes)
  {
    var h, sigs := env.hash(tx.body), tx.signatures;
    var pairs := Pairs(env, h, signers, sigs);
    PairsSound(env, h, signers, sigs);
    NamesNoDup(pairs);
    var at := FirstIndices(env, h, signers, sigs, pairs);
    forall k | k in signers && Signed(env, tx, k) ensures k in Names(pairs) {
      var i: nat :| i < |sigs| && Accepts(env, h, k, sigs[i]);
      PairsMaximal(env, h, signers, sigs, k, i);
      if i in Used(pairs) {
        UsedExact(pairs, i);
        var j :| 0 <= j < |pairs| && pairs[j].index == i;
        assert pairs[j] in pairs;
        assert pairs[j].key in Elems(signers) && k in Elems(signers);
        NamesHave(pairs, j);
      }
    }
    forall k | k in Names(pairs) ensures k in signers && Signed(env, tx, k) {
      var j :| 0 <= j < |Names(pairs)| && Names(pairs)[j] == k;
      assert Accepts(env, h, k, sigs[at[j]]);
      NamesFrom(pairs, k);
    }
  }

  lemma {:induction false} NamesHave(pairs: seq<Pair>, j: nat)
    requires j < |pairs|
    ensures pairs[j].key in Names(pairs)
  {
    if j < |pairs| - 1 { NamesHave(pairs[..|pairs| - 1], j); }
  }

  lemma {:induction false} NamesFrom(pairs: seq<Pair>, k: Address)
    requires k in Names(pairs)
    ensures exists p :: p in pairs && p.key == k
  {
    var n := |pairs| - 1;
    if k in Names(pairs[..n]) {
      NamesFrom(pairs[..n], k);
    } else {
      assert pairs[n] in pairs;
    }
  }

  lemma SignedAmong(env: Env, body: Body, sigs: seq<Signature>, sigs': seq<Signature>, k: Address)
    requires Elems(sigs) <= Elems(sigs') && Signed(env, Transaction(body, sigs), k)
    ensures Signed(env, Transaction(body, sigs'), k)
  {
    var i :| 0 <= i < |sigs| && Accepts(env, env.hash(body), k, sigs[i]);
    assert sigs[i] in Elems(sigs');
    var j :| 0 <= j < |sigs'| && sigs'[j] == sigs[i];
    assert Accepts(env, env.hash(body), k, Transaction(body, sigs').signatures[j]);
  }

  lemma UnambiguousIgnoresOrder(env: Env, body: Body, keys: set<Address>, sigs: seq<Signature>, sigs': seq<Signature>)
    requires Elems(sigs') <= Elems(sigs) && Unambiguous(env, Transaction(body, sigs), keys)
    ensures Unambiguous(env, Transaction(body, sigs'), keys)
  {
    forall i | 0 <= i < |sigs'| ensures exists j :: 0 <= j < |sigs| && sigs[j] == sigs'[i] {
      assert sigs'[i] in Elems(sigs);
    }
  }

  lemma FoundIgnoresOrder(env: Env, body: Body, signers: seq<Address>, signers': seq<Address>,
                          sigs: seq<Signature>, sigs': seq<Signature>)
    requires Elems(signers) == Elems(signers') && Elems(sigs) == Elems(sigs')
    requires Unambiguous(env, Transaction(body, sigs), Elems(signers))
    ensures Elems(Found(env, Transaction(body, sigs), signers)) == Elems(Found(env, Transaction(body, sigs'), signers'))
    ensures |Found(env, Transaction(body, sigs), signers)| == |Found(env, Transaction(body, sigs'), signers')|
  {
    var tx, tx', h := Transaction(body, sigs), Transaction(body, sigs'), env.hash(body);
    UnambiguousIgnoresOrder(env, body, Elems(signers), sigs, sigs');
    forall k ensures Signed(env, tx, k) == Signed(env, tx', k) {
      if Signed(env, tx, k) { SignedAmong(env, body, sigs, sigs', k); }
      if Signed(env, tx', k) { SignedAmong(env, body, sigs', sigs, k); }
    }
    FoundAreThoseWhoSigned(env, tx, signers);
    FoundAreThoseWhoSigned(env, tx', signers');
    forall k ensures k in signers <==> k in signers' {
      assert k in Elems(signers) <==> k in Elems(signers');
    }
    SameElemsSameLength(Found(env, tx, signers), Found(env, tx', signers'));
  }

  lemma TwoPairs(env: Env, h: string, x: Address, y: Address, sigs: seq<Signature>)
    ensures Pairs(env, h, [x, y], sigs) == PairedWith(env, h, y, sigs, PairedWith(env, h, x, sigs, []))
  {
    assert PairsTo(env, h, [x, y], sigs, 0) == [];
    assert PairsTo(env, h, [x, y], sigs, 1) == PairedWith(env, h, x, sigs, []);
  }

  lemma FirstFreeIs(env: Env, h: string, key: Address, sigs: seq<Signature>, used: set<nat>, i: nat)
    requires i < |sigs| && i !in used && Accepts(env, h, key, sigs[i])
    requires forall j: nat :: j < i ==> j in used || !Accepts(env, h, key, sigs[j])
    ensures FirstFree(env, h, key, sigs, used, 0) == Some(i)
  {
    var taken := FirstFree(env, h, key, sigs, used, 0);
    assert taken.Some? && taken.value == i;
  }

  lemma PairedWithIs(env: Env, h: string, key: Address, sigs: seq<Signature>, prev: seq<Pair>, i: nat)
    requires i < |sigs| && i !in Used(prev) && Accepts(env, h, key, sigs[i])
    requires forall j: nat :: j < i ==> j in Used(prev) || !Accepts(env, h, key, sigs[j])
    ensures PairedWith(env, h, key, sigs, prev) == prev + [Pair(key, i)]
  {
    FirstFreeIs(env, h, key, sigs, Used(prev), i);
  }

  /** With a signature both keys accept before one only `a` accepts, `a` first leaves nothing for `b`. */
  lemma SharedTakenFirst(env: Env, h: string, a: Address, b: Address, shared: Signature, own: Signature)
    requires Accepts(env, h, a, shared) && !Accepts(env, h, b, own)
    ensures Pairs(env, h, [a, b], [shared, own]) == [Pair(a, 0)]
  {
    var sigs, one := [shared, own], [Pair(a, 0)];
    TwoPairs(env, h, a, b, sigs);
    PairedWithIs(env, h, a, sigs, [], 0);
    assert [] + one == one;
    OneMorePair([], Pair(a, 0));
    assert Used(one) == {0};
    var taken := FirstFree(env, h, b, sigs, Used(one), 0);
    assert taken.None?;
  }

  lemma SharedTakenLast(env: Env, h: string, a: Address, b: Address, shared: Signature, own: Signature)
    requires Accepts(env, h, b, shared) && Accepts(env, h, a, own)
    ensures Pairs(env, h, [b, a], [shared, own]) == [Pair(b, 0), Pair(a, 1)]
  {
    var sigs, one := [shared, own], [Pair(b, 0)];
    TwoPairs(env, h, b, a, sigs);
    PairedWithIs(env, h, b, sigs, [], 0);
    assert [] + one == one;
    OneMorePair([], Pair(b, 0));
    assert Used(one) == {0};
    PairedWithIs(env, h, a, sigs, one, 1);
  }

  /** Without that hypothesis the order does matter. */
  lemma OrderMattersWhenAmbiguous(env: Env, body: Body, a: Address, b: Address, shared: Signature, own: Signature)
    requires Accepts(env, env.hash(body), a, shared) && Accepts(env, env.hash(body), b, shared)
    requires Accepts(env, env.hash(body), a, own) && !Accepts(env, env.hash(body), b, own)
    ensures Found(env, Transaction(body, [shared, own]), [a, b]) == [a]
    ensures Found(env, Transaction(body, [shared, own]), [b, a]) == [b, a]
  {
    SharedTakenFirst(env, env.hash(body), a, b, shared, own);
    SharedTakenLast(env, env.hash(body), a, b, shared, own);
    OneMorePair([], Pair(a, 0));
    OneMorePair([], Pair(b, 0));
    OneMorePair([Pair(b, 0)], Pair(a, 1));
    assert [] + [Pair(a, 0)] == [Pair(a, 0)] && [] + [Pair(b, 0)] == [Pair(b, 0)];
    assert [Pair(b, 0)] + [Pair(a, 1)] == [Pair(b, 0), Pair(a, 1)];
  }

  /** Some signature verifies under the key, whatever its hint says. */
  predicate Verified(env: Env, tx: Transaction, key: Address) {
    exists i :: 0 <= i < |tx.signatures| && env.verifies(key, env.hash(tx.body), tx.signatures[i].bytes)
  }

  /** With honest hints, the hint test decides nothing that the signature test would not. */
  lemma HintsChangeNothing(env: Env, tx: Transaction, signers: seq<Address>)
    requires forall k, i ::
      (k in signers && 0 <= i < |tx.signatures| && env.verifies(k, env.hash(tx.body), tx.signatures[i].bytes))
      ==> tx.signatures[i].hint == env.hint(k)
    requires Unambiguous(env, tx, Elems(signers))
    ensures Elems(Found(env, tx, signers)) == set k | k in signers && Verified(env, tx, k)
  {
    FoundAreThoseWhoSigned(env, tx, signers);
    forall k | k in signers ensures Signed(env, tx, k) <==> Verified(env, tx, k) {
      if i :| 0 <= i < |tx.signatures| && env.verifies(k, env.hash(tx.body), tx.signatures[i].bytes) {
        assert Accepts(env, env.hash(tx.body), k, tx.signatures[i]);
      }
    }
  }
}
