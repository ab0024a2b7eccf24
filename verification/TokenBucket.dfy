/** The limiter is exactly a token bucket: it refuses a call only where allowing it would break the bound. */
module TokenBucket {
  import opened Prelude
  import opened RateLimiter

  /** The key's bucket was full at its request f, and has since gained by time and lost what was granted. */
  ghost predicate FullAt(rate: nat, run: seq<Request>, key: string, b: Bucket, f: int) {
    && 0 <= f < |run| && run[f].key == key
    && b.tokens == Burst(rate) + (b.last - run[f].time) * rate - Granted(rate, run, key, f) * COST
  }

  lemma GrantedStep(rate: nat, run: seq<Request>, key: string, f: nat)
    requires f < |run|
    ensures Granted(rate, run, key, f)
         == Granted(rate, run[..|run| - 1], key, f)
            + (if run[|run| - 1].key == key && Allowed(rate, run) then 1 else 0)
  {
  }

  lemma RateAdds(rate: nat, a: int, b: int)
    ensures a * rate + b * rate == (a + b) * rate
  {
  }

  /** What the refill before a request makes of a bucket full at f: still full at f, or full right now. */
  lemma RefilledFrom(rate: nat, b: Bucket, now: int, since: int, granted: nat)
    requires b.last <= now && b.tokens == Burst(rate) + (b.last - since) * rate - granted * COST
    ensures var c := Refill(rate, b, now);
      && c.last == now
      && (c.tokens == Burst(rate) || c.tokens == Burst(rate) + (now - since) * rate - granted * COST)
  {
    RateAdds(rate, b.last - since, now - b.last);
  }

  /** The last request finds b, which was full at the key's request f. */
  ghost predicate FindsFull(rate: nat, run: seq<Request>, key: string, b: Bucket, f: int)
    requires run != []
  {
    var n := |run| - 1;
    && 0 <= f <= n && run[f].key == key && b.last == run[n].time
    && b.tokens == Burst(rate) + (run[n].time - run[f].time) * rate - Granted(rate, run[..n], key, f) * COST
  }

  lemma FullNow(rate: nat, run: seq<Request>, key: string)
    requires run != [] && run[|run| - 1].key == key
    ensures FindsFull(rate, run, key, Bucket(Burst(rate), run[|run| - 1].time), |run| - 1)
  {
    assert Granted(rate, run[..|run| - 1], key, |run| - 1) == 0;
  }

  lemma FullSince(rate: nat, run: seq<Request>, key: string, own: Bucket, g: int) returns (f: int)
    requires Skew(run, 0) && |run| > 1 && run[|run| - 1].key == key
    requires FullAt(rate, run[..|run| - 1], key, own, g) && own.last <= run[|run| - 2].time
    ensures FindsFull(rate, run, key, Refill(rate, own, run[|run| - 1].time), f)
  {
    var n := |run| - 1;
    assert run[n - 1].time <= run[n].time && run[..n][g] == run[g];
    RefilledFrom(rate, own, run[n].time, run[g].time, Granted(rate, run[..n], key, g));
    FullNow(rate, run, key);
    f := if Refill(rate, own, run[n].time).tokens == Burst(rate) then n else g;
  }

  /** The bucket a request finds, and since when it counts. */
  lemma Finds(rate: nat, run: seq<Request>, key: string) returns (f: int)
    requires Skew(run, 0) && run != [] && run[|run| - 1].key == key
    ensures var n := |run| - 1;
      FindsFull(rate, run, key, Ready(rate, Kept(rate, Own(run[..n], key)), run[n].time), f)
    decreases |run|, 0
  {
    var n := |run| - 1;
    var own := Own(run[..n], key);
    if own == [] {
      f := n;
      FullNow(rate, run, key);
    } else {
      var g := Anchored(rate, run[..n], key);
      f := FullSince(rate, run, key, Kept(rate, own).value, g);
    }
  }

  /** What a call leaves of the bucket it found. */
  lemma HitLeaves(rate: nat, own: Option<Bucket>, now: int)
    ensures var b, (after, ok) := Ready(rate, own, now), Hit(rate, own, now);
      after.last == b.last && after.tokens == b.tokens - (if ok then COST else 0)
  {
  }

  /** The key's own call takes from what it finds exactly when it is allowed. */
  lemma OwnHit(rate: nat, run: seq<Request>, key: string)
    requires Skew(run, 0) && run != [] && run[|run| - 1].key == key
    ensures Own(run, key) != []
    ensures var n := |run| - 1;
      var b, after := Ready(rate, Kept(rate, Own(run[..n], key)), run[n].time), Kept(rate, Own(run, key)).value;
      after.last == b.last && after.tokens == b.tokens - (if Allowed(rate, run) then COST else 0)
  {
    var n := |run| - 1;
    OwnStep(run, key);
    LastDecision(rate, run);
    HitLeaves(rate, Kept(rate, Own(run[..n], key)), run[n].time);
  }

  lemma AnchoredOwn(rate: nat, run: seq<Request>, key: string, f: int)
    requires Skew(run, 0) && run != [] && run[|run| - 1].key == key
    requires var n := |run| - 1;
      FindsFull(rate, run, key, Ready(rate, Kept(rate, Own(run[..n], key)), run[n].time), f)
    ensures Own(run, key) != []
    ensures var b := Kept(rate, Own(run, key)).value; FullAt(rate, run, key, b, f) && b.last == run[|run| - 1].time
  {
    OwnHit(rate, run, key);
    GrantedStep(rate, run, key, f);
  }

  lemma AnchoredOther(rate: nat, run: seq<Request>, key: string, b: Bucket, f: int)
    requires Skew(run, 0) && |run| > 1 && run[|run| - 1].key != key
    requires FullAt(rate, run[..|run| - 1], key, b, f) && b.last <= run[|run| - 2].time
    ensures FullAt(rate, run, key, b, f) && b.last <= run[|run| - 1].time
  {
    GrantedStep(rate, run, key, f);
  }

  lemma Anchored(rate: nat, run: seq<Request>, key: string) returns (f: int)
    requires Skew(run, 0) && Own(run, key) != []
    ensures var b := Kept(rate, Own(run, key)).value; FullAt(rate, run, key, b, f) && b.last <= run[|run| - 1].time
    decreases |run|, 1
  {
    OwnStep(run, key);
    if run[|run| - 1].key == key {
      f := Finds(rate, run, key);
      AnchoredOwn(rate, run, key, f);
    } else {
      f := Anchored(rate, run[..|run| - 1], key);
      AnchoredOther(rate, run, key, Kept(rate, Own(run, key)).value, f);
    }
  }

  /** Allowing the last call would keep the bound in the window that opens at request f. */
  predicate Fits(rate: nat, run: seq<Request>, key: string, f: nat)
    requires f < |run|
  {
    var n := |run| - 1;
    (Granted(rate, run[..n], key, f) + 1) * 60_000_000_000 <= rate * 60_000_000_000 + (run[n].time - run[f].time) * rate
  }

  /**
   Exactly a token bucket of `rate` calls, refilled at `rate` a minute: while time does not go back, a call
   is allowed if and only if, in every window that opens at a call of the same key, the calls allowed and
   this one stay within a full bucket and what the window refills.
   */
  lemma TokenBucketExact(rate: nat, run: seq<Request>)
    requires Skew(run, 0) && run != []
    ensures var key := run[|run| - 1].key;
      Allowed(rate, run) <==> forall f :: 0 <= f < |run| && run[f].key == key ==> Fits(rate, run, key, f)
  {
    var n := |run| - 1;
    var key := run[n].key;
    LastDecision(rate, run);
    OwnStep(run, key);
    if Allowed(rate, run) {
      forall f | 0 <= f < |run| && run[f].key == key ensures Fits(rate, run, key, f) {
        GrantedStep(rate, run, key, f);
        TokenBucketBound(rate, run, key, f, run[f].time, run[n].time);
      }
    } else {
      var f := Finds(rate, run, key);
      assert !Fits(rate, run, key, f);
    }
  }
}
