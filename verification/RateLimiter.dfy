/**
 internal/httpapi/middleware.go: the per-key token bucket. Times are nanoseconds and token counts are
 multiplied by COST, so that a bucket gains exactly perMinute units a nanosecond and nothing is rounded.
 */
module RateLimiter {
  import opened Prelude

  const MINUTE := 60 * SECOND
  const COST := MINUTE
  const BUCKET_IDLE_TTL := 10 * MINUTE
  const SWEEP_INTERVAL := MINUTE

  datatype Bucket = Bucket(tokens: int, last: int)

  /** lastSweep is None until the first sweep: Go's zero time, which is further back than any interval. */
  datatype State = State(buckets: map<string, Bucket>, lastSweep: Option<int>)

  datatype Request = Request(key: string, time: int)

  const EMPTY := State(map[], None)

  function Burst(rate: nat): int { rate * COST }

  function Get(buckets: map<string, Bucket>, key: string): Option<Bucket> {
    if key in buckets then Some(buckets[key]) else None
  }

  function Refill(rate: nat, b: Bucket, now: int): Bucket {
    var elapsed := now - b.last;
    if elapsed > 0 then
      var more := b.tokens + elapsed * rate;
      Bucket(if more > Burst(rate) then Burst(rate) else more, now)
    else b
  }

  /** The bucket a request at `now` draws on. */
  function Ready(rate: nat, own: Option<Bucket>, now: int): Bucket {
    Refill(rate, if own.Some? then own.value else Bucket(Burst(rate), now), now)
  }

  /** One request against a key's own bucket, a full one when it has none. */
  function Hit(rate: nat, own: Option<Bucket>, now: int): (Bucket, bool) {
    var b := Ready(rate, own, now);
    if b.tokens < COST then (b, false) else (b.(tokens := b.tokens - COST), true)
  }

  function Sweep(s: State, now: int): State {
    if s.lastSweep.Some? && now - s.lastSweep.value < SWEEP_INTERVAL then s
    else State(map key | key in s.buckets && now - s.buckets[key].last <= BUCKET_IDLE_TTL :: s.buckets[key], Some(now))
  }

  function Allow(rate: nat, s: State, r: Request): (State, bool) {
    var swept := Sweep(s, r.time);
    var (b, ok) := Hit(rate, Get(swept.buckets, r.key), r.time);
    (swept.(buckets := swept.buckets[r.key := b]), ok)
  }

  class Limiter {
    const perMinute: nat
    var buckets: map<string, Bucket>
    var lastSweep: Option<int>

    function Contents(): State
      reads this
    {
      State(buckets, lastSweep)
    }

    constructor (perMinute: nat)
      ensures this.perMinute == perMinute && Contents() == EMPTY
    {
      this.perMinute := perMinute;
      buckets := map[];
      lastSweep := None;
    }

    method DoSweep(now: int)
      modifies this
      ensures Contents() == Sweep(old(Contents()), now)
      ensures old(lastSweep).Some? && now - old(lastSweep).value < 60_000_000_000 ==> Contents() == old(Contents())
      ensures old(lastSweep).None? || now - old(lastSweep).value >= 60_000_000_000 ==>
        && lastSweep == Some(now)
        && (forall k :: k in buckets <==> k in old(buckets) && now - old(buckets)[k].last <= 600_000_000_000)
        && (forall k :: k in buckets ==> buckets[k] == old(buckets)[k])
    {
      if lastSweep.Some? && now - lastSweep.value < SWEEP_INTERVAL {
        return;
      }
      lastSweep := Some(now);
      var rest := buckets.Keys;
      while rest != {}
        invariant lastSweep == Some(now)
        invariant rest <= old(buckets).Keys
        invariant buckets == map key | key in old(buckets)
          && (key in rest || now - old(buckets)[key].last <= BUCKET_IDLE_TTL) :: old(buckets)[key]
        decreases |rest|
      {
        var key :| key in rest;
        if now - buckets[key].last > BUCKET_IDLE_TTL {
          buckets := buckets - {key};
        }
        rest := rest - {key};
      }
    }

    method DoAllow(key: string, now: int) returns (ok: bool)
      modifies this
      ensures (Contents(), ok) == Allow(perMinute, old(Contents()), Request(key, now))
    {
      DoSweep(now);
      var b := Bucket(perMinute * COST, now);
      if key in buckets {
        b := buckets[key];
      }
      var elapsed := now - b.last;
      if elapsed > 0 {
        b := b.(tokens := b.tokens + elapsed * perMinute);
        if b.tokens > Burst(perMinute) {
          b := b.(tokens := Burst(perMinute));
        }
        b := b.(last := now);
      }
      if b.tokens < COST {
        buckets := buckets[key := b];
        return false;
      }
      buckets := buckets[key := b.(tokens := b.tokens - COST)];
      return true;
    }
  }

  // ---- Runs ------------------------------------------------------------------------------------

  function After(rate: nat, run: seq<Request>): State {
    if run == [] then EMPTY else Allow(rate, After(rate, run[..|run| - 1]), run[|run| - 1]).0
  }

  /** The decision on the last request of a run. */
  predicate Allowed(rate: nat, run: seq<Request>)
    requires run != []
  {
    Allow(rate, After(rate, run[..|run| - 1]), run[|run| - 1]).1
  }

  /** The times of one key's requests. */
  function Own(run: seq<Request>, key: string): seq<int> {
    if run == [] then []
    else Own(run[..|run| - 1], key) + (if run[|run| - 1].key == key then [run[|run| - 1].time] else [])
  }

  /** The simple limiter: a bucket of the key's own, never dropped. */
  function Kept(rate: nat, times: seq<int>): Option<Bucket> {
    if times == [] then None else Some(Hit(rate, Kept(rate, times[..|times| - 1]), times[|times| - 1]).0)
  }

  predicate KeptAllows(rate: nat, times: seq<int>)
    requires times != []
  {
    Hit(rate, Kept(rate, times[..|times| - 1]), times[|times| - 1]).1
  }

  /** No request is stamped more than this much earlier than one before it. */
  predicate Skew(run: seq<Request>, bound: int) {
    forall i, j :: 0 <= i < j < |run| ==> run[i].time - bound <= run[j].time
  }

  /** A refill takes a minute and an idle bucket lives ten: nine minutes and a nanosecond to spare. */
  const MAX_SKEW := BUCKET_IDLE_TTL - MINUTE + 1

  // ---- Sweeping is invisible -------------------------------------------------------------------

  lemma RateMonotone(rate: nat, a: int, b: int)
    requires a <= b
    ensures a * rate <= b * rate
  {
  }

  lemma HitInRange(rate: nat, own: Option<Bucket>, now: int)
    requires own.Some? ==> 0 <= own.value.tokens <= Burst(rate)
    ensures var b := Hit(rate, own, now).0; 0 <= b.tokens <= Burst(rate) && b.last >= now
  {
    RateMonotone(rate, 0, COST);
    if own.Some? && now - own.value.last > 0 {
      RateMonotone(rate, 0, now - own.value.last);
    }
  }

  lemma {:induction false} KeptInRange(rate: nat, times: seq<int>)
    requires times != []
    ensures 0 <= Kept(rate, times).value.tokens <= Burst(rate)
    ensures Kept(rate, times).value.last >= times[|times| - 1]
  {
    var n := |times| - 1;
    if n > 0 {
      KeptInRange(rate, times[..n]);
    }
    HitInRange(rate, Kept(rate, times[..n]), times[n]);
  }

  /** A bucket idle for a minute is as good as new. */
  lemma IdleIsNew(rate: nat, b: Bucket, now: int)
    requires 0 <= b.tokens && now - b.last >= MINUTE
    ensures Hit(rate, Some(b), now) == Hit(rate, None, now)
  {
    RateMonotone(rate, MINUTE, now - b.last);
  }

  /** One key's bucket in the limiter and in the simple one: equal, or swept and idle long before some request. */
  ghost predicate Tracks(rate: nat, run: seq<Request>, key: string) {
    var held, kept := Get(After(rate, run).buckets, key), Kept(rate, Own(run, key));
    || held == kept
    || (held == None && kept.Some? && IdleSince(run, kept.value.last))
  }

  lemma OwnStep(run: seq<Request>, key: string)
    requires run != []
    ensures var n := |run| - 1; var own := Own(run[..n], key);
      if run[n].key == key then Own(run, key) == own + [run[n].time] && Own(run, key)[..|own|] == own
      else Own(run, key) == own
  {
  }

  ghost predicate IdleSince(run: seq<Request>, last: int) {
    exists i :: 0 <= i < |run| && run[i].time - last > BUCKET_IDLE_TTL
  }

  lemma IdleSinceGrows(run: seq<Request>, last: int)
    requires run != [] && IdleSince(run[..|run| - 1], last)
    ensures IdleSince(run, last)
  {
    var i :| 0 <= i < |run| - 1 && run[..|run| - 1][i].time - last > BUCKET_IDLE_TTL;
    assert run[i].time - last > BUCKET_IDLE_TTL;
  }

  /** What the sweep before the last request leaves of a bucket is the kept one, or that one idle for long. */
  lemma SweptTracks(rate: nat, run: seq<Request>, key: string)
    requires run != [] && Tracks(rate, run[..|run| - 1], key)
    ensures var n := |run| - 1;
      var kept := Kept(rate, Own(run[..n], key));
      var swept := Get(Sweep(After(rate, run[..n]), run[n].time).buckets, key);
      swept == kept || (swept == None && kept.Some? && IdleSince(run, kept.value.last))
  {
    var n := |run| - 1;
    var held, kept := Get(After(rate, run[..n]).buckets, key), Kept(rate, Own(run[..n], key));
    if held == kept {
      if kept.Some? && run[n].time - kept.value.last > BUCKET_IDLE_TTL {
        assert IdleSince(run, kept.value.last);
      }
    } else {
      IdleSinceGrows(run, kept.value.last);
    }
  }

  /** A bucket idle for that long at some request of the run is full again by the last one. */
  lemma SweptHits(rate: nat, run: seq<Request>, key: string)
    requires Skew(run, MAX_SKEW) && run != [] && run[|run| - 1].key == key && Tracks(rate, run[..|run| - 1], key)
    ensures var n := |run| - 1;
      Hit(rate, Get(Sweep(After(rate, run[..n]), run[n].time).buckets, key), run[n].time)
      == Hit(rate, Kept(rate, Own(run[..n], key)), run[n].time)
  {
    var n := |run| - 1;
    SweptTracks(rate, run, key);
    var own := Own(run[..n], key);
    var kept := Kept(rate, own);
    if kept.Some? && IdleSince(run, kept.value.last) {
      var i :| 0 <= i < |run| && run[i].time - kept.value.last > BUCKET_IDLE_TTL;
      assert run[i].time - MAX_SKEW <= run[n].time;
      KeptInRange(rate, own);
      IdleIsNew(rate, kept.value, run[n].time);
    }
  }

  lemma OwnTracks(rate: nat, run: seq<Request>, key: string)
    requires Skew(run, MAX_SKEW) && run != [] && run[|run| - 1].key == key && Tracks(rate, run[..|run| - 1], key)
    ensures Get(After(rate, run).buckets, key) == Kept(rate, Own(run, key))
    ensures Allowed(rate, run) <==> KeptAllows(rate, Own(run, key))
  {
    OwnStep(run, key);
    SweptHits(rate, run, key);
  }

  lemma OtherTracks(rate: nat, run: seq<Request>, key: string)
    requires run != [] && run[|run| - 1].key != key && Tracks(rate, run[..|run| - 1], key)
    ensures Tracks(rate, run, key)
  {
    OwnStep(run, key);
    SweptTracks(rate, run, key);
  }

  lemma {:induction false} AlwaysTracks(rate: nat, run: seq<Request>, key: string)
    requires Skew(run, MAX_SKEW)
    ensures Tracks(rate, run, key)
    ensures run != [] && run[|run| - 1].key == key ==> (Allowed(rate, run) <==> KeptAllows(rate, Own(run, key)))
  {
    if run != [] {
      AlwaysTracks(rate, run[..|run| - 1], key);
      if run[|run| - 1].key == key {
        OwnTracks(rate, run, key);
      } else {
        OtherTracks(rate, run, key);
      }
    }
  }

  /** The last request of the run is decided as by a limiter that forgets nothing and sees that key alone. */
  ghost predicate DecidedAsKept(rate: nat, run: seq<Request>)
    requires run != []
  {
    var own := Own(run, run[|run| - 1].key);
    own != [] && (Allowed(rate, run) <==> KeptAllows(rate, own))
  }

  /** Every decision of the run is that one. */
  ghost predicate Invisible(rate: nat, run: seq<Request>) {
    forall n :: 0 < n <= |run| ==> DecidedAsKept(rate, run[..n])
  }

  lemma LastDecision(rate: nat, run: seq<Request>)
    requires Skew(run, MAX_SKEW) && run != []
    ensures DecidedAsKept(rate, run)
  {
    OwnStep(run, run[|run| - 1].key);
    AlwaysTracks(rate, run, run[|run| - 1].key);
  }

  lemma SkewPrefix(run: seq<Request>, bound: int, n: nat)
    requires Skew(run, bound) && n <= |run|
    ensures Skew(run[..n], bound)
  {
  }

  lemma SweepInvisible(rate: nat, run: seq<Request>)
    requires Skew(run, MAX_SKEW)
    ensures Invisible(rate, run)
  {
    forall n | 0 < n <= |run| ensures DecidedAsKept(rate, run[..n]) {
      SkewPrefix(run, MAX_SKEW, n);
      LastDecision(rate, run[..n]);
    }
  }

  /** So two runs in which a key's own calls have the same times decide its last call alike, whatever else they hold. */
  lemma OtherKeysChangeNothing(rate: nat, run: seq<Request>, run': seq<Request>, key: string)
    requires Skew(run, MAX_SKEW) && Skew(run', MAX_SKEW) && Own(run, key) == Own(run', key)
    requires run != [] && run' != [] && run[|run| - 1].key == key && run'[|run'| - 1].key == key
    ensures Allowed(rate, run) <==> Allowed(rate, run')
  {
    AlwaysTracks(rate, run, key);
    AlwaysTracks(rate, run', key);
  }

  // ---- The token-bucket bound ------------------------------------------------------------------

  /** How many of the key's requests from position `from` on were allowed. */
  function Granted(rate: nat, run: seq<Request>, key: string, from: nat): nat
    decreases |run|
  {
    if |run| <= from then 0
    else
      var n := |run| - 1;
      Granted(rate, run[..n], key, from) + (if run[n].key == key && Allowed(rate, run) then 1 else 0)
  }

  /** Every request of the key from position `from` on falls in the window. */
  predicate Within(run: seq<Request>, key: string, from: nat, s: int, t: int) {
    forall i :: from <= i < |run| && run[i].key == key ==> s <= run[i].time <= t
  }

  function Clamp(x: int, s: int, t: int): int {
    if x < s then s else if x > t then t else x
  }

  /** Tokens spent and left never exceed a full bucket and what the window has refilled. */
  ghost predicate Budget(rate: nat, own: Option<Bucket>, granted: nat, s: int, t: int) {
    match own
    case None => granted == 0
    case Some(b) =>
      && (b.last < s ==> granted == 0)
      && granted * COST + b.tokens <= Burst(rate) + (Clamp(b.last, s, t) - s) * rate
  }

  lemma BudgetKept(rate: nat, own: Option<Bucket>, granted: nat, now: int, s: int, t: int)
    requires Budget(rate, own, granted, s, t) && s <= now <= t
    ensures var (b, ok) := Hit(rate, own, now); Budget(rate, Some(b), granted + (if ok then 1 else 0), s, t)
  {
    RateMonotone(rate, 0, now - s);
    if own.Some? && own.value.last >= s {
      var elapsed := now - own.value.last;
      if elapsed > 0 {
        assert (now - s) * rate == (own.value.last - s) * rate + elapsed * rate;
      }
    }
  }

  lemma BudgetOwn(rate: nat, run: seq<Request>, key: string, granted: nat, s: int, t: int)
    requires Skew(run, MAX_SKEW) && run != [] && run[|run| - 1].key == key && s <= run[|run| - 1].time <= t
    requires Budget(rate, Kept(rate, Own(run[..|run| - 1], key)), granted, s, t)
    ensures Budget(rate, Kept(rate, Own(run, key)), granted + (if Allowed(rate, run) then 1 else 0), s, t)
  {
    AlwaysTracks(rate, run, key);
    OwnStep(run, key);
    BudgetKept(rate, Kept(rate, Own(run[..|run| - 1], key)), granted, run[|run| - 1].time, s, t);
  }

  lemma {:induction false} BudgetHolds(rate: nat, run: seq<Request>, key: string, from: nat, s: int, t: int)
    requires Skew(run, MAX_SKEW) && Within(run, key, from, s, t) && s <= t
    ensures Budget(rate, Kept(rate, Own(run, key)), Granted(rate, run, key, from), s, t)
    decreases |run|
  {
    if |run| <= from {
      if Own(run, key) != [] {
        KeptInRange(rate, Own(run, key));
        RateMonotone(rate, 0, Clamp(Kept(rate, Own(run, key)).value.last, s, t) - s);
      }
    } else {
      var n := |run| - 1;
      BudgetHolds(rate, run[..n], key, from, s, t);
      OwnStep(run, key);
      if run[n].key == key {
        BudgetOwn(rate, run, key, Granted(rate, run[..n], key, from), s, t);
      }
    }
  }

  /** In any window a key is allowed at most a full burst and what the window's length refills, sweeps or not. */
  lemma TokenBucketBound(rate: nat, run: seq<Request>, key: string, from: nat, s: int, t: int)
    requires Skew(run, MAX_SKEW) && Within(run, key, from, s, t) && s <= t
    ensures Granted(rate, run, key, from) * 60_000_000_000 <= rate * 60_000_000_000 + (t - s) * rate
  {
    BudgetHolds(rate, run, key, from, s, t);
    RateMonotone(rate, 0, t - s);
    if Own(run, key) != [] {
      KeptInRange(rate, Own(run, key));
      RateMonotone(rate, Clamp(Kept(rate, Own(run, key)).value.last, s, t) - s, t - s);
    }
  }

  // ---- A patient client ------------------------------------------------------------------------

  /** Successive calls are at least 60/perMinute seconds apart. */
  predicate Spaced(rate: nat, times: seq<int>) {
    forall i :: 0 <= i < |times| - 1 ==> (times[i + 1] - times[i]) * rate >= 60_000_000_000
  }

  lemma {:induction false} SpacedAllowed(rate: nat, times: seq<int>)
    requires rate > 0 && times != [] && Spaced(rate, times)
    ensures KeptAllows(rate, times) && Kept(rate, times).value.last == times[|times| - 1]
  {
    RateMonotone(COST, 1, rate);
    var n := |times| - 1;
    if n > 0 {
      assert times[..n][n - 1] == times[n - 1];
      SpacedAllowed(rate, times[..n]);
      KeptInRange(rate, times[..n]);
      assert (times[n - 1 + 1] - times[n - 1]) * rate >= COST;
      if times[n] - times[n - 1] <= 0 {
        RateMonotone(rate, times[n] - times[n - 1], 0);
      }
    }
  }

  lemma SpacedPrefix(rate: nat, a: seq<int>, b: seq<int>)
    requires a <= b && Spaced(rate, b)
    ensures Spaced(rate, a)
  {
    forall i | 0 <= i < |a| - 1 ensures (a[i + 1] - a[i]) * rate >= COST {
      assert a[i + 1] == b[i + 1] && a[i] == b[i];
    }
  }

  lemma PatientRequest(rate: nat, run: seq<Request>, key: string)
    requires rate > 0 && run != [] && run[|run| - 1].key == key
    requires Skew(run, MAX_SKEW) && Spaced(rate, Own(run, key))
    ensures Allowed(rate, run)
  {
    SpacedAllowed(rate, Own(run, key));
    AlwaysTracks(rate, run, key);
  }

  /** A key whose own calls are spaced is never refused, whatever the other keys do. */
  lemma PatientClientNeverRefused(rate: nat, run: seq<Request>, key: string)
    requires rate > 0 && Skew(run, MAX_SKEW) && Spaced(rate, Own(run, key))
    ensures forall i :: 0 <= i < |run| && run[i].key == key ==> Allowed(rate, run[..i + 1])
  {
    forall i | 0 <= i < |run| && run[i].key == key ensures Allowed(rate, run[..i + 1]) {
      OwnPrefix(run, key, i + 1);
      SpacedPrefix(rate, Own(run[..i + 1], key), Own(run, key));
      PatientRequest(rate, run[..i + 1], key);
    }
  }

  lemma {:induction false} OwnPrefix(run: seq<Request>, key: string, n: nat)
    requires n <= |run|
    ensures Own(run[..n], key) <= Own(run, key)
    decreases |run|
  {
    if n < |run| {
      var m := |run| - 1;
      OwnPrefix(run[..m], key, n);
      assert run[..m][..n] == run[..n];
    } else {
      assert run[..n] == run;
    }
  }
}
