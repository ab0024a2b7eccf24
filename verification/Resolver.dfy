/** internal/clientdomain/resolver.go: the cache of client domains' signing keys. Times are nanoseconds. */
module Resolver {
  import opened Prelude

  const MAX_CACHE_ENTRIES := 1024

  datatype Entry = Entry(signingKey: string, expiresAt: int)

  type Cache = map<string, Entry>

  datatype ResolveError = EmptyDomain | NotAllowed | FetchFailed

  /** One bounded HTTPS request for a domain's stellar.toml. */
  type Fetch = string -> Result<string, ResolveError>

  function Live(cache: Cache, now: int): Cache {
    map domain | domain in cache && now < cache[domain].expiresAt :: cache[domain]
  }

  function Store(cache: Cache, ttl: int, domain: string, key: string, now: int): Cache {
    var live := Live(cache, now);
    if |live| >= MAX_CACHE_ENTRIES then live else live[domain := Entry(key, now + ttl)]
  }

  function Cached(cache: Cache, domain: string, now: int): Option<string> {
    if domain in cache && now < cache[domain].expiresAt then Some(cache[domain].signingKey) else None
  }

  predicate Permitted(allowlist: set<string>, domain: string) {
    domain != "" && (allowlist == {} || domain in allowlist)
  }

  /** The resolver without its cache. */
  function Uncached(allowlist: set<string>, domain: string, fetch: Fetch): Result<string, ResolveError> {
    if domain == "" then Err(EmptyDomain)
    else if !Permitted(allowlist, domain) then Err(NotAllowed)
    else fetch(domain)
  }

  class Resolver {
    const allowlist: set<string>
    const ttl: int
    var cache: Cache

    constructor (allowed: seq<string>, ttl: int)
      ensures allowlist == Elems(allowed) && this.ttl == ttl && cache == map[]
    {
      var listed: set<string> := {};
      for i := 0 to |allowed|
        invariant listed == Elems(allowed[..i])
      {
        assert allowed[..i + 1] == allowed[..i] + [allowed[i]];
        listed := listed + {allowed[i]};
      }
      assert allowed[..|allowed|] == allowed;
      allowlist := listed;
      this.ttl := ttl;
      cache := map[];
    }

    method Lookup(domain: string, now: int) returns (key: Option<string>)
      ensures key == Cached(cache, domain, now)
      ensures key == if domain in cache && now < cache[domain].expiresAt then Some(cache[domain].signingKey) else None
    {
      if domain !in cache || !(now < cache[domain].expiresAt) {
        return None;
      }
      return Some(cache[domain].signingKey);
    }

    method Save(domain: string, key: string, now: int)
      modifies this
      ensures cache == Store(old(cache), ttl, domain, key, now)
      ensures forall d :: d != domain ==> (d in cache <==> d in old(cache) && now < old(cache)[d].expiresAt)
      ensures forall d :: d != domain && d in cache ==> cache[d] == old(cache)[d]
      ensures |Live(old(cache), now)| < 1024 ==> domain in cache && cache[domain] == Entry(key, now + ttl)
      ensures |Live(old(cache), now)| >= 1024 ==> cache == Live(old(cache), now)
    {
      var rest := cache.Keys;
      while rest != {}
        invariant rest <= old(cache).Keys
        invariant cache == map d | d in old(cache) && (d in rest || now < old(cache)[d].expiresAt) :: old(cache)[d]
        decreases |rest|
      {
        var d :| d in rest;
        if !(now < cache[d].expiresAt) {
          cache := cache - {d};
        }
        rest := rest - {d};
      }
      assert cache == Live(old(cache), now);
      if |cache| >= MAX_CACHE_ENTRIES {
        return;
      }
      cache := cache[domain := Entry(key, now + ttl)];
    }

    /** now is read by the lookup, later by the store once the fetch has come back. */
    method Resolve(domain: string, fetch: Fetch, now: int, later: int) returns (r: Result<string, ResolveError>)
      modifies this
      ensures r == Answer(allowlist, old(cache), domain, fetch, now)
      ensures cache == Refreshed(allowlist, old(cache), ttl, domain, fetch, now, later)
    {
      if domain == "" {
        return Err(EmptyDomain);
      }
      if |allowlist| > 0 && domain !in allowlist {
        return Err(NotAllowed);
      }
      var hit := Lookup(domain, now);
      if hit.Some? {
        return Ok(hit.value);
      }
      r := fetch(domain);
      if r.Err? {
        return;
      }
      Save(domain, r.value, later);
    }
  }

  /** What Resolve answers, given the cache its lookup saw. */
  function Answer(allowlist: set<string>, cache: Cache, domain: string, fetch: Fetch, now: int): Result<string,
                  ResolveError> {
    if Permitted(allowlist, domain) && Cached(cache, domain, now).Some? then Ok(Cached(cache, domain, now).value)
    else Uncached(allowlist, domain, fetch)
  }

  /** What it leaves in the cache: a miss on a permitted domain that publishes a key is stored. */
  function Refreshed(allowlist: set<string>, cache: Cache, ttl: int, domain: string, fetch: Fetch, now: int,
                     later: int): Cache {
    if Permitted(allowlist, domain) && Cached(cache, domain, now).None? && fetch(domain).Ok?
    then Store(cache, ttl, domain, fetch(domain).value, later)
    else cache
  }

  /**
   Who is asked what: an empty domain, or one missing from a list that is not empty, is refused before any
   fetch and leaves the cache alone; with no list, or on it, what is not cached is fetched.
   */
  lemma AllowlistDecides(allowlist: set<string>, cache: Cache, ttl: int, domain: string, fetch: Fetch,
                         now: int, later: int)
    ensures domain == "" ==> Answer(allowlist, cache, domain, fetch, now) == Err(EmptyDomain)
    ensures domain != "" && allowlist != {} && domain !in allowlist ==>
      Answer(allowlist, cache, domain, fetch, now) == Err(NotAllowed)
    ensures domain == "" || (allowlist != {} && domain !in allowlist) ==>
      Refreshed(allowlist, cache, ttl, domain, fetch, now, later) == cache
    ensures domain != "" && (allowlist == {} || domain in allowlist) ==>
      if domain in cache && now < cache[domain].expiresAt then
        && Answer(allowlist, cache, domain, fetch, now) == Ok(cache[domain].signingKey)
        && Refreshed(allowlist, cache, ttl, domain, fetch, now, later) == cache
      else
        && Answer(allowlist, cache, domain, fetch, now) == fetch(domain)
        && (fetch(domain).Err? ==> Refreshed(allowlist, cache, ttl, domain, fetch, now, later) == cache)
  {
  }

  // ---- Interleaved calls -----------------------------------------------------------------------

  datatype Config = Config(allowlist: set<string>, ttl: int)

  type CallId = nat

  /** A call of Resolve: fetching, about to store what it fetched, or done. */
  datatype Call =
    | Waiting(domain: string)
    | Holding(domain: string, key: string)
    | Returned(domain: string, r: Result<string, ResolveError>)

  datatype State = State(cache: Cache, calls: map<CallId, Call>)

  /** Calls interleave freely between their lookup, the end of their fetch and their store. */
  datatype Event =
    | Look(call: CallId, domain: string, time: int)
    | Fetched(call: CallId, reply: Result<string, ResolveError>, time: int)
    | Save(call: CallId, time: int)

  function Looked(cfg: Config, cache: Cache, domain: string, now: int): Call {
    if domain == "" then Returned(domain, Err(EmptyDomain))
    else if !Permitted(cfg.allowlist, domain) then Returned(domain, Err(NotAllowed))
    else match Cached(cache, domain, now)
      case Some(key) => Returned(domain, Ok(key))
      case None => Waiting(domain)
  }

  /** An event that does not fit where its call stands changes nothing. */
  function Step(cfg: Config, s: State, e: Event): State {
    match e
    case Look(call, domain, now) =>
      if call in s.calls then s else s.(calls := s.calls[call := Looked(cfg, s.cache, domain, now)])
    case Fetched(call, reply, _) =>
      if call !in s.calls || !s.calls[call].Waiting? then s
      else s.(calls := s.calls[call := if reply.Ok? then Holding(s.calls[call].domain, reply.value)
                                       else Returned(s.calls[call].domain, reply)])
    case Save(call, now) =>
      if call !in s.calls || !s.calls[call].Holding? then s
      else
        var c := s.calls[call];
        State(Store(s.cache, cfg.ttl, c.domain, c.key, now), s.calls[call := Returned(c.domain, Ok(c.key))])
  }

  function After(cfg: Config, run: seq<Event>): State {
    if run == [] then State(map[], map[]) else Step(cfg, After(cfg, run[..|run| - 1]), run[|run| - 1])
  }

  lemma AfterStep(cfg: Config, run: seq<Event>, e: Event)
    ensures After(cfg, run + [e]) == Step(cfg, After(cfg, run), e)
  {
    assert (run + [e])[..|run|] == run;
  }

  /** One call with nothing in between is the method Resolve. */
  lemma ResolveIsARun(cfg: Config, run: seq<Event>, call: CallId, domain: string, fetch: Fetch, now: int, done: int,
                      later: int)
    requires call !in After(cfg, run).calls
    ensures var cache := After(cfg, run).cache;
      var s := After(cfg, run + [Look(call, domain, now)] + [Fetched(call, fetch(domain), done)] + [Save(call, later)]);
      && call in s.calls && s.calls[call] == Returned(domain, Answer(cfg.allowlist, cache, domain, fetch, now))
      && s.cache == Refreshed(cfg.allowlist, cache, cfg.ttl, domain, fetch, now, later)
  {
    AfterStep(cfg, run, Look(call, domain, now));
    AfterStep(cfg, run + [Look(call, domain, now)], Fetched(call, fetch(domain), done));
    AfterStep(cfg, run + [Look(call, domain, now)] + [Fetched(call, fetch(domain), done)], Save(call, later));
  }

  predicate OnList(cfg: Config, domain: string) {
    domain != "" && (cfg.allowlist != {} ==> domain in cfg.allowlist)
  }

  predicate Failed(c: Call) {
    c.Returned? && c.r.Err?
  }

  /** In every run only allowed domains are fetched, stored or served. */
  lemma {:induction false} OnlyAllowed(cfg: Config, run: seq<Event>)
    ensures forall domain :: domain in After(cfg, run).cache ==> OnList(cfg, domain)
    ensures forall call :: call in After(cfg, run).calls ==>
      Failed(After(cfg, run).calls[call]) || OnList(cfg, After(cfg, run).calls[call].domain)
  {
    if run != [] {
      OnlyAllowed(cfg, run[..|run| - 1]);
    }
  }

  /** The clock is read under the lock and never goes back. */
  predicate Ordered(run: seq<Event>) {
    forall i, j :: 0 <= i < j < |run| ==> run[i].time <= run[j].time
  }

  predicate Past(run: seq<Event>, now: int) {
    forall i :: 0 <= i < |run| ==> run[i].time <= now
  }

  /** Where the call of event i stood when the event happened. */
  predicate Stood(cfg: Config, run: seq<Event>, i: int, call: CallId, c: Call) {
    0 <= i < |run| && run[i].call == call && call in After(cfg, run[..i]).calls && After(cfg, run[..i]).calls[call] == c
  }

  /** Event i ended a fetch of this domain with this key. */
  predicate FetchedAt(cfg: Config, run: seq<Event>, i: int, call: CallId, domain: string, key: string) {
    Stood(cfg, run, i, call, Waiting(domain)) && run[i].Fetched? && run[i].reply == Ok(key)
  }

  /** Event i stored this key for this domain. */
  predicate SavedAt(cfg: Config, run: seq<Event>, i: int, call: CallId, domain: string, key: string, time: int) {
    Stood(cfg, run, i, call, Holding(domain, key)) && run[i] == Save(call, time)
  }

  lemma {:induction false} HoldingWasFetched(cfg: Config, run: seq<Event>, call: CallId) returns (i: int)
    requires call in After(cfg, run).calls && After(cfg, run).calls[call].Holding?
    ensures var c := After(cfg, run).calls[call]; FetchedAt(cfg, run, i, call, c.domain, c.key)
  {
    var n := |run| - 1;
    var pre := After(cfg, run[..n]);
    if call in pre.calls && pre.calls[call] == After(cfg, run).calls[call] {
      i := HoldingWasFetched(cfg, run[..n], call);
      assert run[..n][..i] == run[..i];
    } else {
      i := n;
    }
  }

  /** An entry of the cache was fetched from its own domain by some call, and stored by that call later. */
  lemma {:induction false} Provenance(cfg: Config, run: seq<Event>, domain: string)
    returns (call: CallId, f: int, i: int)
    requires domain in After(cfg, run).cache
    ensures var e := After(cfg, run).cache[domain];
      && f < i && FetchedAt(cfg, run, f, call, domain, e.signingKey)
      && SavedAt(cfg, run, i, call, domain, e.signingKey, e.expiresAt - cfg.ttl)
  {
    var n := |run| - 1;
    var pre := After(cfg, run[..n]);
    if domain in pre.cache && After(cfg, run).cache[domain] == pre.cache[domain] {
      call, f, i := Provenance(cfg, run[..n], domain);
      assert run[..n][..i] == run[..i] && run[..n][..f] == run[..f];
    } else {
      call, i := run[n].call, n;
      f := HoldingWasFetched(cfg, run[..n], call);
      assert run[..n][..f] == run[..f];
    }
  }

  /**
   A key served from the cache was fetched from that same domain, and stored no more than the TTL before,
   by one call of Resolve.
   */
  lemma HitsAreFresh(cfg: Config, run: seq<Event>, call: CallId, domain: string, now: int, key: string)
    requires Past(run, now) && call !in After(cfg, run).calls
    requires After(cfg, run + [Look(call, domain, now)]).calls[call] == Returned(domain, Ok(key))
    ensures Permitted(cfg.allowlist, domain)
    ensures exists c, f, i, u ::
      && FetchedAt(cfg, run, f, c, domain, key) && SavedAt(cfg, run, i, c, domain, key, u)
      && f < i && u <= now < u + cfg.ttl
  {
    AfterStep(cfg, run, Look(call, domain, now));
    var c, f, i := Provenance(cfg, run, domain);
    var u := After(cfg, run).cache[domain].expiresAt - cfg.ttl;
    assert SavedAt(cfg, run, i, c, domain, key, u);
  }

  lemma EntryTime(cfg: Config, run: seq<Event>, domain: string, now: int)
    requires Past(run, now) && domain in After(cfg, run).cache
    ensures After(cfg, run).cache[domain].expiresAt <= now + cfg.ttl
  {
    var call, f, i := Provenance(cfg, run, domain);
  }

  lemma LiveEntryStays(cfg: Config, s: State, e: Event, domain: string, now: int)
    requires domain in s.cache && e.time <= now < s.cache[domain].expiresAt <= e.time + cfg.ttl
    ensures domain in Step(cfg, s, e).cache && Step(cfg, s, e).cache[domain].expiresAt >= s.cache[domain].expiresAt
  {
  }

  /** A live entry stays: nothing stored after it removes it or brings its expiry forward, even a full cache. */
  lemma {:induction false} LiveEntriesStay(cfg: Config, run: seq<Event>, n: nat, domain: string, now: int)
    requires Ordered(run) && Past(run, now) && n <= |run|
    requires domain in After(cfg, run[..n]).cache && now < After(cfg, run[..n]).cache[domain].expiresAt
    ensures domain in After(cfg, run).cache
    ensures After(cfg, run).cache[domain].expiresAt >= After(cfg, run[..n]).cache[domain].expiresAt
    ensures Cached(After(cfg, run).cache, domain, now).Some?
    decreases |run|
  {
    if n == |run| {
      assert run[..n] == run;
    } else {
      var m := |run| - 1;
      assert run[..m][..n] == run[..n];
      LiveEntriesStay(cfg, run[..m], n, domain, now);
      EntryTime(cfg, run[..m], domain, run[m].time);
      LiveEntryStays(cfg, After(cfg, run[..m]), run[m], domain, now);
    }
  }

  lemma LiveShrinks(cache: Cache, now: int)
    ensures |Live(cache, now)| <= |cache|
  {
    var live := Live(cache, now);
    SubsetCard(live.Keys, cache.Keys);
    assert |live.Keys| == |live| && |cache.Keys| == |cache|;
  }

  lemma StoreBounded(cache: Cache, ttl: int, domain: string, key: string, now: int)
    requires |cache| <= MAX_CACHE_ENTRIES
    ensures |Store(cache, ttl, domain, key, now)| <= MAX_CACHE_ENTRIES
  {
    var live := Live(cache, now);
    LiveShrinks(cache, now);
    var more := live[domain := Entry(key, now + ttl)];
    assert more.Keys == live.Keys + {domain};
    assert |more.Keys| == |more| && |live.Keys| == |live|;
  }

  lemma {:induction false} SizeBounded(cfg: Config, run: seq<Event>)
    ensures |After(cfg, run).cache| <= 1024
  {
    if run != [] {
      var s, e := After(cfg, run[..|run| - 1]), run[|run| - 1];
      SizeBounded(cfg, run[..|run| - 1]);
      if e.Save? && e.call in s.calls && s.calls[e.call].Holding? {
        StoreBounded(s.cache, cfg.ttl, s.calls[e.call].domain, s.calls[e.call].key, e.time);
      }
    }
  }

  /** A store is dropped exactly when the cache already holds its full number of live entries. */
  lemma SaveTakesEffect(cfg: Config, run: seq<Event>, call: CallId, domain: string, key: string, now: int)
    requires cfg.ttl > 0 && call in After(cfg, run).calls && After(cfg, run).calls[call] == Holding(domain, key)
    ensures var cache := After(cfg, run).cache;
      Cached(After(cfg, run + [Save(call, now)]).cache, domain, now)
      == if |Live(cache, now)| < 1024 then Some(key) else Cached(cache, domain, now)
  {
    AfterStep(cfg, run, Save(call, now));
  }

  // ---- Stable domains --------------------------------------------------------------------------

  /** Every fetch of the run found what the domain publishes. */
  predicate Stable(cfg: Config, run: seq<Event>, publishes: Fetch) {
    forall i :: 0 <= i < |run| && run[i].Fetched? ==>
      FetchedRight(After(cfg, run[..i]), run[i].call, run[i].reply, publishes)
  }

  predicate FetchedRight(s: State, call: CallId, reply: Result<string, ResolveError>, publishes: Fetch) {
    call in s.calls && s.calls[call].Waiting? ==> reply == publishes(s.calls[call].domain)
  }

  /** Whatever a call knows, and whatever the cache holds, is what an uncached resolver would find. */
  predicate Right(cfg: Config, c: Call, publishes: Fetch) {
    match c
    case Waiting(domain) => Permitted(cfg.allowlist, domain)
    case Holding(domain, key) => Permitted(cfg.allowlist, domain) && publishes(domain) == Ok(key)
    case Returned(domain, r) => r == Uncached(cfg.allowlist, domain, publishes)
  }

  predicate CacheRight(cache: Cache, publishes: Fetch) {
    forall d :: d in cache ==> publishes(d) == Ok(cache[d].signingKey)
  }

  predicate AllRight(cfg: Config, s: State, publishes: Fetch) {
    CacheRight(s.cache, publishes) && forall call :: call in s.calls ==> Right(cfg, s.calls[call], publishes)
  }

  lemma StepStaysRight(cfg: Config, s: State, e: Event, publishes: Fetch)
    requires AllRight(cfg, s, publishes) && (e.Fetched? ==> FetchedRight(s, e.call, e.reply, publishes))
    ensures AllRight(cfg, Step(cfg, s, e), publishes)
  {
  }

  /** While domains keep publishing the same thing, every call answers as the uncached resolver. */
  lemma {:induction false} CacheInvisibleWhenStable(cfg: Config, run: seq<Event>, publishes: Fetch)
    requires Stable(cfg, run, publishes)
    ensures AllRight(cfg, After(cfg, run), publishes)
    ensures forall call, domain, r ::
      (call in After(cfg, run).calls && After(cfg, run).calls[call] == Returned(domain, r))
      ==> r == Uncached(cfg.allowlist, domain, publishes)
  {
    if run != [] {
      var n := |run| - 1;
      assert Stable(cfg, run[..n], publishes) by {
        forall i | 0 <= i < n ensures run[..n][..i] == run[..i] {}
      }
      CacheInvisibleWhenStable(cfg, run[..n], publishes);
      StepStaysRight(cfg, After(cfg, run[..n]), run[n], publishes);
    }
  }
}
