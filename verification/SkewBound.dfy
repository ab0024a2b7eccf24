/**
 How much clock skew the rate limiter's sweep bears: exactly MAX_SKEW. Calls of one key are followed
 through a run as steps on whatever part of a limiter's state they depend on.
 */
module SkewBound {
  import opened Prelude
  import opened RateLimiter

  /** What n calls at one instant leave of a bucket. */
  function Left(tokens: int, n: nat): int {
    if n == 0 then tokens
    else if Left(tokens, n - 1) < COST then Left(tokens, n - 1)
    else Left(tokens, n - 1) - COST
  }

  lemma {:induction false} LeftIs(tokens: int, n: nat)
    ensures if n * COST <= tokens then Left(tokens, n) == tokens - n * COST
            else tokens >= 0 ==> Left(tokens, n) < COST
  {
    if n > 0 { LeftIs(tokens, n - 1); }
  }

  function Iterate<T>(f: T -> T, x: T, n: nat): T {
    if n == 0 then x else f(Iterate(f, x, n - 1))
  }

  /** Any object whose step takes one call's tokens from a bucket is drained like one. */
  lemma {:induction false} IterateDrains<T>(f: T -> T, x: T, holding: int -> T, tokens: int, n: nat)
    requires n > 0 && f(x) == holding(Left(tokens, 1))
    requires forall k :: f(holding(k)) == holding(Left(k, 1))
    ensures Iterate(f, x, n) == holding(Left(tokens, n))
  {
    if n == 1 {
      assert Iterate(f, x, 0) == x;
    } else {
      IterateDrains(f, x, holding, tokens, n - 1);
      LeftNext(tokens, n - 1);
    }
  }

  lemma LeftNext(tokens: int, n: nat)
    ensures Left(tokens, n + 1) == Left(Left(tokens, n), 1)
  {
    assert Left(Left(tokens, n), 0) == Left(tokens, n);
  }

  /** A sequence of states, each from m on the step of the one before. */
  lemma {:induction false} StatesIterate<T>(states: seq<T>, f: T -> T, m: nat, n: nat)
    requires m <= n < |states| && forall i :: m <= i < n ==> states[i + 1] == f(states[i])
    ensures states[n] == Iterate(f, states[m], n - m)
  {
    if m < n {
      StatesIterate(states, f, m, n - 1);
      assert states[n - 1 + 1] == f(states[n - 1]);
    }
  }

  /** a steps of one kind, one of another, and then steps of a third kind up to n. */
  lemma ThreePhases<T>(states: seq<T>, f: T -> T, g: T -> T, h: T -> T, a: nat, n: nat)
    requires a < n < |states|
    requires forall i :: 0 <= i < a ==> states[i + 1] == f(states[i])
    requires states[a + 1] == g(states[a])
    requires forall i :: a + 1 <= i < n ==> states[i + 1] == h(states[i])
    ensures states[n] == Iterate(h, g(Iterate(f, states[0], a)), n - a - 1)
  {
    StatesIterate(states, f, 0, a);
    StatesIterate(states, h, a + 1, n);
  }

  /** From m to n the run is one request over and over. */
  predicate Repeats(run: seq<Request>, m: nat, n: nat, r: Request) {
    m <= n <= |run| && forall i :: m <= i < n ==> run[i] == r
  }

  function At<T>(f: (T, int) -> T, t: int): T -> T {
    x => f(x, t)
  }

  /**
   One key's part of some limiter, before each request of the run and after the last: the key's own calls
   change it in one way, the others in another.
   */
  ghost predicate Traces<T(!new)>(run: seq<Request>, key: string, states: seq<T>, mine: (T, int) -> T,
                                  others: (T, int) -> T) {
    && |states| == |run| + 1
    && forall i :: 0 <= i < |run| ==>
         states[i + 1] == if run[i].key == key then mine(states[i], run[i].time) else others(states[i], run[i].time)
  }

  lemma TracesGrow<T(!new)>(run: seq<Request>, key: string, pre: seq<T>, last: T, mine: (T, int) -> T,
                            others: (T, int) -> T)
    requires run != [] && Traces(run[..|run| - 1], key, pre, mine, others)
    requires var r, x := run[|run| - 1], pre[|run| - 1];
      last == if r.key == key then mine(x, r.time) else others(x, r.time)
    ensures Traces(run, key, pre + [last], mine, others)
  {
    forall i | 0 <= i < |run| - 1 ensures run[..|run| - 1][i] == run[i] {}
  }

  lemma HitFresh(rate: nat, t: int)
    ensures Hit(rate, None, t) == (Bucket(Left(Burst(rate), 1), t), Burst(rate) >= COST)
  {
    assert Left(Burst(rate), 0) == Burst(rate);
  }

  lemma HitAgain(rate: nat, k: int, t: int)
    ensures Hit(rate, Some(Bucket(k, t)), t) == (Bucket(Left(k, 1), t), k >= COST)
  {
    assert Left(k, 0) == k;
  }

  // The kept bucket.

  function KeptMine(rate: nat): (Option<Bucket>, int) -> Option<Bucket> {
    (own, t) => Some(Hit(rate, own, t).0)
  }

  function KeptOthers(): (Option<Bucket>, int) -> Option<Bucket> {
    (own, t) => own
  }

  lemma {:induction false} KeptTrace(rate: nat, run: seq<Request>, key: string) returns (states: seq<Option<Bucket>>)
    ensures Traces(run, key, states, KeptMine(rate), KeptOthers())
    ensures states[0] == None && states[|run|] == Kept(rate, Own(run, key))
  {
    if run == [] {
      states := [None];
    } else {
      var pre := KeptTrace(rate, run[..|run| - 1], key);
      OwnStep(run, key);
      states := pre + [Kept(rate, Own(run, key))];
      TracesGrow(run, key, pre, Kept(rate, Own(run, key)), KeptMine(rate), KeptOthers());
    }
  }

  lemma KeptDrains(rate: nat, own: Option<Bucket>, t: int, tokens: int, n: nat)
    requires n > 0 && Hit(rate, own, t).0 == Bucket(Left(tokens, 1), t)
    ensures Iterate(At(KeptMine(rate), t), own, n) == Some(Bucket(Left(tokens, n), t))
  {
    forall k ensures At(KeptMine(rate), t)(Some(Bucket(k, t))) == Some(Bucket(Left(k, 1), t)) {
      HitAgain(rate, k, t);
    }
    IterateDrains(At(KeptMine(rate), t), own, k => Some(Bucket(k, t)), tokens, n);
  }

  // One key's part of the limiter.

  datatype View = View(own: Option<Bucket>, lastSweep: Option<int>)

  function ViewOf(s: State, key: string): View {
    View(Get(s.buckets, key), s.lastSweep)
  }

  function SweepView(v: View, now: int): View {
    if v.lastSweep.Some? && now - v.lastSweep.value < SWEEP_INTERVAL then v
    else View(if v.own.Some? && now - v.own.value.last <= BUCKET_IDLE_TTL then v.own else None, Some(now))
  }

  function ViewMine(rate: nat): (View, int) -> View {
    (v, t) => View(Some(Hit(rate, SweepView(v, t).own, t).0), SweepView(v, t).lastSweep)
  }

  function ViewOthers(): (View, int) -> View {
    (v, t) => SweepView(v, t)
  }

  lemma ViewOneMore(rate: nat, s: State, r: Request, key: string)
    ensures ViewOf(Allow(rate, s, r).0, key)
         == if r.key == key then ViewMine(rate)(ViewOf(s, key), r.time) else ViewOthers()(ViewOf(s, key), r.time)
    ensures r.key == key ==> (Allow(rate, s, r).1 <==> Hit(rate, SweepView(ViewOf(s, key), r.time).own, r.time).1)
  {
  }

  lemma {:induction false} ViewTrace(rate: nat, run: seq<Request>, key: string) returns (states: seq<View>)
    ensures Traces(run, key, states, ViewMine(rate), ViewOthers())
    ensures states[0] == View(None, None) && states[|run|] == ViewOf(After(rate, run), key)
  {
    if run == [] {
      states := [View(None, None)];
    } else {
      var n := |run| - 1;
      var pre := ViewTrace(rate, run[..n], key);
      ViewOneMore(rate, After(rate, run[..n]), run[n], key);
      states := pre + [ViewOf(After(rate, run), key)];
      TracesGrow(run, key, pre, ViewOf(After(rate, run), key), ViewMine(rate), ViewOthers());
    }
  }

  /** A full bucket, n calls at one instant, no sweep due after the first. */
  lemma ViewDrains(rate: nat, v: View, t: int, lastSweep: int, n: nat)
    requires n > 0 && SweepView(v, t) == View(None, Some(lastSweep)) && t - lastSweep < SWEEP_INTERVAL
    ensures Iterate(At(ViewMine(rate), t), v, n) == View(Some(Bucket(Left(Burst(rate), n), t)), Some(lastSweep))
  {
    HitFresh(rate, t);
    forall k
      ensures At(ViewMine(rate), t)(View(Some(Bucket(k, t)), Some(lastSweep)))
           == View(Some(Bucket(Left(k, 1), t)), Some(lastSweep))
    {
      HitAgain(rate, k, t);
    }
    IterateDrains(At(ViewMine(rate), t), v, k => View(Some(Bucket(k, t)), Some(lastSweep)), Burst(rate), n);
  }

  // A run in which a burst is spent twice.

  const EARLY := Request("a", 0)
  const OTHER := Request("b", BUCKET_IDLE_TTL + 1)
  const LATE := Request("a", MINUTE - 1)

  /** A key spends its burst, another key's call sweeps its bucket, and calls stamped earlier spend it again. */
  function Respent(rate: nat): (run: seq<Request>)
    ensures |run| == 2 * rate + 1
    ensures Repeats(run, 0, rate, EARLY) && run[rate] == OTHER && Repeats(run, rate + 1, 2 * rate + 1, LATE)
  {
    seq(2 * rate + 1, i => if i < rate then EARLY else if i == rate then OTHER else LATE)
  }

  lemma RespentSkew(rate: nat)
    ensures Skew(Respent(rate), MAX_SKEW + 1)
  {
  }

  lemma SpendAll(rate: nat)
    requires rate > 0
    ensures Iterate(At(ViewMine(rate), 0), View(None, None), rate) == View(Some(Bucket(0, 0)), Some(0))
    ensures Iterate(At(KeptMine(rate), 0), None, rate) == Some(Bucket(0, 0))
  {
    HitFresh(rate, 0);
    ViewDrains(rate, View(None, None), 0, 0, rate);
    KeptDrains(rate, None, 0, Burst(rate), rate);
    LeftIs(Burst(rate), rate);
  }

  /** A burst, another key's call, and all but one of the calls of a second burst. */
  lemma RespentTrace<T(!new)>(rate: nat, states: seq<T>, mine: (T, int) -> T, others: (T, int) -> T)
    requires rate > 0 && Traces(Respent(rate)[..2 * rate], "a", states, mine, others)
    ensures states[2 * rate]
         == Iterate(At(mine, LATE.time), others(Iterate(At(mine, 0), states[0], rate), OTHER.time), rate - 1)
  {
    var run := Respent(rate);
    assert forall i :: 0 <= i < 2 * rate ==> run[..2 * rate][i] == run[i];
    ThreePhases(states, At(mine, 0), At(others, OTHER.time), At(mine, LATE.time), rate, 2 * rate);
  }

  /** The other key's call drops the spent bucket. */
  lemma SpentIsSwept(rate: nat)
    requires rate > 0
    ensures ViewOthers()(Iterate(At(ViewMine(rate), 0), View(None, None), rate), OTHER.time)
         == View(None, Some(OTHER.time))
  {
    SpendAll(rate);
  }

  lemma LateOwn(rate: nat, v: View)
    requires rate > 0 && v == Iterate(At(ViewMine(rate), LATE.time), View(None, Some(OTHER.time)), rate - 1)
    ensures SweepView(v, LATE.time).own
         == if rate == 1 then None else Some(Bucket(Left(Burst(rate), rate - 1), LATE.time))
  {
    if rate > 1 {
      ViewDrains(rate, View(None, Some(OTHER.time)), LATE.time, OTHER.time, rate - 1);
    }
  }

  lemma LastLateAllowed(rate: nat, own: Option<Bucket>)
    requires rate > 0
    requires own == if rate == 1 then None else Some(Bucket(Left(Burst(rate), rate - 1), LATE.time))
    ensures Hit(rate, own, LATE.time).1
  {
    HitFresh(rate, LATE.time);
    LeftIs(Burst(rate), rate - 1);
    HitAgain(rate, Left(Burst(rate), rate - 1), LATE.time);
  }

  /** A minute less a nanosecond after it was emptied. */
  lemma KeptLate(rate: nat)
    ensures Hit(rate, Some(Bucket(0, 0)), LATE.time)
         == (Bucket(Left((MINUTE - 1) * rate, 1), LATE.time), (MINUTE - 1) * rate >= COST)
  {
    assert Left((MINUTE - 1) * rate, 0) == (MINUTE - 1) * rate;
    RateMonotone(rate, MINUTE - 1, COST);
  }

  lemma LastLateRefused(rate: nat, own: Option<Bucket>)
    requires rate > 0 && own == Iterate(At(KeptMine(rate), LATE.time), Some(Bucket(0, 0)), rate - 1)
    ensures !Hit(rate, own, LATE.time).1
  {
    KeptLate(rate);
    if rate > 1 {
      KeptDrains(rate, Some(Bucket(0, 0)), LATE.time, (MINUTE - 1) * rate, rate - 1);
      LeftIs((MINUTE - 1) * rate, rate - 1);
      HitAgain(rate, Left((MINUTE - 1) * rate, rate - 1), LATE.time);
    }
  }

  lemma RespentLast(rate: nat)
    requires rate > 0
    ensures var run := Respent(rate);
      run[2 * rate] == LATE && run[..2 * rate + 1] == run && run[..2 * rate] + [LATE] == run
  {
  }

  lemma LastAllowed(rate: nat, run: seq<Request>, r: Request, v: View)
    requires v == ViewOf(After(rate, run), r.key) && Hit(rate, SweepView(v, r.time).own, r.time).1
    ensures Allowed(rate, run + [r])
  {
    assert (run + [r])[..|run|] == run;
    ViewOneMore(rate, After(rate, run), r, r.key);
  }

  lemma LastRefused(rate: nat, run: seq<Request>, r: Request, own: Option<Bucket>)
    requires own == Kept(rate, Own(run, r.key)) && !Hit(rate, own, r.time).1
    ensures Own(run + [r], r.key) != [] && !KeptAllows(rate, Own(run + [r], r.key))
  {
    assert (run + [r])[..|run|] == run;
    OwnStep(run + [r], r.key);
  }

  /** The last of the late calls is allowed ... */
  lemma RespentAllowed(rate: nat, run: seq<Request>)
    requires rate > 0 && run == Respent(rate)[..2 * rate]
    ensures Allowed(rate, run + [LATE])
  {
    var states := ViewTrace(rate, run, "a");
    RespentTrace(rate, states, ViewMine(rate), ViewOthers());
    SpentIsSwept(rate);
    LateOwn(rate, states[2 * rate]);
    LastLateAllowed(rate, SweepView(states[2 * rate], LATE.time).own);
    LastAllowed(rate, run, LATE, states[2 * rate]);
  }

  /** ... which a limiter that knew the burst was spent would refuse. */
  lemma RespentRefused(rate: nat, run: seq<Request>)
    requires rate > 0 && run == Respent(rate)[..2 * rate]
    ensures Own(run + [LATE], "a") != [] && !KeptAllows(rate, Own(run + [LATE], "a"))
  {
    var states := KeptTrace(rate, run, "a");
    RespentTrace(rate, states, KeptMine(rate), KeptOthers());
    SpendAll(rate);
    LastLateRefused(rate, states[2 * rate]);
    LastRefused(rate, run, LATE, states[2 * rate]);
  }

  lemma {:induction false} NothingAtRateZero(run: seq<Request>)
    ensures forall key :: key in After(0, run).buckets ==> After(0, run).buckets[key].tokens <= 0
    ensures run != [] ==> !Allowed(0, run)
  {
    if run != [] { NothingAtRateZero(run[..|run| - 1]); }
  }

  lemma NothingKeptAtRateZero(times: seq<int>)
    requires times != []
    ensures !KeptAllows(0, times)
  {
    var n := |times| - 1;
    if n > 0 { KeptInRange(0, times[..n]); }
  }

  lemma RateZeroDecides(run: seq<Request>)
    requires run != []
    ensures DecidedAsKept(0, run)
  {
    NothingAtRateZero(run);
    OwnStep(run, run[|run| - 1].key);
    NothingKeptAtRateZero(Own(run, run[|run| - 1].key));
  }

  lemma RateZeroInvisible(run: seq<Request>)
    ensures Invisible(0, run)
  {
    forall n | 0 < n <= |run| ensures DecidedAsKept(0, run[..n]) {
      RateZeroDecides(run[..n]);
    }
  }

  /**
   The bound on the skew is exact, at every rate that allows anything at all: one nanosecond more, and some
   sweep hands out a burst that was spent already.
   */
  lemma SkewBoundExact(rate: nat, bound: int)
    ensures (forall run :: Skew(run, bound) ==> Invisible(rate, run)) <==> rate == 0 || bound <= 540_000_000_001
  {
    if rate == 0 || bound <= MAX_SKEW {
      forall run | Skew(run, bound) ensures Invisible(rate, run) {
        if rate == 0 {
          RateZeroInvisible(run);
        } else {
          assert Skew(run, MAX_SKEW);
          SweepInvisible(rate, run);
        }
      }
    } else {
      var run := Respent(rate);
      RespentSkew(rate);
      assert Skew(run, bound);
      RespentAllowed(rate, run[..2 * rate]);
      RespentRefused(rate, run[..2 * rate]);
      RespentLast(rate);
      assert !Invisible(rate, run);
    }
  }
}
