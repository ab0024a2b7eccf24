/**
 internal/store/postgres.go: the challenges and sessions tables, one SQL statement at a time.
 Times are nanoseconds.
 */
module Store {
  import opened Prelude
  import opened Txn

  datatype ChallengeRecord = ChallengeRecord(
    nonce: string, account: Address, homeDomain: string, clientDomain: string, issuedAt: int, expiresAt: int)

  datatype Row = Row(
    account: Address, homeDomain: string, clientDomain: string, issuedAt: int, expiresAt: int, consumedAt: Option<int>)

  datatype ConsumedChallenge = ConsumedChallenge(account: Address, homeDomain: string, clientDomain: string)

  datatype SessionRecord = SessionRecord(
    jti: string, account: Address, memo: string, homeDomain: string, clientDomain: string,
    issuedAt: int, expiresAt: int)

  /** nonce and jti are the primary keys. */
  datatype Db = Db(challenges: map<string, Row>, sessions: map<string, SessionRecord>)

  const EMPTY := Db(map[], map[])

  // ---- The statements --------------------------------------------------------------------------

  function RowOf(rec: ChallengeRecord): Row {
    Row(rec.account, rec.homeDomain, rec.clientDomain, rec.issuedAt, rec.expiresAt, None)
  }

  function InsertChallenge(db: Db, rec: ChallengeRecord): (Db, bool) {
    if rec.nonce in db.challenges then (db, false)
    else (db.(challenges := db.challenges[rec.nonce := RowOf(rec)]), true)
  }

  /** The row UPDATE matches: unconsumed, and not expired, its very last instant included. */
  predicate Consumable(db: Db, nonce: string, now: int) {
    && nonce in db.challenges
    && db.challenges[nonce].consumedAt.None? && db.challenges[nonce].expiresAt >= now
  }

  function Consume(db: Db, nonce: string, now: int): (Db, Option<ConsumedChallenge>) {
    if !Consumable(db, nonce, now) then (db, None)
    else
      var row := db.challenges[nonce];
      (db.(challenges := db.challenges[nonce := row.(consumedAt := Some(now))]),
       Some(ConsumedChallenge(row.account, row.homeDomain, row.clientDomain)))
  }

  /** The arms of classifyFailure. */
  datatype Arm = NoRow | RowConsumed | RowExpired | RowLive

  function Inspect(db: Db, nonce: string, now: int): Arm {
    if nonce !in db.challenges then NoRow
    else if db.challenges[nonce].consumedAt.Some? then RowConsumed
    else if db.challenges[nonce].expiresAt < now then RowExpired
    else RowLive
  }

  function ErrorOf(arm: Arm): AuthError {
    match arm
    case NoRow => ChallengeUnknown
    case RowConsumed => ChallengeConsumed
    case RowExpired => ChallengeExpired
    case RowLive => ChallengeConsumed
  }

  function InsertSession(db: Db, rec: SessionRecord): (Db, bool) {
    if rec.jti in db.sessions then (db, false)
    else (db.(sessions := db.sessions[rec.jti := rec]), true)
  }

  function DeleteExpired(db: Db, before: int): Db {
    var rows := db.challenges;
    db.(challenges := map nonce | nonce in rows && rows[nonce].expiresAt >= before :: rows[nonce])
  }

  // ---- The store -------------------------------------------------------------------------------

  /** What one turn of the cleanup loop meets: a tick whose delete succeeds or fails, or cancellation. */
  datatype Tick = Tick(now: int) | FailedTick | Cancelled

  /** The deletes that ran before the loop was cancelled. */
  function DeleteTimes(ticks: seq<Tick>): seq<int> {
    if ticks == [] || ticks[0].Cancelled? then []
    else (if ticks[0].Tick? then [ticks[0].now] else []) + DeleteTimes(ticks[1..])
  }

  predicate Outlives(row: Row, times: seq<int>) {
    forall i :: 0 <= i < |times| ==> row.expiresAt >= times[i]
  }

  class Postgres {
    var challenges: map<string, Row>
    var sessions: map<string, SessionRecord>

    function Contents(): Db
      reads this
    {
      Db(challenges, sessions)
    }

    constructor ()
      ensures Contents() == EMPTY
    {
      challenges := map[];
      sessions := map[];
    }

    method RecordChallenge(rec: ChallengeRecord) returns (ok: bool)
      modifies this
      ensures (Contents(), ok) == InsertChallenge(old(Contents()), rec)
      ensures ok <==> rec.nonce !in old(challenges)
      ensures sessions == old(sessions)
      ensures challenges == if !ok then old(challenges) else old(challenges)[rec.nonce :=
        Row(rec.account, rec.homeDomain, rec.clientDomain, rec.issuedAt, rec.expiresAt, None)]
    {
      if rec.nonce in challenges {
        return false;
      }
      var row := Row(rec.account, rec.homeDomain, rec.clientDomain, rec.issuedAt, rec.expiresAt, None);
      challenges := challenges[rec.nonce := row];
      return true;
    }

    /** The UPDATE. */
    method Claim(nonce: string, now: int) returns (out: Option<ConsumedChallenge>)
      modifies this
      ensures (Contents(), out) == Consume(old(Contents()), nonce, now)
      ensures out.Some? <==>
        && nonce in old(challenges) && old(challenges)[nonce].consumedAt == None
        && now <= old(challenges)[nonce].expiresAt
      ensures sessions == old(sessions)
      ensures out.None? ==> challenges == old(challenges)
      ensures out.Some? ==>
        var row := old(challenges)[nonce];
        && challenges == old(challenges)[nonce := row.(consumedAt := Some(now))]
        && out.value == ConsumedChallenge(row.account, row.homeDomain, row.clientDomain)
    {
      if nonce in challenges && challenges[nonce].consumedAt.None? && challenges[nonce].expiresAt >= now {
        var row := challenges[nonce];
        challenges := challenges[nonce := row.(consumedAt := Some(now))];
        return Some(ConsumedChallenge(row.account, row.homeDomain, row.clientDomain));
      }
      return None;
    }

    /** The SELECT, run only after the UPDATE matched nothing. */
    method ClassifyFailure(nonce: string, now: int) returns (e: AuthError)
      ensures e == ErrorOf(Inspect(Contents(), nonce, now))
      ensures e == ChallengeUnknown <==> nonce !in challenges
      ensures e == ChallengeExpired <==>
        nonce in challenges && challenges[nonce].consumedAt == None && challenges[nonce].expiresAt < now
      ensures e in {ChallengeUnknown, ChallengeExpired, ChallengeConsumed}
    {
      if nonce !in challenges {
        return ChallengeUnknown;
      }
      if challenges[nonce].consumedAt.Some? {
        return ChallengeConsumed;
      }
      if challenges[nonce].expiresAt < now {
        return ChallengeExpired;
      }
      return ChallengeConsumed;
    }

    /** Both statements with nothing in between: then the error says exactly why. */
    method ConsumeChallenge(nonce: string, now: int) returns (r: Result<ConsumedChallenge, AuthError>)
      modifies this
      ensures r.Ok? <==> Consumable(old(Contents()), nonce, now)
      ensures Contents() == Consume(old(Contents()), nonce, now).0
      ensures r.Ok? ==> Some(r.value) == Consume(old(Contents()), nonce, now).1
      ensures r == Err(ChallengeUnknown) <==> nonce !in old(challenges)
      ensures r == Err(ChallengeConsumed) <==> nonce in old(challenges) && old(challenges)[nonce].consumedAt.Some?
      ensures r == Err(ChallengeExpired) <==>
        nonce in old(challenges) && old(challenges)[nonce].consumedAt == None && old(challenges)[nonce].expiresAt < now
      ensures r.Err? ==> r.error == ErrorOf(Inspect(old(Contents()), nonce, now))
      ensures r.Err? ==> r.error in {ChallengeUnknown, ChallengeConsumed, ChallengeExpired}
    {
      var out := Claim(nonce, now);
      if out.Some? {
        return Ok(out.value);
      }
      var e := ClassifyFailure(nonce, now);
      return Err(e);
    }

    method RecordSession(rec: SessionRecord) returns (ok: bool)
      modifies this
      ensures (Contents(), ok) == InsertSession(old(Contents()), rec)
      ensures ok <==> rec.jti !in old(sessions)
      ensures sessions == if ok then old(sessions)[rec.jti := rec] else old(sessions)
      ensures challenges == old(challenges)
    {
      if rec.jti in sessions {
        return false;
      }
      sessions := sessions[rec.jti := rec];
      return true;
    }

    method DeleteExpiredChallenges(before: int) returns (count: nat)
      modifies this`challenges
      ensures Contents() == DeleteExpired(old(Contents()), before)
      ensures forall n :: n in challenges <==> n in old(challenges) && before <= old(challenges)[n].expiresAt
      ensures forall n :: n in challenges ==> challenges[n] == old(challenges)[n]
      ensures |challenges| + count == |old(challenges)|
    {
      var kept := map nonce | nonce in challenges && challenges[nonce].expiresAt >= before :: challenges[nonce];
      assert kept.Keys <= challenges.Keys;
      SubsetCard(kept.Keys, challenges.Keys);
      assert |kept.Keys| == |kept| && |challenges.Keys| == |challenges|;
      count := |challenges| - |kept|;
      challenges := kept;
    }

    /** The loop deletes exactly the rows some completed tick found expired, and nothing after cancellation. */
    method CleanupExpiredChallenges(ticks: seq<Tick>)
      modifies this`challenges
      ensures challenges == Surviving(old(challenges), DeleteTimes(ticks))
      ensures forall n :: n in challenges ==> challenges[n] == old(challenges)[n]
      ensures forall n :: n in challenges <==> n in old(challenges) && NeverExpired(old(challenges)[n], ticks)
    {
      SurvivingExact(challenges, ticks);
      ghost var done: seq<int> := [];
      SurvivingNone(challenges);
      for i := 0 to |ticks|
        invariant DeleteTimes(ticks) == done + DeleteTimes(ticks[i..])
        invariant challenges == Surviving(old(challenges), done)
      {
        DeleteTimesNext(ticks, i);
        match ticks[i] {
          case Cancelled =>
            assert done + [] == done;
            return;
          case FailedTick =>
          case Tick(now) =>
            SurvivingOneMore(old(challenges), done, now);
            var count := DeleteExpiredChallenges(now);
            assert done + ([now] + DeleteTimes(ticks[i + 1..])) == done + [now] + DeleteTimes(ticks[i + 1..]);
            done := done + [now];
        }
      }
      assert done + [] == done;
    }
  }

  /** The rows that no delete at any of these times removes. */
  function Surviving(challenges: map<string, Row>, times: seq<int>): map<string, Row> {
    map n | n in challenges && Outlives(challenges[n], times) :: challenges[n]
  }

  /** Turn i of the loop deletes: its tick came, nothing failed, and nothing before it cancelled the loop. */
  predicate Deletes(ticks: seq<Tick>, i: int) {
    0 <= i < |ticks| && ticks[i].Tick? && forall j :: 0 <= j < i ==> ticks[j] != Cancelled
  }

  lemma {:induction false} DeleteTimesExact(ticks: seq<Tick>, t: int)
    ensures t in DeleteTimes(ticks) <==> exists i :: Deletes(ticks, i) && ticks[i].now == t
  {
    if ticks != [] && ticks[0] != Cancelled {
      var rest := ticks[1..];
      DeleteTimesExact(rest, t);
      if i :| Deletes(rest, i) && rest[i].now == t {
        assert Deletes(ticks, i + 1);
      }
      if i :| Deletes(ticks, i) && ticks[i].now == t && i > 0 {
        assert rest[i - 1] == ticks[i] && forall j :: 0 <= j < i - 1 ==> rest[j] == ticks[j + 1];
        assert Deletes(rest, i - 1);
      }
      if ticks[0] == Tick(t) {
        assert Deletes(ticks, 0);
      }
    }
  }

  /** The row had not expired at any turn that deletes. */
  ghost predicate NeverExpired(row: Row, ticks: seq<Tick>) {
    forall i :: Deletes(ticks, i) ==> ticks[i].now <= row.expiresAt
  }

  lemma OutlivesExact(row: Row, ticks: seq<Tick>)
    ensures Outlives(row, DeleteTimes(ticks)) <==> NeverExpired(row, ticks)
  {
    var times := DeleteTimes(ticks);
    if Outlives(row, times) {
      forall i | Deletes(ticks, i) ensures ticks[i].now <= row.expiresAt {
        DeleteTimesExact(ticks, ticks[i].now);
        var j :| 0 <= j < |times| && times[j] == ticks[i].now;
      }
    }
    if NeverExpired(row, ticks) {
      forall j | 0 <= j < |times| ensures times[j] <= row.expiresAt {
        DeleteTimesExact(ticks, times[j]);
      }
    }
  }

  /** Exactly such rows survive the loop. */
  lemma SurvivingExact(challenges: map<string, Row>, ticks: seq<Tick>)
    ensures forall n :: n in Surviving(challenges, DeleteTimes(ticks)) <==>
      n in challenges && NeverExpired(challenges[n], ticks)
  {
    forall n | n in challenges
      ensures Outlives(challenges[n], DeleteTimes(ticks)) <==> NeverExpired(challenges[n], ticks)
    {
      OutlivesExact(challenges[n], ticks);
    }
  }

  lemma SurvivingNone(challenges: map<string, Row>)
    ensures Surviving(challenges, []) == challenges
  {
  }

  lemma SurvivingOneMore(challenges: map<string, Row>, times: seq<int>, t: int)
    ensures Surviving(challenges, times + [t])
         == DeleteExpired(Db(Surviving(challenges, times), map[]), t).challenges
  {
    forall n | n in challenges
      ensures Outlives(challenges[n], times + [t]) <==> Outlives(challenges[n], times) && challenges[n].expiresAt >= t
    {
      OutlivesOneMore(challenges[n], times, t);
    }
  }

  lemma OutlivesOneMore(row: Row, times: seq<int>, t: int)
    ensures Outlives(row, times + [t]) <==> Outlives(row, times) && row.expiresAt >= t
  {
    assert (times + [t])[|times|] == t;
    forall i | 0 <= i < |times| ensures (times + [t])[i] == times[i] {}
  }

  lemma DeleteTimesNext(ticks: seq<Tick>, i: nat)
    requires i < |ticks|
    ensures DeleteTimes(ticks[i..])
         == match ticks[i]
            case Cancelled => []
            case FailedTick => DeleteTimes(ticks[i + 1..])
            case Tick(now) => [now] + DeleteTimes(ticks[i + 1..])
  {
    assert ticks[i..][1..] == ticks[i + 1..];
  }
}
