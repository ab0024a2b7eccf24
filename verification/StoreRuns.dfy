/** Any number of handlers and the cleanup loop over one store: what every schedule of their statements keeps. */
module StoreRuns {
  import opened Prelude
  import opened Txn
  import opened Store

  /** One SQL statement; each is atomic, and anything may run between two of them. */
  datatype Statement =
    | Insert(rec: ChallengeRecord)
    | Update(nonce: string, now: int)
    | Select(nonce: string, now: int)
    | InsertInto(session: SessionRecord)
    | Delete(before: int)

  function Apply(db: Db, st: Statement): Db {
    match st
    case Insert(rec) => InsertChallenge(db, rec).0
    case Update(nonce, now) => Consume(db, nonce, now).0
    case Select(_, _) => db
    case InsertInto(session) => InsertSession(db, session).0
    case Delete(before) => DeleteExpired(db, before)
  }

  function After(run: seq<Statement>): Db {
    if run == [] then EMPTY else Apply(After(run[..|run| - 1]), run[|run| - 1])
  }

  lemma AfterStep(run: seq<Statement>, i: nat)
    requires i < |run|
    ensures After(run[..i + 1]) == Apply(After(run[..i]), run[i])
  {
    assert run[..i + 1][..i] == run[..i];
  }

  /** Statement i inserted a row for the nonce. */
  predicate Inserted(run: seq<Statement>, i: int, nonce: string) {
    0 <= i < |run| && run[i].Insert? && run[i].rec.nonce == nonce && nonce !in After(run[..i]).challenges
  }

  /** Statement i consumed the nonce. */
  predicate Claimed(run: seq<Statement>, i: int, nonce: string) {
    0 <= i < |run| && run[i].Update? && run[i].nonce == nonce && Consumable(After(run[..i]), nonce, run[i].now)
  }

  /** The nonce has a row that is not consumed. */
  predicate Open(db: Db, nonce: string) {
    nonce in db.challenges && db.challenges[nonce].consumedAt.None?
  }

  // ---- Conservation ----------------------------------------------------------------------------

  function Insertions(run: seq<Statement>, nonce: string): nat {
    if run == [] then 0
    else Insertions(run[..|run| - 1], nonce) + (if Inserted(run, |run| - 1, nonce) then 1 else 0)
  }

  function Claims(run: seq<Statement>, nonce: string): nat {
    if run == [] then 0
    else Claims(run[..|run| - 1], nonce) + (if Claimed(run, |run| - 1, nonce) then 1 else 0)
  }

  /** How often a cleanup deleted a row of the nonce that nobody had consumed. */
  function Losses(run: seq<Statement>, nonce: string): nat {
    if run == [] then 0
    else
      var n := |run| - 1;
      Losses(run[..n], nonce)
      + (if run[n].Delete? && Open(After(run[..n]), nonce) && nonce !in After(run).challenges then 1 else 0)
  }

  /**
   On every schedule each row recorded for a nonce is accounted for exactly once: consumed, still open,
   or deleted unconsumed. So consumptions never outnumber recordings.
   */
  lemma {:induction false} Conservation(run: seq<Statement>, nonce: string)
    ensures Insertions(run, nonce)
         == Claims(run, nonce) + (if Open(After(run), nonce) then 1 else 0) + Losses(run, nonce)
  {
    if run != [] {
      var n := |run| - 1;
      Conservation(run[..n], nonce);
    }
  }

  // ---- Why a consumption failed ----------------------------------------------------------------

  lemma {:induction false} ConsumedWasClaimed(run: seq<Statement>, nonce: string) returns (k: int)
    requires nonce in After(run).challenges && After(run).challenges[nonce].consumedAt.Some?
    ensures Claimed(run, k, nonce)
  {
    var n := |run| - 1;
    var pre := After(run[..n]);
    if nonce in pre.challenges && pre.challenges[nonce].consumedAt.Some? {
      k := ConsumedWasClaimed(run[..n], nonce);
      assert run[..n][..k] == run[..k];
    } else {
      k := n;
    }
  }

  /** A row that was not consumable at i and is live at j for the same time was inserted in between. */
  lemma {:induction false} LiveAgainWasInserted(run: seq<Statement>, i: nat, nonce: string, now: int) returns (k: int)
    requires i <= |run|
    requires !Consumable(After(run[..i]), nonce, now) && Consumable(After(run), nonce, now)
    ensures i <= k && Inserted(run, k, nonce)
    decreases |run|
  {
    assert i < |run| by {
      assert run[..|run|] == run;
    }
    var n := |run| - 1;
    assert run[..n][..i] == run[..i];
    if Consumable(After(run[..n]), nonce, now) {
      k := LiveAgainWasInserted(run[..n], i, nonce, now);
      assert run[..n][..k] == run[..k];
    } else {
      k := n;
    }
  }

  /** A recorded row that is gone was deleted by a cleanup that ran after its expiry. */
  lemma {:induction false} GoneWasExpired(run: seq<Statement>, i: nat, nonce: string) returns (d: int)
    requires i < |run| && Inserted(run, i, nonce) && nonce !in After(run).challenges
    ensures i < d < |run| && run[d].Delete? && run[i].rec.expiresAt < run[d].before
    decreases |run|
  {
    AfterStep(run, i);
    d := DeletionOf(run, i + 1, nonce, run[i].rec.expiresAt);
  }

  lemma {:induction false} DeletionOf(run: seq<Statement>, i: nat, nonce: string, expiresAt: int) returns (d: int)
    requires i <= |run| && nonce in After(run[..i]).challenges
    requires After(run[..i]).challenges[nonce].expiresAt == expiresAt
    requires nonce !in After(run).challenges || After(run).challenges[nonce].expiresAt != expiresAt
    ensures i <= d < |run| && run[d].Delete? && expiresAt < run[d].before
    decreases |run|
  {
    assert i < |run| by {
      assert run[..|run|] == run;
    }
    var n := |run| - 1;
    assert run[..n][..i] == run[..i];
    var pre := After(run[..n]);
    if nonce in pre.challenges && pre.challenges[nonce].expiresAt == expiresAt {
      d := n;
    } else {
      d := DeletionOf(run[..n], i, nonce, expiresAt);
    }
  }

  /**
   Between a failed UPDATE at i and the SELECT at j anything may run. Even so: the consumed arm means some
   UPDATE did consume the nonce; the expired arm means the row really is past its expiry; the unknown arm
   means no row, and any row recorded earlier was deleted after expiring; and the default arm is reached
   only when the nonce was recorded in between, not when another caller consumed it.
   */
  lemma ClassificationSound(run: seq<Statement>, i: nat, j: nat)
    requires i < j < |run| && run[i].Update? && run[j] == Select(run[i].nonce, run[i].now)
    requires !Claimed(run, i, run[i].nonce)
    ensures var nonce, now := run[i].nonce, run[i].now;
      var db := After(run[..j]);
      match Inspect(db, nonce, now)
      case RowConsumed => exists k :: k < j && Claimed(run, k, nonce)
      case RowExpired => db.challenges[nonce].expiresAt < now
      case NoRow => forall k :: k < j && Inserted(run, k, nonce) ==>
        exists d :: k < d < j && run[d].Delete? && run[k].rec.expiresAt < run[d].before
      case RowLive => exists k :: i < k < j && Inserted(run, k, nonce)
  {
    var nonce, now := run[i].nonce, run[i].now;
    var pre := run[..j];
    match Inspect(After(pre), nonce, now) {
      case RowConsumed =>
        var k := ConsumedWasClaimed(pre, nonce);
        assert pre[..k] == run[..k];
        assert Claimed(run, k, nonce);
      case RowExpired =>
      case NoRow =>
        forall k | k < j && Inserted(run, k, nonce)
          ensures exists d :: k < d < j && run[d].Delete? && run[k].rec.expiresAt < run[d].before
        {
          assert pre[..k] == run[..k];
          var d := GoneWasExpired(pre, k, nonce);
        }
      case RowLive =>
        assert pre[..i] == run[..i];
        var k := LiveAgainWasInserted(pre, i, nonce, now);
        assert pre[..k] == run[..k];
        assert Inserted(run, k, nonce);
    }
  }

  /** No two recordings carry the same nonce. */
  predicate FreshNonces(run: seq<Statement>) {
    forall i, j :: 0 <= i < j < |run| && run[i].Insert? && run[j].Insert? ==> run[i].rec.nonce != run[j].rec.nonce
  }

  /** With fresh nonces, recorded before they are posted, the default arm is dead code. */
  lemma DefaultArmUnreachable(run: seq<Statement>, h: nat, i: nat, j: nat)
    requires h < i < j < |run| && run[i].Update? && run[j] == Select(run[i].nonce, run[i].now)
    requires FreshNonces(run) && run[h].Insert? && run[h].rec.nonce == run[i].nonce
    requires !Claimed(run, i, run[i].nonce)
    ensures Inspect(After(run[..j]), run[i].nonce, run[i].now) != RowLive
  {
    ClassificationSound(run, i, j);
  }

  /** Without that order it is not: a nonce posted just before it is recorded is reported consumed, and never was. */
  lemma DefaultArmReachable(rec: ChallengeRecord, now: int)
    requires rec.expiresAt >= now
    ensures var run := [Update(rec.nonce, now), Insert(rec), Select(rec.nonce, now)];
      && !Claimed(run, 0, rec.nonce)
      && Inspect(After(run[..2]), rec.nonce, now) == RowLive
      && Claims(run, rec.nonce) == 0
  {
    var run := [Update(rec.nonce, now), Insert(rec), Select(rec.nonce, now)];
    assert run[..0] == [] && run[..1] == [run[0]] && run[..2] == [run[0], run[1]];
    assert run[..2][..1] == run[..1] && run[..1][..0] == [];
    assert After(run[..1]) == EMPTY;
    assert Claims(run[..1], rec.nonce) == 0 && Claims(run[..2], rec.nonce) == 0;
  }

  // ---- Cleanup simulation ----------------------------------------------------------------------

  /** The same schedule on a store whose cleanup never deletes. */
  function AfterKept(run: seq<Statement>): Db {
    if run == [] then EMPTY
    else
      var db := AfterKept(run[..|run| - 1]);
      if run[|run| - 1].Delete? then db else Apply(db, run[|run| - 1])
  }

  predicate WasInserted(run: seq<Statement>, nonce: string) {
    exists i :: 0 <= i < |run| && run[i].Insert? && run[i].rec.nonce == nonce
  }

  /** Cleanup removes rows and changes none. */
  ghost predicate Thinned(db: Db, kept: Db) {
    && db.sessions == kept.sessions
    && forall n :: n in db.challenges ==> n in kept.challenges && db.challenges[n] == kept.challenges[n]
  }

  /** What it removed had expired before some cleanup. */
  ghost predicate GoneExpired(run: seq<Statement>, db: Db, kept: Db) {
    forall n :: n in kept.challenges && n !in db.challenges ==> DeletedAfter(run, kept.challenges[n].expiresAt)
  }

  predicate DeletedAfter(run: seq<Statement>, expiresAt: int) {
    exists d :: 0 <= d < |run| && run[d].Delete? && expiresAt < run[d].before
  }

  ghost predicate Recorded(run: seq<Statement>, kept: Db) {
    forall n :: n in kept.challenges ==> WasInserted(run, n)
  }

  lemma ThinnedStep(db: Db, kept: Db, st: Statement)
    requires Thinned(db, kept) && (st.Insert? ==> st.rec.nonce !in kept.challenges)
    ensures Thinned(Apply(db, st), if st.Delete? then kept else Apply(kept, st))
  {
  }

  lemma RecordedStep(run: seq<Statement>)
    requires run != [] && Recorded(run[..|run| - 1], AfterKept(run[..|run| - 1]))
    ensures Recorded(run, AfterKept(run))
  {
    var n := |run| - 1;
    forall nonce | nonce in AfterKept(run).challenges ensures WasInserted(run, nonce) {
      if nonce in AfterKept(run[..n]).challenges {
        assert WasInserted(run[..n], nonce);
        var i :| 0 <= i < n && run[..n][i].Insert? && run[..n][i].rec.nonce == nonce;
        assert run[i] == run[..n][i];
      } else {
        assert run[n].Insert? && run[n].rec.nonce == nonce;
      }
    }
  }

  /** A row the cleanup already removed stays removed, and none changes its expiry. */
  lemma GoneStep(db: Db, kept: Db, st: Statement, nonce: string)
    requires Thinned(db, kept) && (st.Insert? ==> st.rec.nonce !in kept.challenges)
    requires var kept' := if st.Delete? then kept else Apply(kept, st);
      nonce in kept'.challenges && nonce !in Apply(db, st).challenges
    ensures nonce in kept.challenges
    ensures var kept' := if st.Delete? then kept else Apply(kept, st);
      kept'.challenges[nonce].expiresAt == kept.challenges[nonce].expiresAt
    ensures nonce in db.challenges ==> st.Delete? && kept.challenges[nonce].expiresAt < st.before
  {
  }

  lemma DeletedAfterGrows(run: seq<Statement>, n: nat, expiresAt: int)
    requires n <= |run| && DeletedAfter(run[..n], expiresAt)
    ensures DeletedAfter(run, expiresAt)
  {
    var d :| 0 <= d < n && run[..n][d].Delete? && expiresAt < run[..n][d].before;
    assert run[d] == run[..n][d];
  }

  lemma {:induction false} CleanupSimulates(run: seq<Statement>)
    requires FreshNonces(run)
    ensures Thinned(After(run), AfterKept(run)) && Recorded(run, AfterKept(run))
    ensures GoneExpired(run, After(run), AfterKept(run))
  {
    if run != [] {
      var n := |run| - 1;
      var db, kept := After(run[..n]), AfterKept(run[..n]);
      CleanupSimulates(run[..n]);
      RecordedStep(run);
      assert run[n].Insert? ==> run[n].rec.nonce !in kept.challenges by {
        assert run[n].Insert? ==> !WasInserted(run[..n], run[n].rec.nonce);
      }
      ThinnedStep(db, kept, run[n]);
      forall nonce | nonce in AfterKept(run).challenges && nonce !in After(run).challenges
        ensures DeletedAfter(run, AfterKept(run).challenges[nonce].expiresAt)
      {
        GoneStep(db, kept, run[n], nonce);
        if nonce !in db.challenges {
          DeletedAfterGrows(run, n, kept.challenges[nonce].expiresAt);
        }
      }
    }
  }

  /** Statement h tries to record the nonce. */
  predicate Recording(run: seq<Statement>, h: int, nonce: string) {
    0 <= h < |run| && run[h].Insert? && run[h].rec.nonce == nonce
  }

  /** Statement k tries to consume the nonce, no later than the given expiry. */
  predicate InTime(run: seq<Statement>, k: int, nonce: string, expiresAt: int) {
    0 <= k < |run| && run[k].Update? && run[k].nonce == nonce && run[k].now <= expiresAt
  }

  predicate NoneInTime(run: seq<Statement>, h: int, nonce: string, expiresAt: int) {
    forall k :: h < k < |run| ==> !InTime(run, k, nonce, expiresAt)
  }

  /** Statement d is a cleanup that a row of the given expiry does not survive. */
  predicate Reaps(run: seq<Statement>, d: int, expiresAt: int) {
    0 <= d < |run| && run[d].Delete? && expiresAt < run[d].before
  }

  /** Read off the schedule: UPDATE i is the first in time for recording h, but cleanup d came between. */
  predicate LostTo(run: seq<Statement>, h: int, d: int, i: int)
    requires 0 <= i < |run| && run[i].Update?
  {
    && 0 <= h < d < i
    && Recording(run, h, run[i].nonce)
    && Reaps(run, d, run[h].rec.expiresAt)
    && InTime(run, i, run[i].nonce, run[h].rec.expiresAt)
    && forall k :: h < k < i ==> !InTime(run, k, run[i].nonce, run[h].rec.expiresAt)
  }

  lemma RecordedOnce(run: seq<Statement>, h: nat, nonce: string)
    requires FreshNonces(run) && Recording(run, h, nonce)
    ensures nonce !in AfterKept(run[..h]).challenges && nonce !in After(run[..h]).challenges
  {
    CleanupSimulates(run[..h]);
    forall i | 0 <= i < h && run[..h][i].Insert? ensures run[..h][i].rec.nonce != nonce {
      assert run[i] == run[..h][i];
    }
    assert !WasInserted(run[..h], nonce);
  }

  /** Without cleanup a recorded row stays, and is open until the first UPDATE in time for it. */
  lemma {:induction false} KeptRow(run: seq<Statement>, h: nat, nonce: string)
    requires FreshNonces(run) && Recording(run, h, nonce)
    ensures nonce in AfterKept(run).challenges
    ensures AfterKept(run).challenges[nonce].expiresAt == run[h].rec.expiresAt
    ensures Open(AfterKept(run), nonce) <==> NoneInTime(run, h, nonce, run[h].rec.expiresAt)
  {
    var n := |run| - 1;
    if n == h {
      RecordedOnce(run, h, nonce);
    } else {
      KeptRow(run[..n], h, nonce);
      OneMoreTry(run, h, nonce, run[h].rec.expiresAt);
      assert run[n].Insert? ==> run[n].rec.nonce != nonce;
    }
  }

  lemma OneMoreTry(run: seq<Statement>, h: nat, nonce: string, expiresAt: int)
    requires h < |run| - 1
    ensures NoneInTime(run, h, nonce, expiresAt)
       <==> NoneInTime(run[..|run| - 1], h, nonce, expiresAt) && !InTime(run, |run| - 1, nonce, expiresAt)
  {
    var n := |run| - 1;
    forall k | h < k < n ensures InTime(run[..n], k, nonce, expiresAt) <==> InTime(run, k, nonce, expiresAt) {
      assert run[..n][k] == run[k];
    }
  }

  lemma DeleteDrops(db: Db, kept: Db, nonce: string, before: int)
    requires Thinned(db, kept) && nonce in kept.challenges && kept.challenges[nonce].expiresAt < before
    ensures nonce !in Apply(db, Delete(before)).challenges
  {
  }

  lemma {:induction false} StaysGone(run: seq<Statement>, h: nat, d: nat, nonce: string)
    requires FreshNonces(run) && Recording(run, h, nonce) && h < d && Reaps(run, d, run[h].rec.expiresAt)
    ensures nonce !in After(run).challenges
  {
    var n := |run| - 1;
    if d < n {
      StaysGone(run[..n], h, d, nonce);
      assert run[n].Insert? ==> run[n].rec.nonce != nonce;
    } else {
      CleanupSimulates(run[..n]);
      KeptRow(run[..n], h, nonce);
      DeleteDrops(After(run[..n]), AfterKept(run[..n]), nonce, run[d].before);
    }
  }

  /** With cleanup a recorded row is gone exactly when a cleanup since found it expired. */
  lemma RowGone(run: seq<Statement>, h: nat, nonce: string)
    requires FreshNonces(run) && Recording(run, h, nonce)
    ensures nonce !in After(run).challenges <==> exists d :: h < d && Reaps(run, d, run[h].rec.expiresAt)
  {
    if nonce !in After(run).challenges {
      RecordedOnce(run, h, nonce);
      var d := GoneWasExpired(run, h, nonce);
      assert Reaps(run, d, run[h].rec.expiresAt);
    }
    if d :| h < d && Reaps(run, d, run[h].rec.expiresAt) {
      StaysGone(run, h, d, nonce);
    }
  }

  /** An UPDATE of a nonce recorded at h is lost exactly when a cleanup since makes it so. */
  lemma LostExactly(run: seq<Statement>, h: nat, i: nat)
    requires FreshNonces(run) && h < i < |run| && run[i].Update? && Recording(run, h, run[i].nonce)
    ensures var nonce, now := run[i].nonce, run[i].now;
      Consumable(AfterKept(run[..i]), nonce, now) && !Consumable(After(run[..i]), nonce, now)
      <==> exists d :: LostTo(run, h, d, i)
  {
    var pre, nonce, expiresAt := run[..i], run[i].nonce, run[h].rec.expiresAt;
    assert pre[h] == run[h];
    CleanupSimulates(pre);
    KeptRow(pre, h, nonce);
    RowGone(pre, h, nonce);
    forall k | 0 <= k < i
      ensures InTime(pre, k, nonce, expiresAt) <==> InTime(run, k, nonce, expiresAt)
      ensures Reaps(pre, k, expiresAt) <==> Reaps(run, k, expiresAt)
    {
      assert pre[k] == run[k];
    }
    if d :| h < d && Reaps(pre, d, expiresAt) {
      assert Reaps(run, d, expiresAt);
      if Consumable(AfterKept(pre), nonce, run[i].now) {
        assert LostTo(run, h, d, i);
      }
    }
    if d :| LostTo(run, h, d, i) {
      assert Reaps(pre, d, expiresAt);
    }
  }

  /**
   Cleanup can only turn a consumption into a failure, never change what it returns; and which
   consumptions it does fail reads off the schedule: the first UPDATE in time for a recording, when a
   cleanup in between ran with a time past the row's expiry.
   */
  lemma CleanupInvisibleExact(run: seq<Statement>, i: nat)
    requires FreshNonces(run) && i < |run| && run[i].Update?
    ensures var got := Consume(After(run[..i]), run[i].nonce, run[i].now).1;
      var kept := Consume(AfterKept(run[..i]), run[i].nonce, run[i].now).1;
      && (got.Some? ==> kept == got)
      && (got != kept <==> exists h, d :: LostTo(run, h, d, i))
  {
    var nonce, now := run[i].nonce, run[i].now;
    CleanupSimulates(run[..i]);
    if Consumable(AfterKept(run[..i]), nonce, now) {
      assert WasInserted(run[..i], nonce);
      var h :| 0 <= h < i && run[..i][h].Insert? && run[..i][h].rec.nonce == nonce;
      assert run[h] == run[..i][h];
      LostExactly(run, h, i);
      forall g, d | LostTo(run, g, d, i) ensures g == h {
        assert run[g].Insert?;
      }
    }
    if h, d :| LostTo(run, h, d, i) {
      LostExactly(run, h, i);
    }
  }

  /** No consumption carries a time older than a cleanup that ran before it. */
  predicate Prompt(run: seq<Statement>) {
    forall d, i :: 0 <= d < i < |run| && run[d].Delete? && run[i].Update? ==> run[d].before <= run[i].now
  }

  /** So cleanup is invisible when no handler's clock reading is older than an earlier cleanup's. */
  lemma CleanupInvisible(run: seq<Statement>, i: nat)
    requires FreshNonces(run) && i < |run| && run[i].Update? && Prompt(run)
    ensures Consume(After(run[..i]), run[i].nonce, run[i].now).1
         == Consume(AfterKept(run[..i]), run[i].nonce, run[i].now).1
  {
    CleanupInvisibleExact(run, i);
  }

  /** Such schedules exist: a handler that read its clock before a cleanup and consumes after it loses a live row. */
  lemma StaleClockLosesRow(rec: ChallengeRecord)
    ensures var run := [Insert(rec), Delete(rec.expiresAt + 1), Update(rec.nonce, rec.expiresAt)];
      && FreshNonces(run) && !Prompt(run)
      && Consume(After(run[..2]), rec.nonce, rec.expiresAt).1.None?
      && Consume(AfterKept(run[..2]), rec.nonce, rec.expiresAt).1.Some?
  {
    var run := [Insert(rec), Delete(rec.expiresAt + 1), Update(rec.nonce, rec.expiresAt)];
    assert run[..2] == [run[0], run[1]] && run[..2][..1] == [run[0]] && [run[0]][..0] == [];
    assert run[1].Delete? && run[2].Update?;
    assert After([run[0]]) == Db(map[rec.nonce := RowOf(rec)], map[]);
    assert AfterKept([run[0]]) == Db(map[rec.nonce := RowOf(rec)], map[]);
  }

  /** So are fresh nonces: once cleanup has dropped a row, its nonce could be recorded, and consumed, again. */
  lemma ReusedNonceConsumedAgain(rec: ChallengeRecord, again: ChallengeRecord, now: int)
    requires rec.nonce == again.nonce && rec.expiresAt < now <= again.expiresAt
    ensures var run := [Insert(rec), Delete(now), Insert(again), Update(rec.nonce, now)];
      && !FreshNonces(run) && Prompt(run)
      && Consume(After(run[..3]), rec.nonce, now).1.Some?
      && Consume(AfterKept(run[..3]), rec.nonce, now).1.None?
  {
    var run := [Insert(rec), Delete(now), Insert(again), Update(rec.nonce, now)];
    assert run[0].Insert? && run[2].Insert?;
    assert run[..3] == [run[0], run[1], run[2]] && run[..3][..2] == [run[0], run[1]];
    assert [run[0], run[1]][..1] == [run[0]] && [run[0]][..0] == [];
    assert After([run[0]]) == AfterKept([run[0]]) == Db(map[rec.nonce := RowOf(rec)], map[]);
    assert After([run[0], run[1]]) == EMPTY;
    assert AfterKept([run[0], run[1]]) == Db(map[rec.nonce := RowOf(rec)], map[]);
  }
}
