/** The session operations of AuthService and the hourly clean-up job, over a mutable table. */
module SessionService {
  import opened Wrappers
  import opened Sessions

  /** user_sessions, with the clock and the advisory lock of the database it lives in. */
  /** The ids of the rows whose time was over at `now`, active or not. */
  ghost function Overdue(rows: Table, now: int): set<SessionId> {
    set id | id in rows && rows[id].expiresAt < now
  }

  /** The table kept exactly its rows whose time was not over, as they were. */
  ghost predicate KeptTheRest(kept: Table, rows: Table, now: int) {
    && (forall id :: id in kept <==> id in rows && !(rows[id].expiresAt < now))
    && (forall id :: id in kept ==> kept[id] == rows[id])
  }

  class SessionTable {
    var now: int
    var sessions: Table
    var advisoryLock: bool

    ghost function Contents(): Store
      reads this
    {
      Store(now, sessions)
    }

    constructor ()
      ensures Contents() == EmptyStore() && !advisoryLock
    {
      now, sessions, advisoryLock := 0, map[], false;
    }

    /** DELETE ... WHERE id IN (SELECT id ... WHERE expired LIMIT n): some n expired rows, or all. */
    method DeleteExpiredBatch(limit: nat) returns (deleted: set<SessionId>)
      modifies `sessions
      ensures deleted <= old(Expired(Contents()))
      ensures deleted <= Overdue(old(sessions), now)
      ensures |deleted| < limit ==> KeptTheRest(sessions, old(sessions), now)
      ensures |deleted| == if |old(Expired(Contents()))| < limit then |old(Expired(Contents()))| else limit
      ensures sessions == old(sessions) - deleted
    {
      deleted := {};
      var candidates := set id | id in sessions && sessions[id].expiresAt < now;
      while |deleted| < limit && candidates != {}
        invariant deleted !! candidates && deleted + candidates == Expired(Contents())
        invariant |deleted| <= limit
        decreases |candidates|
      {
        var id :| id in candidates;
        deleted, candidates := deleted + {id}, candidates - {id};
      }
      assert |deleted + candidates| == |deleted| + |candidates|;
      sessions := sessions - deleted;
    }
  }

  /** `reason || byDefault` */
  function ReasonOr(reason: Option<string>, byDefault: string): string {
    if reason.Some? && reason.value != "" then reason.value else byDefault
  }

  class AuthService {
    const table: SessionTable

    constructor (table: SessionTable)
      ensures this.table == table
    {
      this.table := table;
    }

    method CreateSession(id: SessionId, user: UserId, token: Token, expiresAt: int) returns (stored: bool)
      modifies table`sessions
      ensures table.Contents() == Step(old(table.Contents()), Login(id, user, token, expiresAt))
      ensures stored <==> id !in old(table.sessions) && forall x :: x in old(table.sessions) ==> old(table.sessions)[x].refreshToken != token
      ensures table.sessions == if stored then old(table.sessions)[id := Session(user, token, expiresAt, true, table.now, None, None)]
                                else old(table.sessions)
    {
      stored := id !in table.sessions && !(exists x :: x in table.sessions && table.sessions[x].refreshToken == token);
      if stored {
        table.sessions := table.sessions[id := Session(user, token, expiresAt, true, table.now, None, None)];
      }
    }

    /** Every failure surfaces as the same Unauthorized error, so the answer is a yes or no. The
        token column is unique, which makes the row found the only one it could be. */
    method RefreshToken(token: Token, claim: Option<UserId>, users: set<UserId>) returns (ok: bool)
      requires UniqueTokens(table.sessions)
      modifies table`sessions
      ensures (table.Contents(), ok) == Refresh(old(table.Contents()), token, claim, users)
      ensures RowsRefreshed(table.sessions, old(table.sessions), table.now, token, claim, users)
    {
      RefreshInColumns(table.Contents(), token, claim, users);
      if claim.None? { return false; }
      if !exists x :: x in table.sessions && table.sessions[x].refreshToken == token && table.sessions[x].isActive {
        FindActiveNone(table.sessions, token);
        return false;
      }
      var id :| id in table.sessions && table.sessions[id].refreshToken == token && table.sessions[id].isActive;
      FindActiveIs(table.sessions, token, id);
      if table.sessions[id].expiresAt < table.now {
        RevokeSession(id, Some("token_expired"));
        return false;
      }
      if claim.value !in users { return false; }
      table.sessions := table.sessions[id := table.sessions[id].(lastUsedAt := table.now)];
      ok := true;
    }

    method RevokeSession(id: SessionId, reason: Option<string>)
      modifies table`sessions
      ensures table.Contents() == Step(old(table.Contents()), RevokeById(id, ReasonOr(reason, "manual_logout")))
      ensures table.sessions.Keys == old(table.sessions).Keys
      ensures forall x :: x in table.sessions ==>
                table.sessions[x] == if x == id
                  then Ended(old(table.sessions)[x], table.now, if reason in {None, Some("")} then "manual_logout" else reason.value)
                  else old(table.sessions)[x]
    {
      if id in table.sessions {
        table.sessions := table.sessions[id := Revoked(table.sessions[id], table.now, ReasonOr(reason, "manual_logout"))];
      }
    }

    method RevokeSessionByRefreshToken(token: Token, reason: Option<string>)
      modifies table`sessions
      ensures table.Contents() == Step(old(table.Contents()), RevokeByToken(token, ReasonOr(reason, "manual_logout")))
      ensures table.sessions.Keys == old(table.sessions).Keys
      ensures forall x :: x in table.sessions ==>
                table.sessions[x] == if old(table.sessions)[x].refreshToken == token
                  then Ended(old(table.sessions)[x], table.now, if reason in {None, Some("")} then "manual_logout" else reason.value)
                  else old(table.sessions)[x]
    {
      table.sessions := map id | id in table.sessions ::
        if table.sessions[id].refreshToken == token then Revoked(table.sessions[id], table.now, ReasonOr(reason, "manual_logout")) else table.sessions[id];
    }

    method RevokeAllUserSessions(user: UserId, reason: Option<string>)
      modifies table`sessions
      ensures table.Contents() == Step(old(table.Contents()), RevokeAllOf(user, ReasonOr(reason, "logout_all")))
      ensures table.sessions.Keys == old(table.sessions).Keys
      ensures forall x :: x in table.sessions ==>
                table.sessions[x] == if old(table.sessions)[x].userId == user && old(table.sessions)[x].isActive == true
                  then Ended(old(table.sessions)[x], table.now, if reason in {None, Some("")} then "logout_all" else reason.value)
                  else old(table.sessions)[x]
    {
      table.sessions := map id | id in table.sessions ::
        if table.sessions[id].userId == user && table.sessions[id].isActive then Revoked(table.sessions[id], table.now, ReasonOr(reason, "logout_all"))
        else table.sessions[id];
    }

    method CleanupExpiredSessions(user: Option<UserId>)
      modifies table`sessions
      ensures table.Contents() == Step(old(table.Contents()), Cleanup(ExpiredOf(old(table.Contents()), user)))
      ensures forall id :: id in table.sessions <==>
                id in old(table.sessions)
                && !(old(table.sessions)[id].expiresAt < table.now && user in {None, Some(""), Some(old(table.sessions)[id].userId)})
      ensures forall id :: id in table.sessions ==> table.sessions[id] == old(table.sessions)[id]
    {
      table.sessions := map id | id in table.sessions &&
        !(table.sessions[id].expiresAt < table.now && (user.None? || user.value == "" || table.sessions[id].userId == user.value)) :: table.sessions[id];
    }
  }

  /** Where a query of the clean-up job throws: at the lock, or at its k-th delete (from 0). */
  datatype CronFault = NoFault | AtLock | AtBatch(k: nat)

  const BATCH_SIZE := 1000

  class CleanExpiredSessionsCron {
    const table: SessionTable

    constructor (table: SessionTable)
      ensures this.table == table
    {
      this.table := table;
    }

    /** The do-while loop. With n expired rows and no failure it makes n/1000 + 1 deletes, the last
        one not full, and removes all of them; a failing delete leaves the full batches before it. */
    method DeleteInBatches(fault: CronFault) returns (crashed: bool, totalDeleted: nat, batches: nat, ghost gone: set<SessionId>)
      modifies table`sessions
      ensures gone <= Expired(old(table.Contents())) && table.Contents() == old(table.Contents()).(sessions := old(table.sessions) - gone)
      ensures totalDeleted == |gone|
      ensures var n := |Expired(old(table.Contents()))|;
              && (crashed <==> fault.AtBatch? && fault.k <= n / BATCH_SIZE)
              && (crashed ==> batches == fault.k && totalDeleted == BATCH_SIZE * fault.k)
              && (!crashed ==> batches == n / BATCH_SIZE + 1 && gone == Expired(old(table.Contents())))
      ensures !crashed ==> Expired(table.Contents()) == {}
      ensures table.now == old(table.now) && gone <= Overdue(old(table.sessions), table.now)
      ensures !crashed ==> KeptTheRest(table.sessions, old(table.sessions), table.now)
      ensures !crashed ==> totalDeleted == |Overdue(old(table.sessions), table.now)|
    {
      ghost var was := table.Contents();
      ghost var all := Expired(was);
      totalDeleted, batches, gone := 0, 0, {};
      assert table.sessions == was.sessions - gone;
      while true
        invariant gone <= all && table.Contents() == Store(was.now, was.sessions - gone)
        invariant totalDeleted == |gone| == BATCH_SIZE * batches <= |all|
        invariant fault.AtBatch? ==> batches <= fault.k
        decreases |all| - |gone|
      {
        if fault == AtBatch(batches) {
          BatchesFit(|all|, batches);
          DeletedInColumns(was, gone);
          return true, totalDeleted, batches, gone;
        }
        ExpiredAfter(was, gone);
        var deleted := table.DeleteExpiredBatch(BATCH_SIZE);
        BatchGrows(all, gone, deleted);
        SubtractTwice(was.sessions, gone, deleted);
        totalDeleted, batches, gone := totalDeleted + |deleted|, batches + 1, gone + deleted;
        if |deleted| < BATCH_SIZE {
          BatchCount(|all|, batches - 1, |deleted|);
          break;
        }
      }
      ExpiredAfter(was, gone);
      DeletedInColumns(was, gone);
      crashed := false;
    }

    /** Some expired rows gone, or all of them, in the columns of the table. */
    lemma DeletedInColumns(was: Store, gone: set<SessionId>)
      requires gone <= Expired(was)
      ensures gone <= Overdue(was.sessions, was.now)
      ensures gone == Expired(was) ==> gone == Overdue(was.sessions, was.now) && KeptTheRest(was.sessions - gone, was.sessions, was.now)
    {
    }

    lemma SubtractTwice(rows: Table, gone: set<SessionId>, deleted: set<SessionId>)
      ensures rows - gone - deleted == rows - (gone + deleted)
    {
    }

    lemma BatchesFit(n: nat, k: nat)
      requires BATCH_SIZE * k <= n
      ensures k <= n / BATCH_SIZE
    {
    }

    lemma BatchCount(n: nat, full: nat, last: nat)
      requires n == BATCH_SIZE * full + last && last < BATCH_SIZE
      ensures n / BATCH_SIZE == full
    {
    }

    lemma ExpiredAfter(st: Store, gone: set<SessionId>)
      ensures Expired(Store(st.now, st.sessions - gone)) == Expired(st) - gone
    {
    }

    lemma BatchGrows(all: set<SessionId>, gone: set<SessionId>, deleted: set<SessionId>)
      requires gone <= all && deleted <= all - gone
      requires |deleted| == if |all - gone| < BATCH_SIZE then |all - gone| else BATCH_SIZE
      ensures gone + deleted <= all && |gone + deleted| == |gone| + |deleted| <= |all|
      ensures |deleted| < BATCH_SIZE ==> gone + deleted == all
    {
      var left := all - gone - deleted;
      assert all == gone + deleted + left && gone !! deleted && (gone + deleted) !! left;
      assert all - gone == deleted + left;
    }

    /** Runs only when the advisory lock is free, and gives it back on every path: whatever throws,
        the lock is afterwards as it was before, released exactly if it was acquired. The exception
        is the unlock itself: when it throws out of the `finally`, an acquired lock stays taken.
        What is deleted is a clean-up of expired rows; when no query before that throws it is all. */
    method HandleExpiredSessionsCleanup(fault: CronFault, unlockThrows: bool)
      returns (acquired: bool, released: bool, threw: bool, totalDeleted: nat, batches: nat, ghost gone: set<SessionId>)
      modifies table
      ensures acquired <==> fault != AtLock && !old(table.advisoryLock)
      ensures released <==> acquired && !unlockThrows
      ensures threw <==> acquired && unlockThrows
      ensures table.advisoryLock <==> old(table.advisoryLock) || threw
      ensures table.Contents() == Step(old(table.Contents()), Cleanup(gone)) && gone <= Expired(old(table.Contents()))
      ensures !acquired ==> gone == {} && batches == 0
      ensures totalDeleted == |gone|
      ensures acquired && fault.NoFault? ==>
                && gone == Expired(old(table.Contents())) && Expired(table.Contents()) == {}
                && batches == |Expired(old(table.Contents()))| / BATCH_SIZE + 1
      ensures acquired && fault.NoFault? ==>
                && totalDeleted == |Overdue(old(table.sessions), table.now)| && batches == totalDeleted / 1000 + 1
                && KeptTheRest(table.sessions, old(table.sessions), table.now)
      ensures table.now == old(table.now) && table.sessions == old(table.sessions) - gone && gone <= Overdue(old(table.sessions), table.now)
    {
      var lockAcquired := false;
      totalDeleted, batches, gone := 0, 0, {};
      if fault != AtLock {
        lockAcquired := !table.advisoryLock;
        table.advisoryLock := true;
        if lockAcquired {
          var _, t, n, g := DeleteInBatches(fault);
          totalDeleted, batches, gone := t, n, g;
        }
      }
      assert table.sessions == old(table.sessions) - (gone * Expired(old(table.Contents())));
      acquired, released, threw := lockAcquired, false, false;
      if lockAcquired {
        if unlockThrows {
          threw := true;
          return;
        }
        table.advisoryLock := false;
        released := true;
      }
    }
  }
}
