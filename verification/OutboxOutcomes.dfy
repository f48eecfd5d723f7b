/** What single steps of the outbox do, in terms of rows, phases and numbers. */
module OutboxOutcomes {
  import opened Common
  import opened OutboxTable
  import opened OutboxProtocol
  import Backoff

  /** The handler's verdict: an order.created event is handled if its workflow returns, the two other
      known types always are, any other type never is. */
  lemma HandlerVerdict(cfg: Config, s: System, w: nat, handlerOk: bool)
    requires At(s, w, Dispatching)
    ensures var c := Current(s, w); var e := c.event.eventType; var s' := Apply(cfg, s, EndDispatch(w, handlerOk));
            && s'.db == s.db && w in s'.workers && s'.workers[w].batch == s.workers[w].batch
            && (s'.workers[w].phase == Recording
                <==> e == "order.status_changed" || e == "media.generated" || (e == "order.created" && handlerOk))
            && (s'.workers[w].phase != Recording ==> s'.workers[w].phase == Releasing && s'.handled == s.handled)
            && (s'.workers[w].phase == Recording ==> s'.handled == s.handled + {c.Key()})
  {
    hide HandlerKey;
  }

  /** Each selected row is in processing under the token until the lease ends, one fencing number further on;
      nothing else changed. */
  ghost predicate Leased(rows: seq<Row>, rows': seq<Row>, ids: seq<nat>, token: nat, expiresAt: nat) {
    && |rows'| == |rows|
    && forall i | 0 <= i < |rows| :: var r := rows[i];
         rows'[i] == if i !in ids then r
                     else Row(r.event, Processing, r.attempts, r.nextRetryAt, r.processedAt, Some(token),
                              Some(expiresAt), r.fencing + 1, r.createdAt)
  }

  /** What the worker remembers of them. */
  ghost predicate Remembers(rows: seq<Row>, batch: seq<Claim>, ids: seq<nat>, token: nat) {
    && |batch| == |ids|
    && forall k | 0 <= k < |ids| :: ids[k] < |rows| && var r := rows[ids[k]];
         batch[k] == Claim(token, ids[k], r.event, r.attempts, r.fencing + 1)
  }

  lemma LeasedAndRemembered(db: Db, ids: seq<nat>, limit: nat, locked: set<nat>, expiresAt: nat)
    requires IsSelection(db, ids, limit, locked)
    ensures Leased(db.rows, ClaimRows(db.rows, ids, db.freshToken, expiresAt), ids, db.freshToken, expiresAt)
    ensures forall k | 0 <= k < |ids| :: ids[k] < |db.rows|
    ensures Remembers(db.rows, ClaimsOf(db.rows, ids, db.freshToken), ids, db.freshToken)
  {
    hide Distinct;
  }

  /** A claim leases the selected rows to the worker under its fresh token; the worker starts with the first. */
  lemma ClaimOutcome(cfg: Config, s: System, w: nat, ids: seq<nat>, limit: nat, locked: set<nat>, localNow: nat)
    requires w !in s.workers && ids != [] && IsSelection(s.db, ids, limit, locked)
    ensures var s' := Apply(cfg, s, ClaimBatch(w, ids, limit, locked, localNow)); var token := s.db.freshToken;
            && Leased(s.db.rows, s'.db.rows, ids, token, localNow + cfg.leaseMs)
            && w in s'.workers && s'.workers == s.workers[w := s'.workers[w]] && s'.workers[w].phase == Reserving
            && Remembers(s.db.rows, s'.workers[w].batch, ids, token)
            && s'.claims == s.claims + s'.workers[w].batch
            && s'.db.ledger == s.db.ledger && s'.db.now == s.db.now && s'.db.freshToken == token + 1
  {
    hide IsSelection, Leased, Remembers, ClaimRows, ClaimsOf;
    LeasedAndRemembered(s.db, ids, limit, locked, localNow + cfg.leaseMs);
  }

  /** What the environment does: time passes, business transactions insert pending rows, workers vanish and
      operators reset rows, a dead letter only through requeue. */
  lemma EnvironmentSteps(cfg: Config, s: System, ms: nat, e: Business, w: nat, id: nat)
    ensures Apply(cfg, s, Tick(ms)) == s.(db := s.db.(now := s.db.now + ms))
    ensures Apply(cfg, s, Insert(e))
            == s.(db := s.db.(rows := s.db.rows + [Row(e, Pending, 0, None, None, None, None, 0, s.db.now)]))
    ensures Apply(cfg, s, Crash(w)) == s.(workers := s.workers - {w})
    ensures id < |s.db.rows| ==>
              var r := s.db.rows[id];
              var reset := s.(db := s.db.(rows := s.db.rows[id := Row(r.event, Pending, 0, None, None, None, None,
                                                                      r.fencing, r.createdAt)]),
                              resets := s.resets + 1);
              && Apply(cfg, s, ManualRetry(id)) == reset
              && Apply(cfg, s, ManualRequeue(id)) == if r.status == DeadLetter then reset else s
    ensures id >= |s.db.rows| ==> Apply(cfg, s, ManualRetry(id)) == s && Apply(cfg, s, ManualRequeue(id)) == s
  {
  }

  /** The histories record what happened: a mark exactly when one changed a row, a started dispatch exactly
      when a worker enters a handler. */
  lemma HistoryIsExact(cfg: Config, s: System, a: Action)
    ensures var s' := Apply(cfg, s, a);
            && s'.marks == s.marks + (if (a.MarkDone? || a.MarkFail?) && s'.db.rows != s.db.rows then [Current(s, a.w)]
                                      else [])
            && s'.starts == s.starts + (if a.Reserve? && !At(s, a.w, Dispatching) && At(s', a.w, Dispatching)
                                        then [Current(s, a.w).Key()] else [])
  {
    hide HandlerKey, IsSelection, ClaimDb, ClaimsOf, ReserveDb, RecordDb, ReleaseDb, MarkProcessedDb, FailDb;
    match a
    case MarkDone(w, _) => if At(s, w, MarkingDone) { MarkChangesRows(cfg, s.db, Current(s, w), 0, 0); }
    case MarkFail(w, _, localNow, jitter) =>
      if At(s, w, MarkingFailed) { MarkChangesRows(cfg, s.db, Current(s, w), localNow, jitter); }
    case _ =>
  }

  lemma MarkChangesRows(cfg: Config, db: Db, c: Claim, localNow: nat, jitter: nat)
    ensures Effective(db, c) <==> MarkProcessedDb(db, c.id, Some(c.token)).rows != db.rows
    ensures Effective(db, c) <==> FailDb(cfg, db, c, localNow, jitter).rows != db.rows
  {
    hide Backoff.Jittered;
    if Effective(db, c) {
      assert MarkProcessedDb(db, c.id, Some(c.token)).rows[c.id].leaseToken.None?;
      assert FailDb(cfg, db, c, localNow, jitter).rows[c.id].leaseToken.None?;
    }
  }

  /** A statement that was applied though its client got an error leaves the tables of a success and the
      worker of a failure; one lost before it took effect leaves the tables alone. */
  lemma LostLedgerWrite(cfg: Config, s: System, w: nat)
    ensures LikeSuccessAndFailure(s, Apply(cfg, s, Reserve(w, Done)), Apply(cfg, s, Reserve(w, LostBefore)),
                                  Apply(cfg, s, Reserve(w, LostAfter)))
    ensures LikeSuccessAndFailure(s, Apply(cfg, s, Record(w, Done)), Apply(cfg, s, Record(w, LostBefore)),
                                  Apply(cfg, s, Record(w, LostAfter)))
    ensures LikeSuccessAndFailure(s, Apply(cfg, s, Release(w, Done)), Apply(cfg, s, Release(w, LostBefore)),
                                  Apply(cfg, s, Release(w, LostAfter)))
  {
    hide HandlerKey, ReserveDb, RecordDb, ReleaseDb;
  }

  /** The same of the two marks. */
  lemma LostMark(cfg: Config, s: System, w: nat, localNow: nat, jitter: nat)
    ensures LikeSuccessAndFailure(s, Apply(cfg, s, MarkDone(w, Done)), Apply(cfg, s, MarkDone(w, LostBefore)),
                                  Apply(cfg, s, MarkDone(w, LostAfter)))
    ensures LikeSuccessAndFailure(s, Apply(cfg, s, MarkFail(w, Done, localNow, jitter)),
                                  Apply(cfg, s, MarkFail(w, LostBefore, localNow, jitter)),
                                  Apply(cfg, s, MarkFail(w, LostAfter, localNow, jitter)))
  {
    hide HandlerKey, MarkProcessedDb, FailDb, Effective;
  }

  predicate LikeSuccessAndFailure(s: System, done: System, before: System, after: System) {
    after.db == done.db && after.workers == before.workers && before.db == s.db
  }

  /** A failed workflow is neither recorded nor counted as handled. */
  lemma FailedWorkflowIsReleased(cfg: Config, s: System, w: nat)
    requires At(s, w, Dispatching) && Current(s, w).event.eventType == "order.created"
    ensures var s' := Apply(cfg, s, EndDispatch(w, false));
            At(s', w, Releasing) && s'.handled == s.handled && s'.db == s.db
  {
    hide HandlerKey;
  }

  /** Only the row of the claim changed. */
  predicate OnlyRow(rows: seq<Row>, rows': seq<Row>, id: nat) {
    |rows'| == |rows| && forall i | 0 <= i < |rows| && i != id :: rows'[i] == rows[i]
  }

  /** A failure below the limit schedules the next attempt: the row is due from the given time plus the
      doubled, capped and jittered delay on, not earlier and not later. */
  lemma FailureSchedulesRetry(cfg: Config, s: System, w: nat, localNow: nat, jitter: nat, at: nat)
    requires At(s, w, MarkingFailed)
    requires var c := Current(s, w); c.id < |s.db.rows| && s.db.rows[c.id].leaseToken == Some(c.token)
    requires Current(s, w).attempts + 1 < cfg.maxAttempts
    ensures var c := Current(s, w); var r := s.db.rows[c.id];
            var db' := Apply(cfg, s, MarkFail(w, Done, localNow, jitter)).db;
            var d := Min(Min(cfg.baseMs * Pow2(c.attempts), cfg.capMs) + jitter, cfg.capMs);
            && OnlyRow(s.db.rows, db'.rows, c.id) && db'.ledger == s.db.ledger && db'.now == s.db.now
            && db'.rows[c.id]
               == Row(r.event, Failed, c.attempts + 1, Some(localNow + d), None, None, None, r.fencing, r.createdAt)
            && (IsDue(db'.rows[c.id], at) <==> at >= localNow + d)
  {
    hide Pow2;
  }

  /** The last failure makes the row a dead letter. */
  lemma LastFailureIsFinal(cfg: Config, s: System, w: nat, localNow: nat, jitter: nat, at: nat)
    requires At(s, w, MarkingFailed)
    requires var c := Current(s, w); c.id < |s.db.rows| && s.db.rows[c.id].leaseToken == Some(c.token)
    requires Current(s, w).attempts + 1 >= cfg.maxAttempts
    ensures var c := Current(s, w); var r := s.db.rows[c.id];
            var db' := Apply(cfg, s, MarkFail(w, Done, localNow, jitter)).db;
            && OnlyRow(s.db.rows, db'.rows, c.id) && db'.ledger == s.db.ledger && db'.now == s.db.now
            && db'.rows[c.id]
               == Row(r.event, DeadLetter, c.attempts + 1, None, None, None, None, r.fencing, r.createdAt)
            && !IsDue(db'.rows[c.id], at)
  {
  }

  /** A success is final, and stamped with the database's time. */
  lemma SuccessIsFinal(cfg: Config, s: System, w: nat, at: nat)
    requires At(s, w, MarkingDone)
    requires var c := Current(s, w); c.id < |s.db.rows| && s.db.rows[c.id].leaseToken == Some(c.token)
    ensures var c := Current(s, w); var r := s.db.rows[c.id]; var db' := Apply(cfg, s, MarkDone(w, Done)).db;
            && OnlyRow(s.db.rows, db'.rows, c.id) && db'.ledger == s.db.ledger && db'.now == s.db.now
            && db'.rows[c.id]
               == Row(r.event, Processed, r.attempts, None, Some(s.db.now), None, None, r.fencing, r.createdAt)
            && !IsDue(db'.rows[c.id], at)
  {
  }
}
