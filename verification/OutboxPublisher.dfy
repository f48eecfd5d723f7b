/** One publisher at work: the service's `handleEvent`, the worker's `processEvent` and
    `processDueBatch`, and how a pass over one event fits into the interleaved protocol. */
module OutboxPublisherModel {
  import opened Common
  import opened OutboxTable
  import opened OutboxProtocol
  import OutboxTheorems

  /** How the calls made for one event end. */
  datatype Turn = Turn(
    reserve: Outcome,
    inspect: Outcome,
    handlerOk: bool,
    record: Outcome,
    release: Outcome,
    done: Outcome,
    fail: Outcome,
    localNow: nat,
    jitter: nat)

  /** Every statement is acknowledged. */
  function Smooth(handlerOk: bool, localNow: nat, jitter: nat): Turn {
    Turn(Done, Done, handlerOk, Done, Done, Done, Done, localNow, jitter)
  }

  /** A statement that ends this way. */
  function After(outcome: Outcome, db: Db, db': Db): Db { if outcome.Applied() then db' else db }

  /** `handleEvent`: the tables, and whether it throws. */
  function Handled(db: Db, c: Claim, t: Turn): (Db, bool) {
    var key := c.Key();
    var reserved := After(t.reserve, db, ReserveDb(db, key));
    if t.reserve != Done then (reserved, true)
    else if key in db.ledger then (reserved, t.inspect != Done)
    else
      var recorded := if DispatchOk(c.event.eventType, t.handlerOk)
                      then After(t.record, reserved, RecordDb(reserved, key)) else reserved;
      if DispatchOk(c.event.eventType, t.handlerOk) && t.record == Done then (recorded, false)
      else (After(t.release, recorded, ReleaseDb(recorded, key)), true)
  }

  /** What a call of `handleEvent` leaves behind, case by case: the reservation fails; the key is taken; the
      handler returns and is recorded; recording fails; the handler throws. */
  predicate HandledLikeThis(ledger: map<Key, LedgerStatus>, ledger': map<Key, LedgerStatus>, key: Key,
                            eventType: string, t: Turn, threw: bool)
  {
    var ends := eventType == "order.status_changed" || eventType == "media.generated"
                || (eventType == "order.created" && t.handlerOk);
    var held := ledger[key := Reserved];
    if t.reserve == LostBefore then threw && ledger' == ledger
    else if t.reserve == LostAfter then threw && ledger' == (if key in ledger then ledger else held)
    else if key in ledger then ledger' == ledger && (threw <==> t.inspect != Done)
    else if ends && t.record == Done then !threw && ledger' == ledger[key := Recorded]
    else if ends && t.record == LostAfter then threw && ledger' == ledger[key := Recorded]
    else threw && ledger' == (if t.release == LostBefore then held else ledger)
  }

  lemma HandledCases(db: Db, c: Claim, t: Turn)
    ensures var (db', threw) := Handled(db, c, t);
            && db' == db.(ledger := db'.ledger)
            && HandledLikeThis(db.ledger, db'.ledger, c.Key(), c.event.eventType, t, threw)
  {
    hide HandlerKey;
    var key := c.Key();
    if key !in db.ledger {
      assert db.ledger[key := Reserved] - {key} == db.ledger;
    }
  }

  /** With every statement acknowledged and the key not in the ledger, the call throws exactly when the
      workflow of an order.created event threw or nobody handles the type; the key is recorded if it does
      not throw, and absent again if it does. */
  lemma ThrowsExactlyWhenHandlerFails(db: Db, c: Claim, t: Turn)
    requires t.reserve == Done && t.record == Done && t.release == Done && c.Key() !in db.ledger
    ensures var (db', threw) := Handled(db, c, t); var e := c.event.eventType;
            && (threw <==> (e == "order.created" && !t.handlerOk)
                           || (e != "order.created" && e != "order.status_changed" && e != "media.generated"))
            && (!threw ==> c.Key() in db'.ledger && db'.ledger[c.Key()] == Recorded)
            && (threw ==> c.Key() !in db'.ledger)
  {
    hide Handled;
    HandledCases(db, c, t);
  }

  datatype PassEnd = MarkedProcessed | MarkedFailed | Escaped

  /** One event: handled and marked, the tables and how the call returns. */
  function Pass(cfg: Config, db: Db, c: Claim, t: Turn): (Db, PassEnd) {
    var (handled, threw) := Handled(db, c, t);
    var marked := if threw then handled else After(t.done, handled, MarkProcessedDb(handled, c.id, Some(c.token)));
    if !threw && t.done == Done then (marked, MarkedProcessed)
    else (After(t.fail, marked, FailDb(cfg, marked, c, t.localNow, t.jitter)),
          if t.fail == Done then MarkedFailed else Escaped)
  }

  /** A pass over a leased row with every statement acknowledged: processed if the key was taken or the
      handler returned; otherwise failed with the next retry time, or dead at the limit. */
  lemma PassOutcome(cfg: Config, db: Db, c: Claim, handlerOk: bool, localNow: nat, jitter: nat)
    requires c.id < |db.rows| && db.rows[c.id].leaseToken == Some(c.token)
    ensures var (db', end) := Pass(cfg, db, c, Smooth(handlerOk, localNow, jitter));
            var r, e := db.rows[c.id], c.event.eventType;
            var ok := c.Key() in db.ledger || e == "order.status_changed" || e == "media.generated"
                      || (e == "order.created" && handlerOk);
            var d := Min(Min(cfg.baseMs * Pow2(c.attempts), cfg.capMs) + jitter, cfg.capMs);
            && |db'.rows| == |db.rows| && (forall i | 0 <= i < |db.rows| && i != c.id :: db'.rows[i] == db.rows[i])
            && end == (if ok then MarkedProcessed else MarkedFailed)
            && db'.rows[c.id]
               == if ok then Row(r.event, Processed, r.attempts, None, Some(db.now), None, None, r.fencing,
                                 r.createdAt)
                  else if c.attempts + 1 < cfg.maxAttempts
                  then Row(r.event, Failed, c.attempts + 1, Some(localNow + d), None, None, None, r.fencing,
                           r.createdAt)
                  else Row(r.event, DeadLetter, c.attempts + 1, None, None, None, None, r.fencing, r.createdAt)
  {
    hide HandlerKey, Pow2;
  }

  /** How a pass returns: processed when nothing threw up to the mark, escaping when the failure mark
      threw. */
  lemma PassReturns(cfg: Config, db: Db, c: Claim, t: Turn)
    ensures var threw := Handled(db, c, t).1; var end := Pass(cfg, db, c, t).1;
            && (end == MarkedProcessed <==> !threw && t.done == Done)
            && (end == Escaped <==> (threw || t.done != Done) && t.fail != Done)
  {
    hide Handled, FailDb;
  }

  /** A pass that returns has taken the lease off its row, and touched no other. */
  lemma PassUnleases(cfg: Config, db: Db, c: Claim, t: Turn)
    requires c.id < |db.rows|
    ensures var (db', end) := Pass(cfg, db, c, t);
            && |db'.rows| == |db.rows| && (forall i | 0 <= i < |db.rows| && i != c.id :: db'.rows[i] == db.rows[i])
            && (end != Escaped ==> db'.rows[c.id].leaseToken != Some(c.token))
            && (db.rows[c.id].leaseToken == Some(c.token)
                || db'.rows[c.id] == db.rows[c.id])
  {
    hide Handled, Backoff.Jittered;
    HandledKeepsRows(db, c, t);
  }

  lemma HandledKeepsRows(db: Db, c: Claim, t: Turn)
    ensures Handled(db, c, t).0.rows == db.rows
  {
    hide Handled;
    HandledCases(db, c, t);
  }

  datatype BatchEnd = BatchEnd(db: Db, processed: nat, failed: nat, escaped: bool)

  /** The first `n` events of a batch; an error that escapes ends it. */
  function BatchRun(cfg: Config, db: Db, claims: seq<Claim>, turns: nat -> Turn, n: nat): BatchEnd
    requires n <= |claims|
  {
    if n == 0 then BatchEnd(db, 0, 0, false)
    else
      var b := BatchRun(cfg, db, claims, turns, n - 1);
      if b.escaped then b
      else
        var (db', end) := Pass(cfg, b.db, claims[n - 1], turns(n - 1));
        match end
        case MarkedProcessed => b.(db := db', processed := b.processed + 1)
        case MarkedFailed => b.(db := db', failed := b.failed + 1)
        case Escaped => b.(db := db', escaped := true)
  }

  lemma BatchBegins(cfg: Config, db: Db, claims: seq<Claim>, turns: nat -> Turn)
    ensures BatchRun(cfg, db, claims, turns, 0) == BatchEnd(db, 0, 0, false)
  {
  }

  lemma BatchNext(cfg: Config, db: Db, claims: seq<Claim>, turns: nat -> Turn, n: nat)
    requires n < |claims| && !BatchRun(cfg, db, claims, turns, n).escaped
    ensures var b := BatchRun(cfg, db, claims, turns, n); var (db', end) := Pass(cfg, b.db, claims[n], turns(n));
            BatchRun(cfg, db, claims, turns, n + 1)
            == BatchEnd(db', b.processed + (if end == MarkedProcessed then 1 else 0),
                        b.failed + (if end == MarkedFailed then 1 else 0), end == Escaped)
  {
    hide Pass;
  }

  lemma {:induction false} EscapeEndsBatch(cfg: Config, db: Db, claims: seq<Claim>, turns: nat -> Turn, n: nat, m: nat)
    requires n <= m <= |claims| && BatchRun(cfg, db, claims, turns, n).escaped
    ensures BatchRun(cfg, db, claims, turns, m) == BatchRun(cfg, db, claims, turns, n)
    decreases m
  {
    hide Pass;
    if n < m {
      EscapeEndsBatch(cfg, db, claims, turns, n, m - 1);
    }
  }

  lemma {:induction false} BatchCounts(cfg: Config, db: Db, claims: seq<Claim>, turns: nat -> Turn, n: nat)
    requires n <= |claims|
    ensures var b := BatchRun(cfg, db, claims, turns, n);
            b.processed + b.failed <= n && (!b.escaped ==> b.processed + b.failed == n)
  {
    hide Pass;
    if n > 0 {
      BatchCounts(cfg, db, claims, turns, n - 1);
    }
  }

  /** A batch no error interrupts leaves none of its rows under its leases. */
  lemma {:induction false} BatchLeavesNoLease(cfg: Config, db: Db, claims: seq<Claim>, turns: nat -> Turn, n: nat,
                                              k: nat)
    requires k < n <= |claims| && !BatchRun(cfg, db, claims, turns, n).escaped
    requires forall j | 0 <= j < |claims| :: claims[j].id < |db.rows|
    ensures var rows' := BatchRun(cfg, db, claims, turns, n).db.rows;
            |rows'| == |db.rows| && rows'[claims[k].id].leaseToken != Some(claims[k].token)
  {
    hide Pass, HandlerKey;
    var b := BatchRun(cfg, db, claims, turns, n - 1);
    BatchRowCount(cfg, db, claims, turns, n - 1);
    PassUnleases(cfg, b.db, claims[n - 1], turns(n - 1));
    if k < n - 1 {
      BatchLeavesNoLease(cfg, db, claims, turns, n - 1, k);
      PassGivesNoLease(cfg, b.db, claims[n - 1], turns(n - 1), claims[k]);
    }
  }

  lemma {:induction false} BatchRowCount(cfg: Config, db: Db, claims: seq<Claim>, turns: nat -> Turn, n: nat)
    requires n <= |claims| && forall j | 0 <= j < |claims| :: claims[j].id < |db.rows|
    ensures |BatchRun(cfg, db, claims, turns, n).db.rows| == |db.rows|
  {
    hide Pass, HandlerKey;
    if n > 0 {
      BatchRowCount(cfg, db, claims, turns, n - 1);
      PassUnleases(cfg, BatchRun(cfg, db, claims, turns, n - 1).db, claims[n - 1], turns(n - 1));
    }
  }

  lemma PassGivesNoLease(cfg: Config, db: Db, c: Claim, t: Turn, d: Claim)
    requires c.id < |db.rows| && d.id < |db.rows| && db.rows[d.id].leaseToken != Some(d.token)
    ensures var rows' := Pass(cfg, db, c, t).0.rows; d.id < |rows'| && rows'[d.id].leaseToken != Some(d.token)
  {
    hide Handled, Backoff.Jittered;
    HandledKeepsRows(db, c, t);
  }

  class OutboxPublisher {
    const repo: OutboxRepository
    const cfg: Config
    var isRunning: bool
    var isShuttingDown: bool

    constructor (cfg: Config, repo: OutboxRepository)
      ensures this.cfg == cfg && this.repo == repo && !isRunning && !isShuttingDown
    {
      this.cfg, this.repo := cfg, repo;
      isRunning, isShuttingDown := false, false;
    }

    /** `handleEvent`: reserve, dispatch, record; release and rethrow when handler or record fail. */
    method HandleEvent(c: Claim, t: Turn) returns (threw: bool)
      modifies repo
      ensures (repo.Contents(), threw) == Handled(old(repo.Contents()), c, t)
      ensures repo.rows == old(repo.rows) && repo.now == old(repo.now)
      ensures HandledLikeThis(old(repo.ledger), repo.ledger, c.Key(), c.event.eventType, t, threw)
    {
      HandledCases(repo.Contents(), c, t);
      var key := c.Key();
      var reservation := GotIt;
      if t.reserve.Applied() {
        reservation := repo.ReserveProcessedEvent(key);
      }
      if t.reserve != Done {
        return true;
      }
      if reservation != GotIt {
        return t.inspect != Done;
      }
      if DispatchOk(c.event.eventType, t.handlerOk) {
        if t.record.Applied() {
          repo.MarkProcessedEvent(key);
        }
        if t.record == Done {
          return false;
        }
      }
      if t.release.Applied() {
        repo.ReleaseProcessedEventReservation(key);
      }
      return true;
    }

    /** `processEventWithContext`: mark processed, or schedule a retry, or give up. */
    method ProcessEvent(c: Claim, t: Turn) returns (end: PassEnd)
      modifies repo
      ensures (repo.Contents(), end) == Pass(cfg, old(repo.Contents()), c, t)
    {
      hide Handled, HandlerKey;
      var threw := HandleEvent(c, t);
      if !threw {
        if t.done.Applied() {
          repo.MarkProcessed(c.id, Some(c.token));
        }
        if t.done == Done {
          return MarkedProcessed;
        }
      }
      if t.fail.Applied() {
        var attempts := c.attempts + 1;
        if attempts >= cfg.maxAttempts {
          repo.MarkDeadLetter(c.id, attempts, Some(c.token));
        } else {
          var delay := RetryDelayMs(attempts, t.jitter);
          repo.MarkFailed(c.id, attempts, Some(t.localNow + delay), Some(c.token));
        }
      }
      return if t.fail == Done then MarkedFailed else Escaped;
    }

    function RetryDelayMs(attempts: nat, jitter: nat): nat {
      Backoff.Jittered(cfg.baseMs, attempts, cfg.capMs, jitter)
    }

    /** `processDueBatch`: one tick. Skipped while another tick runs or the worker shuts down; a tick that
        an error ends reports nothing, whatever it did to the tables. */
    method ProcessDueBatch(limit: nat, locked: set<nat>, localNow: nat, claim: Outcome, turns: nat -> Turn,
                           metricsOk: bool)
      returns (ids: seq<nat>, claimed: nat, processed: nat, failed: nat)
      modifies this, repo
      ensures isShuttingDown == old(isShuttingDown) && isRunning == old(isRunning)
      ensures claimed == processed + failed
      ensures old(isShuttingDown || isRunning) || claim == LostBefore ==>
                claimed == 0 && repo.Contents() == old(repo.Contents())
      ensures !old(isShuttingDown || isRunning) && claim.Applied() ==>
                var db0 := old(repo.Contents());
                && IsSelection(db0, ids, limit, locked)
                && var claims := ClaimsOf(db0.rows, ids, db0.freshToken);
                   var b := BatchRun(cfg, ClaimDb(db0, ids, localNow + cfg.leaseMs), claims, turns,
                                     if claim == Done then |ids| else 0);
                   && repo.Contents() == b.db
                   && (if claim == Done && !b.escaped && metricsOk
                       then claimed == |ids| && processed == b.processed else claimed == 0)
    {
      hide Pass, IsSelection, ClaimDb, ClaimsOf, BatchRun;
      ids, claimed, processed, failed := [], 0, 0, 0;
      if isShuttingDown || isRunning || claim == LostBefore {
        return;
      }
      isRunning := true;
      var claims: seq<Claim>;
      ids, claims := repo.ClaimDueEvents(limit, locked, localNow, cfg.leaseMs);
      ghost var db1 := repo.Contents();
      BatchBegins(cfg, db1, claims, turns);
      if claim == Done {
        for k := 0 to |claims|
          invariant isRunning && isShuttingDown == old(isShuttingDown)
          invariant BatchEnd(repo.Contents(), processed, failed, false) == BatchRun(cfg, db1, claims, turns, k)
        {
          BatchNext(cfg, db1, claims, turns, k);
          var end := ProcessEvent(claims[k], turns(k));
          if end == Escaped {
            EscapeEndsBatch(cfg, db1, claims, turns, k + 1, |claims|);
            processed, failed, isRunning := 0, 0, false;
            return;
          }
          if end == MarkedProcessed {
            processed := processed + 1;
          } else {
            failed := failed + 1;
          }
        }
        BatchCounts(cfg, db1, claims, turns, |claims|);
        if metricsOk {
          claimed := |claims|;
        } else {
          processed, failed := 0, 0;
        }
      }
      isRunning := false;
    }
  }

  // ------------------------------------------------------------ what a pass achieves

  /** A pass over a leased row leaves processed implying recorded, unless it found an entry still in
      `processing` and nothing stopped it from marking the row. */
  lemma PassRecordsUnlessReserved(cfg: Config, db: Db, c: Claim, t: Turn)
    requires Effective(db, c) && db.rows[c.id].status == Processing
    ensures var after := Pass(cfg, db, c, t).0;
            var recorded := c.Key() in after.ledger && after.ledger[c.Key()] == Recorded;
            (after.rows[c.id].status == Processed ==> recorded)
            <==> !(c.Key() in db.ledger && db.ledger[c.Key()] == Reserved
                   && t.reserve == Done && t.inspect == Done && t.done.Applied())
  {
    hide HandlerKey, Backoff.Jittered;
  }

  // ------------------------------------------------------------ a pass as a run of the protocol

  /** The steps of `handleEvent`. */
  function HandleScript(ledger: map<Key, LedgerStatus>, w: nat, c: Claim, t: Turn): seq<Action> {
    if t.reserve != Done then [Reserve(w, t.reserve)]
    else if c.Key() in ledger then [Reserve(w, Done), Inspect(w, t.inspect)]
    else if !DispatchOk(c.event.eventType, t.handlerOk)
    then [Reserve(w, Done), EndDispatch(w, t.handlerOk), Release(w, t.release)]
    else if t.record == Done then [Reserve(w, Done), EndDispatch(w, t.handlerOk), Record(w, Done)]
    else [Reserve(w, Done), EndDispatch(w, t.handlerOk), Record(w, t.record), Release(w, t.release)]
  }

  function FailScript(w: nat, t: Turn): seq<Action> { [MarkFail(w, t.fail, t.localNow, t.jitter)] }

  /** The steps that mark the row. */
  function MarkScript(w: nat, threw: bool, t: Turn): seq<Action> {
    if threw then FailScript(w, t)
    else if t.done == Done then [MarkDone(w, Done)] else [MarkDone(w, t.done)] + FailScript(w, t)
  }

  function PassScript(s: System, w: nat, t: Turn): seq<Action>
    requires w in s.workers && |s.workers[w].batch| > 0
  {
    HandleScript(s.db.ledger, w, Current(s, w), t) + MarkScript(w, Handled(s.db, Current(s, w), t).1, t)
  }

  lemma Exec1(cfg: Config, s: System, a: Action, rest: seq<Action>)
    ensures Exec(cfg, s, [a] + rest) == Exec(cfg, Apply(cfg, s, a), rest)
  {
    hide Apply;
    assert ([a] + rest)[1..] == rest;
  }

  lemma ExecOne(cfg: Config, s: System, a: Action)
    ensures Exec(cfg, s, [a]) == Apply(cfg, s, a)
  {
    hide Apply;
    Exec1(cfg, s, a, []);
    assert [a] + [] == [a];
  }

  lemma ExecTwo(cfg: Config, s: System, a: Action, b: Action)
    ensures Exec(cfg, s, [a, b]) == Apply(cfg, Apply(cfg, s, a), b)
  {
    hide Apply;
    Exec1(cfg, s, a, [b]);
    ExecOne(cfg, Apply(cfg, s, a), b);
    assert [a] + [b] == [a, b];
  }

  lemma Exec3(cfg: Config, s: System, a: Action, b: Action, c: Action)
    ensures Exec(cfg, s, [a, b, c]) == Apply(cfg, Apply(cfg, Apply(cfg, s, a), b), c)
  {
    hide Apply;
    Exec1(cfg, s, a, [b, c]);
    ExecTwo(cfg, Apply(cfg, s, a), b, c);
    assert [a, b, c] == [a] + [b, c];
  }

  lemma Exec4(cfg: Config, s: System, a: Action, b: Action, c: Action, d: Action)
    ensures Exec(cfg, s, [a, b, c, d]) == Apply(cfg, Apply(cfg, Apply(cfg, Apply(cfg, s, a), b), c), d)
  {
    hide Apply;
    Exec1(cfg, s, a, [b, c, d]);
    Exec3(cfg, Apply(cfg, s, a), b, c, d);
    assert [a, b, c, d] == [a] + [b, c, d];
  }

  /** The worker now stands at `p`, the tables are `db`, and nothing else moved but the histories. */
  predicate Moved(s: System, s': System, w: nat, p: Phase, db: Db) {
    && w in s.workers
    && s'.workers == s.workers[w := s.workers[w].(phase := p)]
    && s'.db == db
    && s'.claims == s.claims && s'.marks == s.marks && s'.resets == s.resets
  }

  predicate SameHistory(s: System, s': System) { s'.starts == s.starts && s'.handled == s.handled }

  lemma MovedReserve(s: System, w: nat, outcome: Outcome)
    requires At(s, w, Reserving)
    ensures var key := Current(s, w).Key(); var s' := StepReserve(s, w, outcome);
            && Moved(s, s', w, if outcome != Done then MarkingFailed else if key in s.db.ledger then Inspecting
                               else Dispatching, After(outcome, s.db, ReserveDb(s.db, key)))
            && s'.starts == s.starts + (if outcome == Done && key !in s.db.ledger then [key] else [])
            && s'.handled == s.handled
  {
    hide HandlerKey;
  }

  lemma MovedInspect(s: System, w: nat, outcome: Outcome)
    requires At(s, w, Inspecting)
    ensures var s' := StepInspect(s, w, outcome);
            && Moved(s, s', w, if outcome == Done then MarkingDone else MarkingFailed, s.db)
            && SameHistory(s, s')
  {
  }

  lemma MovedEndDispatch(s: System, w: nat, handlerOk: bool)
    requires At(s, w, Dispatching)
    ensures var s' := StepEndDispatch(s, w, handlerOk); var ok := DispatchOk(Current(s, w).event.eventType, handlerOk);
            && Moved(s, s', w, if ok then Recording else Releasing, s.db)
            && s'.starts == s.starts && s'.handled == s.handled + (if ok then {Current(s, w).Key()} else {})
  {
    hide HandlerKey;
  }

  lemma MovedRecord(s: System, w: nat, outcome: Outcome)
    requires At(s, w, Recording)
    ensures var s' := StepRecord(s, w, outcome);
            && Moved(s, s', w, if outcome == Done then MarkingDone else Releasing,
                     After(outcome, s.db, RecordDb(s.db, Current(s, w).Key())))
            && SameHistory(s, s')
  {
    hide HandlerKey, RecordDb;
  }

  lemma MovedRelease(s: System, w: nat, outcome: Outcome)
    requires At(s, w, Releasing)
    ensures var s' := StepRelease(s, w, outcome);
            && Moved(s, s', w, MarkingFailed, After(outcome, s.db, ReleaseDb(s.db, Current(s, w).Key())))
            && SameHistory(s, s')
  {
    hide HandlerKey, ReleaseDb;
  }

  /** The handler was entered and left. */
  lemma DispatchedTo(s: System, w: nat, handlerOk: bool)
    requires At(s, w, Reserving) && Current(s, w).Key() !in s.db.ledger
    ensures var key := Current(s, w).Key(); var ok := DispatchOk(Current(s, w).event.eventType, handlerOk);
            var s' := StepEndDispatch(StepReserve(s, w, Done), w, handlerOk);
            && Moved(s, s', w, if ok then Recording else Releasing, ReserveDb(s.db, key))
            && s'.starts == s.starts + [key]
            && At(s', w, if ok then Recording else Releasing) && Current(s', w) == Current(s, w)
  {
    hide HandlerKey, StepReserve, StepEndDispatch, ReserveDb, DispatchOk;
    var s1 := StepReserve(s, w, Done);
    MovedReserve(s, w, Done);
    MovedEndDispatch(s1, w, handlerOk);
  }

  /** What `handleEvent` does to the tables is what its steps do; the handler starts exactly when the key
      was not in the ledger. */
  lemma HandleIsARun(cfg: Config, s: System, w: nat, t: Turn)
    requires At(s, w, Reserving)
    ensures var c := Current(s, w); var s' := Exec(cfg, s, HandleScript(s.db.ledger, w, c, t));
            var (db, threw) := Handled(s.db, c, t);
            && Moved(s, s', w, if threw then MarkingFailed else MarkingDone, db)
            && s'.starts == s.starts + (if t.reserve == Done && c.Key() !in s.db.ledger then [c.Key()] else [])
            && (c.Key() in s.db.ledger || t.reserve != Done ==> s'.handled == s.handled)
  {
    hide HandlerKey, DispatchOk, StepReserve, StepInspect, StepEndDispatch, StepRecord, StepRelease, ReserveDb,
      RecordDb, ReleaseDb, Exec, Moved;
    MovedReserve(s, w, t.reserve);
    if t.reserve != Done {
      ExecOne(cfg, s, Reserve(w, t.reserve));
    } else if Current(s, w).Key() in s.db.ledger {
      HandleInspects(cfg, s, w, t);
    } else {
      HandleDispatches(cfg, s, w, t);
    }
  }

  lemma HandleInspects(cfg: Config, s: System, w: nat, t: Turn)
    requires At(s, w, Reserving) && t.reserve == Done && Current(s, w).Key() in s.db.ledger
    ensures var c := Current(s, w); var s' := Exec(cfg, s, [Reserve(w, Done), Inspect(w, t.inspect)]);
            && Moved(s, s', w, if t.inspect != Done then MarkingFailed else MarkingDone, ReserveDb(s.db, c.Key()))
            && SameHistory(s, s')
  {
    hide HandlerKey, StepReserve, StepInspect, ReserveDb, Exec;
    var s1 := StepReserve(s, w, Done);
    MovedReserve(s, w, Done);
    ExecTwo(cfg, s, Reserve(w, Done), Inspect(w, t.inspect));
    MovedInspect(s1, w, t.inspect);
  }

  lemma HandleDispatches(cfg: Config, s: System, w: nat, t: Turn)
    requires At(s, w, Reserving) && t.reserve == Done && Current(s, w).Key() !in s.db.ledger
    ensures var c := Current(s, w); var s' := Exec(cfg, s, HandleScript(s.db.ledger, w, c, t));
            var (db, threw) := Handled(s.db, c, t);
            && Moved(s, s', w, if threw then MarkingFailed else MarkingDone, db)
            && s'.starts == s.starts + [c.Key()]
  {
    hide HandlerKey, DispatchOk, StepReserve, StepEndDispatch, StepRecord, StepRelease, ReserveDb, RecordDb, ReleaseDb,
      Exec;
    var c := Current(s, w);
    var s2 := StepEndDispatch(StepReserve(s, w, Done), w, t.handlerOk);
    DispatchedTo(s, w, t.handlerOk);
    if !DispatchOk(c.event.eventType, t.handlerOk) {
      Exec3(cfg, s, Reserve(w, Done), EndDispatch(w, t.handlerOk), Release(w, t.release));
      MovedRelease(s2, w, t.release);
    } else {
      MovedRecord(s2, w, t.record);
      var s3 := StepRecord(s2, w, t.record);
      if t.record == Done {
        Exec3(cfg, s, Reserve(w, Done), EndDispatch(w, t.handlerOk), Record(w, Done));
      } else {
        Exec4(cfg, s, Reserve(w, Done), EndDispatch(w, t.handlerOk), Record(w, t.record), Release(w, t.release));
        MovedRelease(s3, w, t.release);
      }
    }
  }

  /** The worker's next event, or the end of its tick. */
  function Left(s: System, w: nat, end: PassEnd): map<nat, Worker>
    requires w in s.workers && |s.workers[w].batch| > 0
  {
    if end == Escaped then s.workers - {w} else Advance(s, w).workers
  }

  lemma FailStep(cfg: Config, s: System, w: nat, t: Turn)
    requires At(s, w, MarkingFailed)
    ensures var c := Current(s, w); var s' := Exec(cfg, s, FailScript(w, t));
            && s'.db == After(t.fail, s.db, FailDb(cfg, s.db, c, t.localNow, t.jitter))
            && s'.workers == Left(s, w, if t.fail == Done then MarkedFailed else Escaped)
            && SameHistory(s, s')
  {
    hide HandlerKey, FailDb, Effective, Exec;
    ExecOne(cfg, s, MarkFail(w, t.fail, t.localNow, t.jitter));
  }

  lemma DoneStep(cfg: Config, s: System, w: nat, outcome: Outcome)
    requires At(s, w, MarkingDone)
    ensures var c := Current(s, w); var s' := Exec(cfg, s, [MarkDone(w, outcome)]);
            && s'.db == After(outcome, s.db, MarkProcessedDb(s.db, c.id, Some(c.token)))
            && s'.workers == (if outcome == Done then Advance(s, w).workers
                              else s.workers[w := s.workers[w].(phase := MarkingFailed)])
            && SameHistory(s, s')
  {
    hide HandlerKey, MarkProcessedDb, Effective, Exec;
    ExecOne(cfg, s, MarkDone(w, outcome));
  }

  lemma MarkIsARun(cfg: Config, s: System, w: nat, threw: bool, t: Turn)
    requires At(s, w, if threw then MarkingFailed else MarkingDone)
    ensures var c := Current(s, w); var s' := Exec(cfg, s, MarkScript(w, threw, t));
            var marked := if threw then s.db else After(t.done, s.db, MarkProcessedDb(s.db, c.id, Some(c.token)));
            && (if !threw && t.done == Done then s'.db == marked && s'.workers == Left(s, w, MarkedProcessed)
                else s'.db == After(t.fail, marked, FailDb(cfg, marked, c, t.localNow, t.jitter))
                     && s'.workers == Left(s, w, if t.fail == Done then MarkedFailed else Escaped))
            && SameHistory(s, s')
  {
    hide HandlerKey, FailDb, MarkProcessedDb, Exec, FailScript;
    if threw {
      FailStep(cfg, s, w, t);
    } else {
      DoneStep(cfg, s, w, t.done);
      if t.done != Done {
        var s1 := Exec(cfg, s, [MarkDone(w, t.done)]);
        OutboxTheorems.ExecSplit(cfg, s, [MarkDone(w, t.done)], FailScript(w, t));
        FailStep(cfg, s1, w, t);
        SameLeft(s, s1, w, if t.fail == Done then MarkedFailed else Escaped);
      }
    }
  }

  lemma SameLeft(s: System, s': System, w: nat, end: PassEnd)
    requires w in s.workers && |s.workers[w].batch| > 0
    requires exists p :: s'.workers == s.workers[w := s.workers[w].(phase := p)]
    ensures Left(s', w, end) == Left(s, w, end)
  {
    assert s'.workers - {w} == s.workers - {w};
  }

  /** The code's pass over one event, whichever of its calls fail, is a run of the protocol: the same
      tables, the worker at its next event or out of its tick; the handler starts exactly when the
      reservation was acknowledged and the key was not in the ledger. */
  lemma PassIsARun(cfg: Config, s: System, w: nat, t: Turn)
    requires At(s, w, Reserving)
    ensures var c := Current(s, w); var s' := Exec(cfg, s, PassScript(s, w, t));
            && s'.db == Pass(cfg, s.db, c, t).0 && s'.workers == Left(s, w, Pass(cfg, s.db, c, t).1)
            && s'.starts == s.starts + (if t.reserve == Done && c.Key() !in s.db.ledger then [c.Key()] else [])
            && (c.Key() in s.db.ledger || t.reserve != Done ==> s'.handled == s.handled)
  {
    hide HandlerKey, FailDb, MarkProcessedDb, Exec, Handled, HandleScript, MarkScript, Left;
    var c := Current(s, w);
    var (db, threw) := Handled(s.db, c, t);
    var s1 := Exec(cfg, s, HandleScript(s.db.ledger, w, c, t));
    HandleIsARun(cfg, s, w, t);
    OutboxTheorems.ExecSplit(cfg, s, HandleScript(s.db.ledger, w, c, t), MarkScript(w, threw, t));
    MarkIsARun(cfg, s1, w, threw, t);
    SameLeft(s, s1, w, Pass(cfg, s.db, c, t).1);
  }

  /** A worker whose event's key is already in the ledger never calls the handler for it, and with no
      error in between marks the row processed: an event that shares its key with an earlier one is lost
      on the handler. */
  lemma SharedKeyIsSkipped(cfg: Config, s: System, w: nat, handlerOk: bool, localNow: nat, jitter: nat)
    requires At(s, w, Reserving) && Effective(s.db, Current(s, w))
    ensures var c := Current(s, w); var s' := Exec(cfg, s, PassScript(s, w, Smooth(handlerOk, localNow, jitter)));
            && c.id < |s'.db.rows|
            && (s'.starts == s.starts <==> c.Key() in s.db.ledger)
            && (c.Key() in s.db.ledger ==>
                  s'.db.rows[c.id].status == Processed && s'.db.ledger == s.db.ledger && s'.handled == s.handled)
  {
    hide HandlerKey, Exec, PassScript, Backoff.Jittered;
    PassIsARun(cfg, s, w, Smooth(handlerOk, localNow, jitter));
  }

  /** Finding the key reserved loses the event: three more steps end with a processed row whose key is not
      recorded. */
  lemma FoundReservedIsLost(cfg: Config, s: System, w: nat)
    requires At(s, w, Reserving) && Effective(s.db, Current(s, w))
    requires Current(s, w).Key() in s.db.ledger && s.db.ledger[Current(s, w).Key()] == Reserved
    ensures var c := Current(s, w); var s' := Exec(cfg, s, [Reserve(w, Done), Inspect(w, Done), MarkDone(w, Done)]);
            && c.id < |s'.db.rows| == |s.db.rows|
            && s'.db.rows[c.id].status == Processed && s'.db.ledger == s.db.ledger
            && s'.starts == s.starts && s'.handled == s.handled
            && s'.workers == Advance(s, w).workers
  {
    hide HandlerKey, Exec, Backoff.Jittered;
    var t := Smooth(true, 0, 0);
    PassIsARun(cfg, s, w, t);
    assert PassScript(s, w, t) == [Reserve(w, Done), Inspect(w, Done), MarkDone(w, Done)];
  }

  // ------------------------------------------------------------ the run that loses an event

  /** One worker reserves the key and crashes inside the handler; its lease runs out, a second worker
      claims the row, finds the entry in `processing`, and marks the row processed. */
  function LosingRun(cfg: Config, e: Business): (seq<Action>, seq<Action>, seq<Action>) {
    ([Insert(e), ClaimBatch(0, [0], 1, {}, 0), Reserve(0, Done)],
     [Crash(0), Tick(cfg.leaseMs), ClaimBatch(1, [0], 1, {}, cfg.leaseMs)],
     [Reserve(1, Done), Inspect(1, Done), MarkDone(1, Done)])
  }

  /** Outside respectful runs `processed` does not mean handled: here no handler ever completed. */
  lemma ProcessedWithoutHandling(cfg: Config, e: Business)
    ensures var (a, b, c) := LosingRun(cfg, e);
            var s := Exec(cfg, Exec(cfg, Exec(cfg, Init(), a), b), c);
            && |s.db.rows| == 1 && s.db.rows[0].status == Processed
            && s.db.ledger == map[HandlerKey(e) := Reserved]
            && s.handled == {} && s.workers == map[]
  {
    hide HandlerKey, Exec;
    var (a, b, c) := LosingRun(cfg, e);
    FirstWorkerReserves(cfg, e);
    var s3 := Exec(cfg, Init(), a);
    FirstWorkerCrashes(cfg, s3, e);
    var s6 := Exec(cfg, s3, b);
    FoundReservedIsLost(cfg, s6, 1);
    assert s6.workers - {1} == map[];
  }

  lemma FirstWorkerReserves(cfg: Config, e: Business)
    ensures var s := Exec(cfg, Init(), LosingRun(cfg, e).0);
            && s.db.ledger == map[HandlerKey(e) := Reserved] && s.workers - {0} == map[] && s.handled == {}
            && |s.db.rows| == 1 && s.db.rows[0].event == e && s.db.rows[0].status == Processing
            && s.db.rows[0].leaseExpiresAt == Some(cfg.leaseMs) && s.db.now == 0
  {
    hide HandlerKey, Exec, ClaimRows, ClaimsOf;
    var a := LosingRun(cfg, e).0;
    Exec3(cfg, Init(), a[0], a[1], a[2]);
    var s1 := StepInsert(Init(), e);
    assert IsSelection(s1.db, [0], 1, {});
    var s2 := StepClaim(cfg, s1, 0, [0], 1, {}, 0);
    assert [0][0] in [0];
    assert At(s2, 0, Reserving);
  }

  lemma FirstWorkerCrashes(cfg: Config, s: System, e: Business)
    requires s.db.ledger == map[HandlerKey(e) := Reserved] && s.workers - {0} == map[] && s.handled == {}
    requires |s.db.rows| == 1 && s.db.rows[0].event == e && s.db.rows[0].status == Processing
    requires s.db.rows[0].leaseExpiresAt == Some(cfg.leaseMs) && s.db.now == 0
    ensures var s' := Exec(cfg, s, LosingRun(cfg, e).1);
            && At(s', 1, Reserving) && |s'.workers[1].batch| == 1 && s'.workers - {1} == map[]
            && |s'.db.rows| == 1 && Effective(s'.db, Current(s', 1)) && Current(s', 1).id == 0
            && Current(s', 1).event == e
            && s'.db.ledger == s.db.ledger && s'.handled == {}
  {
    hide HandlerKey, Exec, ClaimRows, ClaimsOf;
    var b := LosingRun(cfg, e).1;
    Exec3(cfg, s, b[0], b[1], b[2]);
    var s5 := Apply(cfg, Drop(s, 0), Tick(cfg.leaseMs));
    assert IsSelection(s5.db, [0], 1, {});
    assert [0][0] in [0];
  }
}
