/** When does a processed row mean a handled event? Not always: a worker that finds its key still
    reserved marks its row processed without knowing how the handler ends. */
module OutboxRespect {
  import opened Common
  import opened OutboxTable
  import opened OutboxProtocol
  import opened OutboxInvariant
  import opened OutboxTheorems

  // ------------------------------------------------------------ the branch that loses events

  ghost predicate IsReserved(s: System, key: Key) { key in s.db.ledger && s.db.ledger[key] == Reserved }

  /** The step is a reservation of `key` that finds an unfinished one. */
  ghost predicate FindsReserved(s: System, a: Action, key: Key) {
    a.Reserve? && At(s, a.w, Reserving) && Current(s, a.w).Key() == key && IsReserved(s, key)
  }

  ghost predicate NeverFindsReserved(cfg: Config, s: System, run: seq<Action>, key: Key)
    decreases |run|
  {
    run == []
    || (!FindsReserved(s, run[0], key) && NeverFindsReserved(cfg, Apply(cfg, s, run[0]), run[1..], key))
  }

  /** The worker will mark its current row processed unless an error intervenes. */
  ghost predicate PastRecording(x: Worker) {
    |x.batch| > 0 && (x.phase == Inspecting || x.phase == MarkingDone)
  }

  ghost predicate DoneIsRecorded(workers: map<nat, Worker>, ledger: map<Key, LedgerStatus>, key: Key) {
    forall w | w in workers && PastRecording(workers[w]) && workers[w].batch[0].Key() == key ::
      key in ledger && ledger[key] == Recorded
  }

  ghost predicate ProcessedIsRecorded(rows: seq<Row>, ledger: map<Key, LedgerStatus>, key: Key) {
    forall i | 0 <= i < |rows| && rows[i].status == Processed && HandlerKey(rows[i].event) == key ::
      key in ledger && ledger[key] == Recorded
  }

  ghost predicate KeyOk(s: System, key: Key) {
    DoneIsRecorded(s.workers, s.db.ledger, key) && ProcessedIsRecorded(s.db.rows, s.db.ledger, key)
  }

  /** At most worker w changed, and if it is about to mark a row of `key`, the key is recorded. */
  lemma DoneKept(s: System, s': System, w: nat, key: Key)
    requires DoneIsRecorded(s.workers, s.db.ledger, key) && s'.workers - {w} == s.workers - {w}
    requires IsRecorded(s, key) ==> IsRecorded(s', key)
    requires w in s'.workers && PastRecording(s'.workers[w]) && s'.workers[w].batch[0].Key() == key ==>
               IsRecorded(s', key)
    ensures DoneIsRecorded(s'.workers, s'.db.ledger, key)
  {
    hide HandlerKey;
    forall v | v in s'.workers && v != w ensures v in s.workers && s'.workers[v] == s.workers[v] {
      assert v in s'.workers - {w} && (s'.workers - {w})[v] == (s.workers - {w})[v];
    }
  }

  /** One row of the table was rewritten, its event untouched. */
  lemma ProcessedKept(s: System, s': System, id: nat, key: Key)
    requires ProcessedIsRecorded(s.db.rows, s.db.ledger, key) && |s'.db.rows| == |s.db.rows|
    requires IsRecorded(s, key) ==> IsRecorded(s', key)
    requires forall i | 0 <= i < |s.db.rows| ::
               && s'.db.rows[i].event == s.db.rows[i].event
               && (s'.db.rows[i].status == Processed ==> s.db.rows[i].status == Processed || i == id)
    requires id < |s.db.rows| && s'.db.rows[id].status == Processed && HandlerKey(s.db.rows[id].event) == key ==>
               IsRecorded(s', key)
    ensures ProcessedIsRecorded(s'.db.rows, s'.db.ledger, key)
  {
    hide HandlerKey;
  }

  lemma CurrentEvent(cfg: Config, s: System, w: nat)
    requires Inv(cfg, s) && w in s.workers
    ensures |s.workers[w].batch| > 0
    ensures var c := Current(s, w); c.id < |s.db.rows| && c.event == s.db.rows[c.id].event
  {
    HeldEvent(cfg, s, w, 0);
  }

  lemma HeldEvent(cfg: Config, s: System, w: nat, k: nat)
    requires Inv(cfg, s) && w in s.workers
    ensures |s.workers[w].batch| > 0
    ensures k < |s.workers[w].batch| ==>
              var c := s.workers[w].batch[k]; c.id < |s.db.rows| && c.event == s.db.rows[c.id].event
  {
    hide HandlerKey, LedgerOk;
    if k < |s.workers[w].batch| {
      var c := s.workers[w].batch[k];
      var i :| 0 <= i < |s.claims| && s.claims[i] == c;
      assert ClaimFits(s.db.rows, s.db.freshToken, s.claims[i], cfg.maxAttempts);
    }
  }

  lemma KeyOkMark(cfg: Config, s: System, a: Action, key: Key)
    requires Inv(cfg, s) && KeyOk(s, key)
    requires a.MarkDone? && At(s, a.w, MarkingDone)
    ensures KeyOk(Apply(cfg, s, a), key)
  {
    hide HandlerKey, Inv, DoneIsRecorded, ProcessedIsRecorded;
    var s', c := StepMarkDone(s, a.w, a.outcome), Current(s, a.w);
    CurrentEvent(cfg, s, a.w);
    assert s'.workers - {a.w} == s.workers - {a.w};
    PastIsRecorded(s, a.w, key);
    DoneKept(s, s', a.w, key);
    ProcessedKept(s, s', c.id, key);
  }

  lemma PastIsRecorded(s: System, w: nat, key: Key)
    requires DoneIsRecorded(s.workers, s.db.ledger, key)
    requires w in s.workers && PastRecording(s.workers[w])
    ensures s.workers[w].batch[0].Key() == key ==> IsRecorded(s, key)
  {
    hide HandlerKey;
  }

  lemma KeyOkClaim(cfg: Config, s: System, a: Action, key: Key)
    requires KeyOk(s, key) && a.ClaimBatch?
    ensures KeyOk(Apply(cfg, s, a), key)
  {
    hide HandlerKey, ClaimRows, ClaimsOf, IsSelection, DoneIsRecorded, ProcessedIsRecorded;
    var s' := StepClaim(cfg, s, a.w, a.ids, a.limit, a.locked, a.localNow);
    if CanClaim(s, a.w, a.ids, a.limit, a.locked) {
      assert s'.workers - {a.w} == s.workers - {a.w};
      DoneKept(s, s', a.w, key);
      ProcessedKept(s, s', |s.db.rows|, key);
    }
  }

  lemma KeyOkFail(cfg: Config, s: System, a: Action, key: Key)
    requires KeyOk(s, key) && a.MarkFail? && At(s, a.w, MarkingFailed)
    ensures KeyOk(Apply(cfg, s, a), key)
  {
    hide HandlerKey, Backoff.Jittered, DoneIsRecorded, ProcessedIsRecorded;
    var s' := StepMarkFail(cfg, s, a.w, a.outcome, a.localNow, a.jitter);
    assert s'.workers - {a.w} == s.workers - {a.w};
    DoneKept(s, s', a.w, key);
    ProcessedKept(s, s', |s.db.rows|, key);
  }

  /** Worker w moved or left; the table of events is as it was. */
  lemma KeyOkMove(s: System, s': System, w: nat, key: Key)
    requires KeyOk(s, key) && s'.db.rows == s.db.rows && s'.workers - {w} == s.workers - {w}
    requires IsRecorded(s, key) ==> IsRecorded(s', key)
    requires w in s'.workers && PastRecording(s'.workers[w]) && s'.workers[w].batch[0].Key() == key ==>
               IsRecorded(s', key)
    ensures KeyOk(s', key)
  {
    hide HandlerKey, DoneIsRecorded, ProcessedIsRecorded;
    DoneKept(s, s', w, key);
    ProcessedKept(s, s', |s.db.rows|, key);
  }

  lemma KeyOkReserve(s: System, w: nat, outcome: Outcome, key: Key)
    requires KeyOk(s, key) && !FindsReserved(s, Reserve(w, outcome), key)
    ensures KeyOk(StepReserve(s, w, outcome), key)
  {
    hide HandlerKey, KeyOk;
    var s' := StepReserve(s, w, outcome);
    assert s'.workers - {w} == s.workers - {w};
    if At(s, w, Reserving) {
      KeyOkMove(s, s', w, key);
    }
  }

  lemma KeyOkInspect(s: System, w: nat, outcome: Outcome, key: Key)
    requires KeyOk(s, key)
    ensures KeyOk(StepInspect(s, w, outcome), key)
  {
    hide HandlerKey, DoneIsRecorded, ProcessedIsRecorded;
    var s' := StepInspect(s, w, outcome);
    assert s'.workers - {w} == s.workers - {w};
    if At(s, w, Inspecting) {
      PastIsRecorded(s, w, key);
      KeyOkMove(s, s', w, key);
    }
  }

  lemma KeyOkEndDispatch(s: System, w: nat, handlerOk: bool, key: Key)
    requires KeyOk(s, key)
    ensures KeyOk(StepEndDispatch(s, w, handlerOk), key)
  {
    hide HandlerKey, KeyOk;
    var s' := StepEndDispatch(s, w, handlerOk);
    assert s'.workers - {w} == s.workers - {w};
    if At(s, w, Dispatching) {
      KeyOkMove(s, s', w, key);
    }
  }

  lemma KeyOkRecord(cfg: Config, s: System, w: nat, outcome: Outcome, key: Key)
    requires Inv(cfg, s) && KeyOk(s, key)
    ensures KeyOk(StepRecord(s, w, outcome), key)
  {
    hide HandlerKey, KeyOk, TableInv;
    var s' := StepRecord(s, w, outcome);
    assert s'.workers - {w} == s.workers - {w};
    if At(s, w, Recording) {
      OwnerFitsAt(s, w);
      KeyOkMove(s, s', w, key);
    }
  }

  lemma KeyOkRelease(s: System, w: nat, outcome: Outcome, key: Key)
    requires KeyOk(s, key)
    ensures KeyOk(StepRelease(s, w, outcome), key)
  {
    hide HandlerKey, KeyOk;
    var s' := StepRelease(s, w, outcome);
    assert s'.workers - {w} == s.workers - {w};
    if At(s, w, Releasing) {
      KeyOkMove(s, s', w, key);
    }
  }

  lemma KeyOkReset(cfg: Config, s: System, a: Action, key: Key)
    requires KeyOk(s, key) && (a.Tick? || a.Insert? || a.ManualRetry? || a.ManualRequeue?)
    ensures KeyOk(Apply(cfg, s, a), key)
  {
    hide HandlerKey;
  }

  lemma KeyOkStep(cfg: Config, s: System, a: Action, key: Key)
    requires Inv(cfg, s) && KeyOk(s, key) && !FindsReserved(s, a, key)
    ensures KeyOk(Apply(cfg, s, a), key)
  {
    hide KeyOk, Inv, FindsReserved, HandlerKey, StepReserve, StepInspect, StepEndDispatch, StepRecord, StepRelease;
    match a
    case Tick(_) => KeyOkReset(cfg, s, a, key);
    case Insert(_) => KeyOkReset(cfg, s, a, key);
    case ManualRetry(_) => KeyOkReset(cfg, s, a, key);
    case ManualRequeue(_) => KeyOkReset(cfg, s, a, key);
    case ClaimBatch(_, _, _, _, _) => KeyOkClaim(cfg, s, a, key);
    case MarkDone(w, _) => if At(s, w, MarkingDone) { KeyOkMark(cfg, s, a, key); }
    case MarkFail(w, _, _, _) => if At(s, w, MarkingFailed) { KeyOkFail(cfg, s, a, key); }
    case Reserve(w, outcome) => KeyOkReserve(s, w, outcome, key);
    case Inspect(w, outcome) => KeyOkInspect(s, w, outcome, key);
    case EndDispatch(w, handlerOk) => KeyOkEndDispatch(s, w, handlerOk, key);
    case Record(w, outcome) => KeyOkRecord(cfg, s, w, outcome, key);
    case Release(w, outcome) => KeyOkRelease(s, w, outcome, key);
    case Crash(w) =>
      assert (s.workers - {w}) - {w} == s.workers - {w};
      KeyOkMove(s, Drop(s, w), w, key);
  }

  lemma {:induction false} KeyOkRun(cfg: Config, s: System, run: seq<Action>, key: Key)
    requires Inv(cfg, s) && KeyOk(s, key) && NeverFindsReserved(cfg, s, run, key)
    ensures KeyOk(Exec(cfg, s, run), key)
    decreases |run|
  {
    hide Inv, KeyOk, FindsReserved, Apply;
    if run != [] {
      KeepStep(cfg, s, run[0]);
      KeyOkStep(cfg, s, run[0], key);
      KeyOkRun(cfg, Apply(cfg, s, run[0]), run[1..], key);
    }
  }

  /** A run in which nobody finds a key's reservation unfinished, whatever else happens to that key or
      to others: every processed row of the key has it recorded, and its handler did complete. */
  lemma ProcessedUnlessFoundReserved(cfg: Config, run: seq<Action>, id: nat)
    requires id < |Exec(cfg, Init(), run).db.rows| && Exec(cfg, Init(), run).db.rows[id].status == Processed
    requires NeverFindsReserved(cfg, Init(), run, HandlerKey(Exec(cfg, Init(), run).db.rows[id].event))
    ensures var s := Exec(cfg, Init(), run); var key := HandlerKey(s.db.rows[id].event);
            IsRecorded(s, key) && key in s.handled
  {
    hide Exec, HandlerKey, NeverFindsReserved;
    var key := HandlerKey(Exec(cfg, Init(), run).db.rows[id].event);
    InitiallyOk(cfg, key);
    KeyOkRun(cfg, Init(), run, key);
    RecordedWasHandled(cfg, run, key);
  }

  lemma InitiallyOk(cfg: Config, key: Key)
    ensures Inv(cfg, Init()) && KeyOk(Init(), key)
  {
  }

  // ------------------------------------------------------------ runs that avoid it

  ghost predicate HoldsKey(x: Worker, key: Key) { exists k :: 0 <= k < |x.batch| && x.batch[k].Key() == key }

  ghost predicate OwnsKey(x: Worker, key: Key) { Owns(x) && x.batch[0].Key() == key }

  ghost predicate TakesKey(rows: seq<Row>, ids: seq<nat>, key: Key) {
    exists k :: 0 <= k < |ids| && ids[k] < |rows| && HandlerKey(rows[ids[k]].event) == key
  }

  /** The step abandons no reservation of `key` and takes none of its rows from a worker that still has
      one. Nothing is asked of other keys, of inserts, of manual resets, or of crashes elsewhere. */
  ghost predicate Respects(s: System, a: Action, key: Key) {
    match a
    case ClaimBatch(_, ids, _, _, _) =>
      TakesKey(s.db.rows, ids, key) ==> forall w | w in s.workers :: !HoldsKey(s.workers[w], key)
    case Reserve(w, outcome) =>
      At(s, w, Reserving) && Current(s, w).Key() == key && outcome == LostAfter ==> key in s.db.ledger
    case Release(w, outcome) =>
      At(s, w, Releasing) && Current(s, w).Key() == key && outcome == LostBefore ==> !IsReserved(s, key)
    case Crash(w) => w in s.workers ==> !OwnsKey(s.workers[w], key)
    case _ => true
  }

  ghost predicate RespectfulRun(cfg: Config, s: System, run: seq<Action>, key: Key)
    decreases |run|
  {
    run == [] || (Respects(s, run[0], key) && RespectfulRun(cfg, Apply(cfg, s, run[0]), run[1..], key))
  }

  ghost predicate SoleHolder(workers: map<nat, Worker>, key: Key) {
    forall v, w | v in workers && w in workers && HoldsKey(workers[v], key) && HoldsKey(workers[w], key) :: v == w
  }

  ghost predicate OwnedBySome(workers: map<nat, Worker>, key: Key) {
    exists w :: w in workers && OwnsKey(workers[w], key)
  }

  /** One worker at most has rows of the key, and a reservation has its owner. */
  ghost predicate Attended(s: System, key: Key) {
    SoleHolder(s.workers, key) && (IsReserved(s, key) ==> OwnedBySome(s.workers, key))
  }

  /** Nobody finds an attended reservation. */
  lemma AttendedIsNotFound(s: System, a: Action, key: Key)
    requires Attended(s, key)
    ensures !FindsReserved(s, a, key)
  {
    hide HandlerKey;
    if IsReserved(s, key) {
      var v :| v in s.workers && OwnsKey(s.workers[v], key);
      HeadHolds(s.workers[v]);
      forall w | w in s.workers && s.workers[w].batch != [] && s.workers[w].batch[0].Key() == key ensures w == v {
        HeadHolds(s.workers[w]);
      }
    }
  }

  lemma HeadHolds(x: Worker)
    requires x.batch != []
    ensures HoldsKey(x, x.batch[0].Key())
  {
  }

  /** At most worker w changed: it may have dropped rows, and what it owned it still owns while the key
      is reserved. */
  lemma AttendedKept(s: System, s': System, w: nat, n: nat, key: Key)
    requires Attended(s, key) && s'.workers - {w} == s.workers - {w}
    requires w in s'.workers ==>
               w in s.workers && n <= |s.workers[w].batch| && s'.workers[w].batch == s.workers[w].batch[n..]
    requires IsReserved(s', key) ==>
               (w in s'.workers && OwnsKey(s'.workers[w], key))
               || (IsReserved(s, key) && (w in s.workers ==> !OwnsKey(s.workers[w], key)))
    ensures Attended(s', key)
  {
    hide HandlerKey;
    forall v | v in s'.workers && v != w ensures v in s.workers && s'.workers[v] == s.workers[v] {
      assert v in s'.workers - {w} && (s'.workers - {w})[v] == (s.workers - {w})[v];
    }
    if w in s'.workers && HoldsKey(s'.workers[w], key) {
      var k :| 0 <= k < |s'.workers[w].batch| && s'.workers[w].batch[k].Key() == key;
      assert s.workers[w].batch[k + n].Key() == key;
    }
    if IsReserved(s', key) && !(w in s'.workers && OwnsKey(s'.workers[w], key)) {
      var v :| v in s.workers && OwnsKey(s.workers[v], key);
      assert v in s.workers - {w} && (s'.workers - {w})[v] == (s.workers - {w})[v];
    }
  }

  lemma AttendedClaim(cfg: Config, s: System, a: Action, key: Key)
    requires Attended(s, key) && Respects(s, a, key) && a.ClaimBatch?
    ensures Attended(Apply(cfg, s, a), key)
  {
    hide HandlerKey, ClaimRows, ClaimsOf, IsSelection;
    if CanClaim(s, a.w, a.ids, a.limit, a.locked) {
      var s' := StepClaim(cfg, s, a.w, a.ids, a.limit, a.locked, a.localNow);
      SelectedInTable(s.db, a.ids, a.limit, a.locked);
      if HoldsKey(s'.workers[a.w], key) {
        var k :| 0 <= k < |a.ids| && s'.workers[a.w].batch[k].Key() == key;
        assert TakesKey(s.db.rows, a.ids, key);
      }
      if IsReserved(s, key) {
        var v :| v in s.workers && OwnsKey(s.workers[v], key);
        assert v in s'.workers && s'.workers[v] == s.workers[v];
      }
    }
  }

  lemma SelectedInTable(db: Db, ids: seq<nat>, limit: nat, locked: set<nat>)
    requires IsSelection(db, ids, limit, locked)
    ensures forall k | 0 <= k < |ids| :: ids[k] < |db.rows|
  {
  }

  lemma AttendedReserve(s: System, w: nat, outcome: Outcome, key: Key)
    requires Attended(s, key) && Respects(s, Reserve(w, outcome), key)
    ensures Attended(StepReserve(s, w, outcome), key)
  {
    hide HandlerKey, Attended;
    var s' := StepReserve(s, w, outcome);
    assert s'.workers - {w} == s.workers - {w};
    if At(s, w, Reserving) {
      AttendedKept(s, s', w, 0, key);
    }
  }

  lemma AttendedEndDispatch(s: System, w: nat, handlerOk: bool, key: Key)
    requires Attended(s, key)
    ensures Attended(StepEndDispatch(s, w, handlerOk), key)
  {
    hide HandlerKey, Attended;
    var s' := StepEndDispatch(s, w, handlerOk);
    assert s'.workers - {w} == s.workers - {w};
    if At(s, w, Dispatching) {
      AttendedKept(s, s', w, 0, key);
    }
  }

  lemma AttendedRecord(s: System, w: nat, outcome: Outcome, key: Key)
    requires Attended(s, key)
    ensures Attended(StepRecord(s, w, outcome), key)
  {
    hide HandlerKey, Attended;
    var s' := StepRecord(s, w, outcome);
    assert s'.workers - {w} == s.workers - {w};
    if At(s, w, Recording) {
      AttendedKept(s, s', w, 0, key);
    }
  }

  lemma AttendedRelease(s: System, w: nat, outcome: Outcome, key: Key)
    requires Attended(s, key) && Respects(s, Release(w, outcome), key)
    ensures Attended(StepRelease(s, w, outcome), key)
  {
    hide HandlerKey, Attended;
    var s' := StepRelease(s, w, outcome);
    assert s'.workers - {w} == s.workers - {w};
    if At(s, w, Releasing) {
      AttendedKept(s, s', w, 0, key);
    }
  }

  lemma AttendedInspect(s: System, w: nat, outcome: Outcome, key: Key)
    requires Attended(s, key)
    ensures Attended(StepInspect(s, w, outcome), key)
  {
    hide HandlerKey, Attended;
    var s' := StepInspect(s, w, outcome);
    assert s'.workers - {w} == s.workers - {w};
    if At(s, w, Inspecting) {
      AttendedKept(s, s', w, 0, key);
    }
  }

  lemma AttendedMarkDone(s: System, w: nat, outcome: Outcome, key: Key)
    requires Attended(s, key)
    ensures Attended(StepMarkDone(s, w, outcome), key)
  {
    hide HandlerKey, Attended, Effective;
    var s' := StepMarkDone(s, w, outcome);
    assert s'.workers - {w} == s.workers - {w};
    if At(s, w, MarkingDone) {
      AttendedKept(s, s', w, if outcome == Done then 1 else 0, key);
    }
  }

  lemma AttendedMarkFail(cfg: Config, s: System, w: nat, outcome: Outcome, localNow: nat, jitter: nat, key: Key)
    requires Attended(s, key)
    ensures Attended(StepMarkFail(cfg, s, w, outcome, localNow, jitter), key)
  {
    hide HandlerKey, Attended, Effective, Backoff.Jittered;
    var s' := StepMarkFail(cfg, s, w, outcome, localNow, jitter);
    assert s'.workers - {w} == s.workers - {w};
    if At(s, w, MarkingFailed) {
      AttendedKept(s, s', w, 1, key);
    }
  }

  lemma AttendedStep(cfg: Config, s: System, a: Action, key: Key)
    requires Attended(s, key) && Respects(s, a, key)
    ensures Attended(Apply(cfg, s, a), key)
  {
    hide HandlerKey, StepClaim, StepReserve, StepInspect, StepEndDispatch, StepRecord, StepRelease, StepMarkDone,
      StepMarkFail, RetryDb, RequeueDb;
    match a
    case Tick(_) =>
    case Insert(_) =>
    case ManualRetry(id) => ResetLeavesLedger(s, id); AttendedReset(s, StepRetry(s, id), key);
    case ManualRequeue(id) => ResetLeavesLedger(s, id); AttendedReset(s, StepRequeue(s, id), key);
    case ClaimBatch(_, _, _, _, _) => AttendedClaim(cfg, s, a, key);
    case MarkDone(w, outcome) => AttendedMarkDone(s, w, outcome, key);
    case MarkFail(w, outcome, localNow, jitter) => AttendedMarkFail(cfg, s, w, outcome, localNow, jitter, key);
    case Reserve(w, outcome) => AttendedReserve(s, w, outcome, key);
    case Inspect(w, outcome) => AttendedInspect(s, w, outcome, key);
    case EndDispatch(w, handlerOk) => AttendedEndDispatch(s, w, handlerOk, key);
    case Record(w, outcome) => AttendedRecord(s, w, outcome, key);
    case Release(w, outcome) => AttendedRelease(s, w, outcome, key);
    case Crash(w) =>
      assert (s.workers - {w}) - {w} == s.workers - {w};
      AttendedKept(s, Drop(s, w), w, 0, key);
  }

  lemma ResetLeavesLedger(s: System, id: nat)
    ensures RetryDb(s.db, id).ledger == RequeueDb(s.db, id).ledger == s.db.ledger
  {
  }

  lemma AttendedReset(s: System, s': System, key: Key)
    requires Attended(s, key) && s'.workers == s.workers && s'.db.ledger == s.db.ledger
    ensures Attended(s', key)
  {
    hide HandlerKey;
  }

  /** A respectful run never takes the losing branch. */
  lemma {:induction false} RespectRun(cfg: Config, s: System, run: seq<Action>, key: Key)
    requires Inv(cfg, s) && Attended(s, key) && RespectfulRun(cfg, s, run, key)
    ensures NeverFindsReserved(cfg, s, run, key) && Attended(Exec(cfg, s, run), key)
    decreases |run|
  {
    hide Inv, Attended, Respects, FindsReserved, Apply;
    if run != [] {
      KeepStep(cfg, s, run[0]);
      AttendedIsNotFound(s, run[0], key);
      AttendedStep(cfg, s, run[0], key);
      RespectRun(cfg, Apply(cfg, s, run[0]), run[1..], key);
    }
  }

  /** In a run that respects a row's key, a processed row means that its key is recorded and its handler
      completed. */
  lemma ProcessedMeansHandled(cfg: Config, run: seq<Action>, id: nat)
    requires id < |Exec(cfg, Init(), run).db.rows| && Exec(cfg, Init(), run).db.rows[id].status == Processed
    requires RespectfulRun(cfg, Init(), run, HandlerKey(Exec(cfg, Init(), run).db.rows[id].event))
    ensures var s := Exec(cfg, Init(), run); var key := HandlerKey(s.db.rows[id].event);
            IsRecorded(s, key) && key in s.handled
  {
    hide Exec, HandlerKey, RespectfulRun, NeverFindsReserved;
    var key := HandlerKey(Exec(cfg, Init(), run).db.rows[id].event);
    InitiallyOk(cfg, key);
    RespectRun(cfg, Init(), run, key);
    ProcessedUnlessFoundReserved(cfg, run, id);
  }

  // ------------------------------------------------------------ a condition without keys

  /** Some worker still has the row in its batch. */
  ghost predicate Held(workers: map<nat, Worker>, id: nat) {
    exists w, k :: w in workers && 0 <= k < |workers[w].batch| && workers[w].batch[k].id == id
  }

  ghost predicate KeysDistinct(rows: seq<Row>) {
    forall i, j | 0 <= i < j < |rows| :: HandlerKey(rows[i].event) != HandlerKey(rows[j].event)
  }

  /** A step that abandons no reservation at all, takes no row from a worker still busy with it, and adds
      no second row for a business key. */
  ghost predicate RespectsAll(s: System, a: Action) {
    match a
    case Insert(e) => forall i | 0 <= i < |s.db.rows| :: HandlerKey(s.db.rows[i].event) != HandlerKey(e)
    case ClaimBatch(_, ids, _, _, _) => forall k | 0 <= k < |ids| :: !Held(s.workers, ids[k])
    case Reserve(_, outcome) => outcome != LostAfter
    case Release(_, outcome) => outcome != LostBefore
    case Crash(w) => w in s.workers ==> !Owns(s.workers[w])
    case _ => true
  }

  ghost predicate OrderlyRun(cfg: Config, s: System, run: seq<Action>)
    decreases |run|
  {
    run == [] || (RespectsAll(s, run[0]) && OrderlyRun(cfg, Apply(cfg, s, run[0]), run[1..]))
  }

  lemma RespectsAllRespects(cfg: Config, s: System, a: Action, key: Key)
    requires Inv(cfg, s) && KeysDistinct(s.db.rows) && RespectsAll(s, a)
    ensures Respects(s, a, key)
  {
    hide HandlerKey, Inv;
    if a.ClaimBatch? && TakesKey(s.db.rows, a.ids, key) {
      var k :| 0 <= k < |a.ids| && a.ids[k] < |s.db.rows| && HandlerKey(s.db.rows[a.ids[k]].event) == key;
      forall w | w in s.workers ensures !HoldsKey(s.workers[w], key) {
        forall j | 0 <= j < |s.workers[w].batch| ensures s.workers[w].batch[j].Key() != key {
          HeldEvent(cfg, s, w, j);
          assert !Held(s.workers, a.ids[k]);
        }
      }
    }
  }

  predicate SameEvents(rows: seq<Row>, rows': seq<Row>) {
    |rows'| == |rows| && forall i | 0 <= i < |rows'| :: rows'[i].event == rows[i].event
  }

  lemma MarksKeepEvents(cfg: Config, db: Db, c: Claim, localNow: nat, jitter: nat)
    ensures SameEvents(db.rows, MarkProcessedDb(db, c.id, Some(c.token)).rows)
    ensures SameEvents(db.rows, FailDb(cfg, db, c, localNow, jitter).rows)
  {
    hide HandlerKey, Backoff.Jittered;
  }

  lemma OthersKeepEvents(db: Db, ids: seq<nat>, expiresAt: nat, id: nat)
    ensures SameEvents(db.rows, RetryDb(db, id).rows) && SameEvents(db.rows, RequeueDb(db, id).rows)
    ensures SameEvents(db.rows, ClaimDb(db, ids, expiresAt).rows)
  {
    hide HandlerKey, ClaimRows;
  }

  lemma EventsStay(cfg: Config, s: System, a: Action)
    requires !a.Insert?
    ensures SameEvents(s.db.rows, Apply(cfg, s, a).db.rows)
  {
    hide HandlerKey, ClaimDb, IsSelection, Effective, MarkProcessedDb, FailDb, RetryDb, RequeueDb;
    match a
    case ClaimBatch(_, ids, _, _, localNow) => OthersKeepEvents(s.db, ids, localNow + cfg.leaseMs, 0);
    case ManualRetry(id) => OthersKeepEvents(s.db, [], 0, id);
    case ManualRequeue(id) => OthersKeepEvents(s.db, [], 0, id);
    case MarkDone(w, _) => if At(s, w, MarkingDone) { MarksKeepEvents(cfg, s.db, Current(s, w), 0, 0); }
    case MarkFail(w, _, localNow, jitter) =>
      if At(s, w, MarkingFailed) {
        MarksKeepEvents(cfg, s.db, Current(s, w), localNow, jitter);
      }
    case _ =>
  }

  lemma KeysStayDistinct(cfg: Config, s: System, a: Action)
    requires KeysDistinct(s.db.rows) && RespectsAll(s, a)
    ensures KeysDistinct(Apply(cfg, s, a).db.rows)
  {
    hide HandlerKey;
    if !a.Insert? {
      hide Apply;
      EventsStay(cfg, s, a);
    }
  }

  lemma {:induction false} OrderlyIsRespectful(cfg: Config, s: System, run: seq<Action>, key: Key)
    requires Inv(cfg, s) && KeysDistinct(s.db.rows) && OrderlyRun(cfg, s, run)
    ensures RespectfulRun(cfg, s, run, key)
    decreases |run|
  {
    hide Inv, KeysDistinct, RespectsAll, Respects, Apply;
    if run != [] {
      RespectsAllRespects(cfg, s, run[0], key);
      KeepStep(cfg, s, run[0]);
      KeysStayDistinct(cfg, s, run[0]);
      OrderlyIsRespectful(cfg, Apply(cfg, s, run[0]), run[1..], key);
    }
  }

  /** In an orderly run every processed row was handled. */
  lemma OrderlyRunHandles(cfg: Config, run: seq<Action>, id: nat)
    requires OrderlyRun(cfg, Init(), run)
    requires id < |Exec(cfg, Init(), run).db.rows| && Exec(cfg, Init(), run).db.rows[id].status == Processed
    ensures var s := Exec(cfg, Init(), run); var key := HandlerKey(s.db.rows[id].event);
            IsRecorded(s, key) && key in s.handled
  {
    hide Exec, HandlerKey, RespectfulRun, OrderlyRun;
    var key := HandlerKey(Exec(cfg, Init(), run).db.rows[id].event);
    InitiallyOk(cfg, key);
    OrderlyIsRespectful(cfg, Init(), run, key);
    ProcessedMeansHandled(cfg, run, id);
  }
}
