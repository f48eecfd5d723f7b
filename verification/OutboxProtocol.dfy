/** Any number of publishers working on the outbox tables: every statement is one step, steps
    of different workers interleave freely, and any statement may be lost or half-acknowledged. */
module OutboxProtocol {
  import opened Common
  import opened OutboxTable
  import opened Backoff

  type Config = c: RawConfig | c.maxAttempts > 0 witness RawConfig(1, 1, 1, 1)
  datatype RawConfig = RawConfig(maxAttempts: nat, leaseMs: nat, baseMs: nat, capMs: nat)

  /** What a worker does next for the first event of its batch. */
  datatype Phase =
    | Reserving      // about to INSERT IGNORE the ledger entry
    | Inspecting     // the insert was ignored; about to read the entry
    | Dispatching    // inside the handler
    | Recording      // handler done; about to record the entry
    | Releasing      // handler or recording failed; about to release the entry
    | MarkingDone    // about to mark the row processed
    | MarkingFailed  // about to mark the row failed or dead

  datatype Worker = Worker(batch: seq<Claim>, phase: Phase)

  /** Tables, running workers, and four history variables: claims ever made, marks that changed
      a row, dispatches started, and keys whose handler ran to completion. */
  datatype System = System(
    db: Db,
    workers: map<nat, Worker>,
    claims: seq<Claim>,
    marks: seq<Claim>,
    resets: nat,
    starts: seq<Key>,
    handled: set<Key>)

  function Init(): System { System(EmptyDb(), map[], [], [], 0, [], {}) }

  datatype Action =
    | Tick(ms: nat)
    | Insert(event: Business)
    | ClaimBatch(w: nat, ids: seq<nat>, limit: nat, locked: set<nat>, localNow: nat)
    | Reserve(w: nat, outcome: Outcome)
    | Inspect(w: nat, outcome: Outcome)
    | EndDispatch(w: nat, handlerOk: bool)
    | Record(w: nat, outcome: Outcome)
    | Release(w: nat, outcome: Outcome)
    | MarkDone(w: nat, outcome: Outcome)
    | MarkFail(w: nat, outcome: Outcome, localNow: nat, jitter: nat)
    | Crash(w: nat)
    | ManualRetry(id: nat)
    | ManualRequeue(id: nat)

  predicate At(s: System, w: nat, p: Phase) {
    w in s.workers && |s.workers[w].batch| > 0 && s.workers[w].phase == p
  }

  function Current(s: System, w: nat): Claim
    requires w in s.workers && |s.workers[w].batch| > 0
  {
    s.workers[w].batch[0]
  }

  function Goto(s: System, w: nat, p: Phase): System
    requires w in s.workers
  {
    s.(workers := s.workers[w := s.workers[w].(phase := p)])
  }

  /** The worker turns to the next event of its batch, or its tick ends. */
  function Advance(s: System, w: nat): System
    requires w in s.workers && |s.workers[w].batch| > 0
  {
    var rest := s.workers[w].batch[1..];
    if rest == [] then Drop(s, w) else s.(workers := s.workers[w := Worker(rest, Reserving)])
  }

  function Drop(s: System, w: nat): System { s.(workers := s.workers - {w}) }

  /** `dispatchEvent`: only order.created has a handler that can fail; unknown types always fail. */
  predicate DispatchOk(eventType: string, handlerOk: bool) {
    if eventType == "order.created" then handlerOk
    else eventType == "order.status_changed" || eventType == "media.generated"
  }

  predicate Effective(db: Db, c: Claim) {
    c.id < |db.rows| && db.rows[c.id].leaseToken == Some(c.token)
  }

  function FailDb(cfg: Config, db: Db, c: Claim, localNow: nat, jitter: nat): Db {
    var attempts := c.attempts + 1;
    if attempts >= cfg.maxAttempts then MarkDeadLetterDb(db, c.id, attempts, Some(c.token))
    else
      var retryAt := localNow + Jittered(cfg.baseMs, attempts, cfg.capMs, jitter);
      MarkFailedDb(db, c.id, attempts, Some(retryAt), Some(c.token))
  }

  // ------------------------------------------------------------ one function per step

  function StepInsert(s: System, e: Business): System {
    var r := Row(e, Pending, 0, None, None, None, None, 0, s.db.now);
    s.(db := s.db.(rows := s.db.rows + [r]))
  }

  ghost predicate CanClaim(s: System, w: nat, ids: seq<nat>, limit: nat, locked: set<nat>) {
    w !in s.workers && ids != [] && IsSelection(s.db, ids, limit, locked)
  }

  ghost function StepClaim(cfg: Config, s: System, w: nat, ids: seq<nat>, limit: nat, locked: set<nat>,
                           localNow: nat): System
  {
    if !CanClaim(s, w, ids, limit, locked) then s
    else
      var batch := ClaimsOf(s.db.rows, ids, s.db.freshToken);
      s.(db := ClaimDb(s.db, ids, localNow + cfg.leaseMs),
      workers := s.workers[w := Worker(batch, Reserving)],
      claims := s.claims + batch)
  }

  function StepReserve(s: System, w: nat, outcome: Outcome): System {
    if !At(s, w, Reserving) then s
    else
      var key := Current(s, w).Key();
      var isNew := key !in s.db.ledger;
      var s' := if outcome.Applied() then s.(db := ReserveDb(s.db, key)) else s;
      if outcome != Done then Goto(s', w, MarkingFailed)
      else if isNew then Goto(s'.(starts := s.starts + [key]), w, Dispatching)
      else Goto(s', w, Inspecting)
  }

  function StepInspect(s: System, w: nat, outcome: Outcome): System {
    if !At(s, w, Inspecting) then s
    else Goto(s, w, if outcome == Done then MarkingDone else MarkingFailed)
  }

  function StepEndDispatch(s: System, w: nat, handlerOk: bool): System {
    if !At(s, w, Dispatching) then s
    else if DispatchOk(Current(s, w).event.eventType, handlerOk)
    then Goto(s.(handled := s.handled + {Current(s, w).Key()}), w, Recording)
    else Goto(s, w, Releasing)
  }

  function StepRecord(s: System, w: nat, outcome: Outcome): System {
    if !At(s, w, Recording) then s
    else
      var s' := if outcome.Applied() then s.(db := RecordDb(s.db, Current(s, w).Key())) else s;
      Goto(s', w, if outcome == Done then MarkingDone else Releasing)
  }

  function StepRelease(s: System, w: nat, outcome: Outcome): System {
    if !At(s, w, Releasing) then s
    else
      var s' := if outcome.Applied() then s.(db := ReleaseDb(s.db, Current(s, w).Key())) else s;
      Goto(s', w, MarkingFailed)
  }

  function LogMark(s: System, c: Claim): System {
    if Effective(s.db, c) then s.(marks := s.marks + [c]) else s
  }

  function StepMarkDone(s: System, w: nat, outcome: Outcome): System {
    if !At(s, w, MarkingDone) then s
    else
      var c := Current(s, w);
      var s' := if outcome.Applied()
                then LogMark(s, c).(db := MarkProcessedDb(s.db, c.id, Some(c.token))) else s;
      if outcome == Done then Advance(s', w) else Goto(s', w, MarkingFailed)
  }

  /** An error while marking the failure escapes `processEvent` and ends the whole tick. */
  function StepMarkFail(cfg: Config, s: System, w: nat, outcome: Outcome, localNow: nat, jitter: nat)
    : System
  {
    if !At(s, w, MarkingFailed) then s
    else
      var c := Current(s, w);
      var s' := if outcome.Applied()
                then LogMark(s, c).(db := FailDb(cfg, s.db, c, localNow, jitter)) else s;
      if outcome == Done then Advance(s', w) else Drop(s', w)
  }

  function StepRetry(s: System, id: nat): System {
    if id >= |s.db.rows| then s else s.(db := RetryDb(s.db, id), resets := s.resets + 1)
  }

  function StepRequeue(s: System, id: nat): System {
    if id >= |s.db.rows| || s.db.rows[id].status != DeadLetter then s
    else s.(db := RequeueDb(s.db, id), resets := s.resets + 1)
  }

  /** One step; an action that is not enabled changes nothing. */
  ghost function Apply(cfg: Config, s: System, a: Action): System {
    match a
    case Tick(ms) => s.(db := s.db.(now := s.db.now + ms))
    case Insert(e) => StepInsert(s, e)
    case ClaimBatch(w, ids, limit, locked, localNow) => StepClaim(cfg, s, w, ids, limit, locked, localNow)
    case Reserve(w, outcome) => StepReserve(s, w, outcome)
    case Inspect(w, outcome) => StepInspect(s, w, outcome)
    case EndDispatch(w, handlerOk) => StepEndDispatch(s, w, handlerOk)
    case Record(w, outcome) => StepRecord(s, w, outcome)
    case Release(w, outcome) => StepRelease(s, w, outcome)
    case MarkDone(w, outcome) => StepMarkDone(s, w, outcome)
    case MarkFail(w, outcome, localNow, jitter) => StepMarkFail(cfg, s, w, outcome, localNow, jitter)
    case Crash(w) => Drop(s, w)
    case ManualRetry(id) => StepRetry(s, id)
    case ManualRequeue(id) => StepRequeue(s, id)
  }

  /** The state after a whole run. */
  ghost function Exec(cfg: Config, s: System, run: seq<Action>): System
    decreases |run|
  {
    if run == [] then s else Exec(cfg, Apply(cfg, s, run[0]), run[1..])
  }
}
