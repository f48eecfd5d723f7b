/** The inbox table, its repository, and any number of workers processing received events. */
module Inbox {
  import opened Common
  import Backoff

  datatype Status = Received | Processing | Processed | Failed | DeadLetter

  /** A row's id is its position in the table. */
  datatype Row = Row(
    eventId: string,
    eventType: string,
    status: Status,
    attempts: nat,
    nextRetryAt: Option<nat>,
    processedAt: Option<nat>,
    createdAt: nat)

  datatype Config = Config(maxAttempts: int, baseMs: nat, capMs: nat) {
    /** The most often an event can be claimed: the first claim needs no allowance. */
    function Claims(): nat { Max(1, maxAttempts) }
  }

  /** The record of one claimed event. */
  datatype Claim = Claim(id: nat, eventType: string, attempts: nat)

  // ------------------------------------------------------------ statements

  predicate Known(rows: seq<Row>, eventId: string) { exists i :: 0 <= i < |rows| && rows[i].eventId == eventId }

  /** `INSERT IGNORE` under the unique key on the event id. */
  function ReceiveRows(rows: seq<Row>, eventId: string, eventType: string, now: nat): seq<Row> {
    if Known(rows, eventId) then rows
    else rows + [Row(eventId, eventType, Received, 0, None, None, now)]
  }

  predicate IsDue(r: Row, now: nat) {
    r.status == Received || (r.status == Failed && r.nextRetryAt.Some? && r.nextRetryAt.value <= now)
  }

  predicate Selectable(rows: seq<Row>, now: nat, id: nat, locked: set<nat>) {
    id < |rows| && IsDue(rows[id], now) && id !in locked
  }

  /** Which id lists `ORDER BY created_at ASC LIMIT ? FOR UPDATE SKIP LOCKED` may return. */
  ghost predicate IsSelection(rows: seq<Row>, now: nat, ids: seq<nat>, limit: nat, locked: set<nat>) {
    && |ids| <= limit && Distinct(ids)
    && (forall k | 0 <= k < |ids| :: Selectable(rows, now, ids[k], locked))
    && (forall j, k | 0 <= j < k < |ids| :: rows[ids[j]].createdAt <= rows[ids[k]].createdAt)
    && (forall id: nat | Selectable(rows, now, id, locked) && id !in ids ::
          |ids| == limit && forall k | 0 <= k < |ids| :: rows[ids[k]].createdAt <= rows[id].createdAt)
  }

  function ClaimRow(r: Row): Row { r.(status := Processing, attempts := r.attempts + 1) }

  function ClaimRows(rows: seq<Row>, ids: seq<nat>): (out: seq<Row>)
    ensures |out| == |rows|
    ensures forall i | 0 <= i < |rows| :: out[i] == if i in ids then ClaimRow(rows[i]) else rows[i]
  {
    seq(|rows|, i requires 0 <= i < |rows| => if i in ids then ClaimRow(rows[i]) else rows[i])
  }

  function ClaimsOf(rows: seq<Row>, ids: seq<nat>): (out: seq<Claim>)
    requires forall k | 0 <= k < |ids| :: ids[k] < |rows|
    ensures |out| == |ids|
    ensures forall k | 0 <= k < |ids| ::
              out[k] == Claim(ids[k], rows[ids[k]].eventType, rows[ids[k]].attempts + 1)
  {
    seq(|ids|, k requires 0 <= k < |ids| => Claim(ids[k], rows[ids[k]].eventType, rows[ids[k]].attempts + 1))
  }

  function ProcessedRow(r: Row, now: nat): Row {
    r.(status := Processed, processedAt := Some(now), nextRetryAt := None)
  }

  function FailedRow(r: Row, retryAt: nat): Row {
    r.(status := Failed, nextRetryAt := Some(retryAt), processedAt := None)
  }

  function DeadLetterRow(r: Row): Row { r.(status := DeadLetter, nextRetryAt := None, processedAt := None) }

  /** `UPDATE … WHERE id = ?`: nothing else is checked. */
  function Update(rows: seq<Row>, id: nat, r: Row -> Row): seq<Row> {
    if id < |rows| then rows[id := r(rows[id])] else rows
  }

  function FailedOutcome(cfg: Config, r: Row, c: Claim, localNow: nat): Row {
    if c.attempts >= cfg.maxAttempts then DeadLetterRow(r)
    else FailedRow(r, localNow + Backoff.Exponential(cfg.baseMs, c.attempts, cfg.capMs))
  }

  // ------------------------------------------------------------ workers

  /** What a worker does next for the first event of its batch. */
  datatype Stage =
    | Ready             // about to look up and call the handler
    | Running           // inside the handler
    | MarkingProcessed  // the handler returned
    | MarkingFailed     // there is no handler, or the handler or the previous mark threw

  datatype Worker = Worker(batch: seq<Claim>, stage: Stage)

  /** The table, running workers, and two histories: handler calls started, events whose handler
      returned normally. */
  datatype System = System(rows: seq<Row>, workers: map<nat, Worker>, now: nat, runs: seq<nat>, done: set<nat>)

  const INITIAL := System([], map[], 0, [], {})

  datatype Action =
    | Tick(ms: nat)
    | Receive(eventId: string, eventType: string)
    | ClaimBatch(w: nat, ids: seq<nat>, limit: nat, locked: set<nat>, outcome: Outcome)
    | Start(w: nat, registered: bool)
    | Return(w: nat, ok: bool)
    | MarkProcessed(w: nat, outcome: Outcome)
    | MarkFailed(w: nat, outcome: Outcome, localNow: nat)
    | Crash(w: nat)

  predicate At(s: System, w: nat, stage: Stage) {
    w in s.workers && s.workers[w].batch != [] && s.workers[w].stage == stage
  }

  function Current(s: System, w: nat): Claim
    requires w in s.workers && s.workers[w].batch != []
  {
    s.workers[w].batch[0]
  }

  function Goto(s: System, w: nat, stage: Stage): System
    requires w in s.workers
  {
    s.(workers := s.workers[w := s.workers[w].(stage := stage)])
  }

  /** The next event of the batch. */
  function Next(s: System, w: nat): System
    requires w in s.workers && s.workers[w].batch != []
  {
    s.(workers := s.workers[w := Worker(s.workers[w].batch[1..], Ready)])
  }

  /** A worker whose commit was not acknowledged leaves the claimed rows without a holder. */
  ghost function StepClaim(s: System, w: nat, ids: seq<nat>, limit: nat, locked: set<nat>, outcome: Outcome): System {
    if w in s.workers || !IsSelection(s.rows, s.now, ids, limit, locked) || !outcome.Applied() then s
    else
      var s' := s.(rows := ClaimRows(s.rows, ids));
      if outcome == Done then s'.(workers := s.workers[w := Worker(ClaimsOf(s.rows, ids), Ready)]) else s'
  }

  function StepStart(s: System, w: nat, registered: bool): System {
    if !At(s, w, Ready) then s
    else if registered then Goto(s.(runs := s.runs + [Current(s, w).id]), w, Running)
    else Goto(s, w, MarkingFailed)
  }

  function StepReturn(s: System, w: nat, ok: bool): System {
    if !At(s, w, Running) then s
    else if ok then Goto(s.(done := s.done + {Current(s, w).id}), w, MarkingProcessed)
    else Goto(s, w, MarkingFailed)
  }

  function StepMarkProcessed(s: System, w: nat, outcome: Outcome): System {
    if !At(s, w, MarkingProcessed) then s
    else
      var id, now := Current(s, w).id, s.now;
      var s' := if outcome.Applied() then s.(rows := Update(s.rows, id, (r: Row) => ProcessedRow(r, now))) else s;
      if outcome == Done then Next(s', w) else Goto(s', w, MarkingFailed)
  }

  /** An error while marking the failure ends the whole batch. */
  function StepMarkFailed(cfg: Config, s: System, w: nat, outcome: Outcome, localNow: nat): System {
    if !At(s, w, MarkingFailed) then s
    else
      var c := Current(s, w);
      var s' := if outcome.Applied()
                then s.(rows := Update(s.rows, c.id, (r: Row) => FailedOutcome(cfg, r, c, localNow))) else s;
      if outcome == Done then Next(s', w) else s'.(workers := s.workers - {w})
  }

  ghost function Apply(cfg: Config, s: System, a: Action): System {
    match a
    case Tick(ms) => s.(now := s.now + ms)
    case Receive(eventId, eventType) => s.(rows := ReceiveRows(s.rows, eventId, eventType, s.now))
    case ClaimBatch(w, ids, limit, locked, outcome) => StepClaim(s, w, ids, limit, locked, outcome)
    case Start(w, registered) => StepStart(s, w, registered)
    case Return(w, ok) => StepReturn(s, w, ok)
    case MarkProcessed(w, outcome) => StepMarkProcessed(s, w, outcome)
    case MarkFailed(w, outcome, localNow) => StepMarkFailed(cfg, s, w, outcome, localNow)
    case Crash(w) => s.(workers := s.workers - {w})
  }

  ghost function Exec(cfg: Config, s: System, run: seq<Action>): System
    decreases |run|
  {
    if run == [] then s else Exec(cfg, Apply(cfg, s, run[0]), run[1..])
  }

  // ------------------------------------------------------------ invariant

  predicate Holds(workers: map<nat, Worker>, w: nat, k: nat, id: nat) {
    w in workers && k < |workers[w].batch| && workers[w].batch[k].id == id
  }

  /** No event is in two places at once. */
  ghost predicate Exclusive(workers: map<nat, Worker>) {
    forall w: nat, k: nat, w': nat, k': nat, id: nat | Holds(workers, w, k, id) && Holds(workers, w', k', id) ::
      w == w' && k == k'
  }

  /** A claim against the row it was made on. */
  predicate ClaimFits(rows: seq<Row>, done: set<nat>, c: Claim, first: bool, stage: Stage) {
    && c.id < |rows| && rows[c.id].attempts == c.attempts >= 1
    && (rows[c.id].status == Processing || (first && stage == MarkingFailed && rows[c.id].status == Processed))
    && (first && stage == MarkingProcessed ==> c.id in done)
  }

  ghost predicate ClaimsFit(rows: seq<Row>, done: set<nat>, workers: map<nat, Worker>) {
    forall w, k: nat | w in workers && k < |workers[w].batch| ::
      ClaimFits(rows, done, workers[w].batch[k], k == 0, workers[w].stage)
  }

  predicate RowFits(cfg: Config, r: Row, done: bool) {
    match r.status
    case Received => r.attempts == 0
    case Failed => 1 <= r.attempts < cfg.maxAttempts && r.nextRetryAt.Some?
    case DeadLetter => r.attempts == cfg.Claims()
    case Processing => 1 <= r.attempts <= cfg.Claims()
    case Processed => 1 <= r.attempts <= cfg.Claims() && done
  }

  ghost predicate RowsFit(cfg: Config, rows: seq<Row>, done: set<nat>) {
    forall i | 0 <= i < |rows| :: RowFits(cfg, rows[i], i in done)
  }

  ghost predicate UniqueIds(rows: seq<Row>) {
    forall i, j | 0 <= i < j < |rows| :: rows[i].eventId != rows[j].eventId
  }

  function Calls(runs: seq<nat>, id: nat): nat {
    if runs == [] then 0 else Calls(runs[..|runs| - 1], id) + if runs[|runs| - 1] == id then 1 else 0
  }

  /** Claimed, and the handler not called yet for this claim. */
  ghost predicate Waits(workers: map<nat, Worker>, id: nat) {
    exists w, k: nat :: Holds(workers, w, k, id) && (k > 0 || workers[w].stage == Ready)
  }

  /** One handler call per claim at most. */
  ghost predicate CallsFit(rows: seq<Row>, runs: seq<nat>, workers: map<nat, Worker>) {
    && (forall id: nat | id < |rows| ::
          Calls(runs, id) + (if Waits(workers, id) then 1 else 0) <= rows[id].attempts)
    && (forall id: nat | id >= |rows| :: Calls(runs, id) == 0)
  }

  ghost predicate Inv(cfg: Config, s: System) {
    && UniqueIds(s.rows)
    && RowsFit(cfg, s.rows, s.done)
    && Exclusive(s.workers)
    && ClaimsFit(s.rows, s.done, s.workers)
    && CallsFit(s.rows, s.runs, s.workers)
  }

  // ------------------------------------------------------------ every step keeps it

  lemma KeepReceive(cfg: Config, s: System, eventId: string, eventType: string)
    requires Inv(cfg, s)
    ensures Inv(cfg, Apply(cfg, s, Receive(eventId, eventType)))
  {
    var rows' := ReceiveRows(s.rows, eventId, eventType, s.now);
    assert UniqueIds(rows');
    assert RowsFit(cfg, rows', s.done);
    assert ClaimsFit(rows', s.done, s.workers);
    forall id: nat | id < |rows'|
      ensures Calls(s.runs, id) + (if Waits(s.workers, id) then 1 else 0) <= rows'[id].attempts
    {
      if id == |s.rows| && Waits(s.workers, id) {
        var w, k: nat :| Holds(s.workers, w, k, id) && (k > 0 || s.workers[w].stage == Ready);
        HeldInTable(s.rows, s.done, s.workers, w, k, id);
        assert false;
      }
    }
  }

  lemma HeldInTable(rows: seq<Row>, done: set<nat>, workers: map<nat, Worker>, w: nat, k: nat, id: nat)
    requires ClaimsFit(rows, done, workers) && Holds(workers, w, k, id)
    ensures id < |rows|
  {
    assert ClaimFits(rows, done, workers[w].batch[k], k == 0, workers[w].stage);
  }

  lemma KeepClaim(cfg: Config, s: System, w: nat, ids: seq<nat>, limit: nat, locked: set<nat>, outcome: Outcome)
    requires Inv(cfg, s)
    ensures Inv(cfg, StepClaim(s, w, ids, limit, locked, outcome))
  {
    if w !in s.workers && IsSelection(s.rows, s.now, ids, limit, locked) && outcome.Applied() {
      DueIsUnheld(cfg, s, ids, limit, locked);
      var s' := StepClaim(s, w, ids, limit, locked, outcome);
      ClaimedRowsFit(cfg, s, ids, limit, locked);
      ClaimedExclusive(s, w, ids, limit, locked, outcome);
      ClaimedClaimsFit(cfg, s, w, ids, limit, locked, outcome);
      ClaimedCallsFit(cfg, s, w, ids, limit, locked, outcome);
    }
  }

  /** Only rows nobody holds are due. */
  lemma DueIsUnheld(cfg: Config, s: System, ids: seq<nat>, limit: nat, locked: set<nat>)
    requires Inv(cfg, s) && IsSelection(s.rows, s.now, ids, limit, locked)
    ensures forall w: nat, k: nat, id: nat | Holds(s.workers, w, k, id) :: id !in ids
  {
    assert forall id | id in ids :: id < |s.rows| && IsDue(s.rows[id], s.now);
    forall w: nat, k: nat, id: nat | Holds(s.workers, w, k, id) ensures id !in ids {
      HeldIsNotDue(s, w, k, id);
    }
  }

  lemma HeldIsNotDue(s: System, w: nat, k: nat, id: nat)
    requires ClaimsFit(s.rows, s.done, s.workers) && Holds(s.workers, w, k, id)
    ensures id < |s.rows| && !IsDue(s.rows[id], s.now)
  {
    assert ClaimFits(s.rows, s.done, s.workers[w].batch[k], k == 0, s.workers[w].stage);
  }

  lemma ClaimedRowsFit(cfg: Config, s: System, ids: seq<nat>, limit: nat, locked: set<nat>)
    requires RowsFit(cfg, s.rows, s.done) && UniqueIds(s.rows) && IsSelection(s.rows, s.now, ids, limit, locked)
    ensures RowsFit(cfg, ClaimRows(s.rows, ids), s.done) && UniqueIds(ClaimRows(s.rows, ids))
  {
    hide ClaimRows;
    var rows' := ClaimRows(s.rows, ids);
    forall i | 0 <= i < |rows'| ensures RowFits(cfg, rows'[i], i in s.done) {
      assert RowFits(cfg, s.rows[i], i in s.done);
    }
  }

  lemma ClaimedExclusive(s: System, w: nat, ids: seq<nat>, limit: nat, locked: set<nat>, outcome: Outcome)
    requires w !in s.workers && IsSelection(s.rows, s.now, ids, limit, locked) && outcome.Applied()
    requires Exclusive(s.workers) && forall w: nat, k: nat, id: nat | Holds(s.workers, w, k, id) :: id !in ids
    ensures Exclusive(StepClaim(s, w, ids, limit, locked, outcome).workers)
  {
    hide ClaimRows, ClaimsOf;
    var ws := StepClaim(s, w, ids, limit, locked, outcome).workers;
    forall a: nat, i: nat, b: nat, j: nat, id: nat | Holds(ws, a, i, id) && Holds(ws, b, j, id)
      ensures a == b && i == j
    {
      assert a == w || Holds(s.workers, a, i, id);
      assert b == w || Holds(s.workers, b, j, id);
    }
  }

  lemma ClaimedClaimsFit(cfg: Config, s: System, w: nat, ids: seq<nat>, limit: nat, locked: set<nat>, outcome: Outcome)
    requires Inv(cfg, s)
    requires w !in s.workers && IsSelection(s.rows, s.now, ids, limit, locked) && outcome.Applied()
    requires forall w: nat, k: nat, id: nat | Holds(s.workers, w, k, id) :: id !in ids
    ensures var s' := StepClaim(s, w, ids, limit, locked, outcome); ClaimsFit(s'.rows, s.done, s'.workers)
  {
    hide ClaimRows, ClaimsOf;
    var s' := StepClaim(s, w, ids, limit, locked, outcome);
    forall a, k: nat | a in s'.workers && k < |s'.workers[a].batch|
      ensures ClaimFits(s'.rows, s.done, s'.workers[a].batch[k], k == 0, s'.workers[a].stage)
    {
      if a in s.workers {
        assert Holds(s.workers, a, k, s.workers[a].batch[k].id);
        assert ClaimFits(s.rows, s.done, s.workers[a].batch[k], k == 0, s.workers[a].stage);
      } else {
        assert ids[k] in ids;
      }
    }
  }

  lemma ClaimedCallsFit(cfg: Config, s: System, w: nat, ids: seq<nat>, limit: nat, locked: set<nat>, outcome: Outcome)
    requires Inv(cfg, s)
    requires w !in s.workers && IsSelection(s.rows, s.now, ids, limit, locked) && outcome.Applied()
    ensures var s' := StepClaim(s, w, ids, limit, locked, outcome); CallsFit(s'.rows, s.runs, s'.workers)
  {
    hide ClaimRows, ClaimsOf, Calls;
    var s' := StepClaim(s, w, ids, limit, locked, outcome);
    forall id: nat | id < |s'.rows|
      ensures Calls(s.runs, id) + (if Waits(s'.workers, id) then 1 else 0) <= s'.rows[id].attempts
    {
      if id !in ids && Waits(s'.workers, id) {
        var a, k: nat :| Holds(s'.workers, a, k, id) && (k > 0 || s'.workers[a].stage == Ready);
        assert a in s.workers && Holds(s.workers, a, k, id);
      }
    }
  }

  /** A worker that leaves, moves to another stage, or to its next event, holds nothing new. */
  predicate Releases(before: map<nat, Worker>, after: map<nat, Worker>, w: nat) {
    && w in before && before[w].batch != []
    && after - {w} == before - {w}
    && (w in after ==>
          || (after[w].batch == before[w].batch && after[w].stage != Ready)
          || (after[w].batch == before[w].batch[1..] && after[w].stage == Ready))
  }

  lemma ReleasedHolds(before: map<nat, Worker>, after: map<nat, Worker>, w: nat, a: nat, k: nat, id: nat)
    requires Releases(before, after, w) && Holds(after, a, k, id)
    ensures Holds(before, a, if a == w && after[w].batch != before[w].batch then k + 1 else k, id)
  {
    assert a != w ==> a in after - {w} && a in before - {w};
  }

  lemma ReleasedExclusive(before: map<nat, Worker>, after: map<nat, Worker>, w: nat)
    requires Releases(before, after, w) && Exclusive(before)
    ensures Exclusive(after)
  {
    hide Releases;
    forall a: nat, i: nat, b: nat, j: nat, id: nat | Holds(after, a, i, id) && Holds(after, b, j, id)
      ensures a == b && i == j
    {
      ReleasedHolds(before, after, w, a, i, id);
      ReleasedHolds(before, after, w, b, j, id);
    }
  }

  /** What a step of worker w may do to the tables: rewrite its current row within its attempts. */
  predicate Rewrites(rows: seq<Row>, rows': seq<Row>, id: nat) {
    && |rows'| == |rows|
    && (forall i | 0 <= i < |rows| && i != id :: rows'[i] == rows[i])
    && (id < |rows| ==> rows'[id].attempts == rows[id].attempts && rows'[id].eventId == rows[id].eventId)
  }

  lemma ReleasedWaits(before: map<nat, Worker>, after: map<nat, Worker>, w: nat, id: nat)
    requires Releases(before, after, w) && Waits(after, id)
    ensures Waits(before, id)
  {
    var a, k: nat :| Holds(after, a, k, id) && (k > 0 || after[a].stage == Ready);
    ReleasedHolds(before, after, w, a, k, id);
    var k' := if a == w && after[w].batch != before[w].batch then k + 1 else k;
    assert Holds(before, a, k', id);
    assert a != w ==> a in after - {w} && a in before - {w};
    assert k' > 0 || before[a].stage == Ready;
  }

  lemma ReleasedCallsFit(s: System, rows': seq<Row>, after: map<nat, Worker>, w: nat, id: nat)
    requires CallsFit(s.rows, s.runs, s.workers) && Releases(s.workers, after, w) && Rewrites(s.rows, rows', id)
    ensures CallsFit(rows', s.runs, after)
  {
    hide Calls, Releases, Waits;
    forall i: nat | i < |rows'| ensures Calls(s.runs, i) + (if Waits(after, i) then 1 else 0) <= rows'[i].attempts {
      if Waits(after, i) {
        ReleasedWaits(s.workers, after, w, i);
      }
    }
  }

  /** The other claims still fit after a step of worker w. */
  lemma ReleasedClaimsFit(s: System, rows': seq<Row>, done': set<nat>, after: map<nat, Worker>, w: nat)
    requires ClaimsFit(s.rows, s.done, s.workers) && Exclusive(s.workers) && Releases(s.workers, after, w)
    requires Rewrites(s.rows, rows', s.workers[w].batch[0].id) && s.done <= done'
    requires w in after && after[w].batch == s.workers[w].batch ==>
               ClaimFits(rows', done', s.workers[w].batch[0], true, after[w].stage)
    ensures ClaimsFit(rows', done', after)
  {
    hide Exclusive;
    var old0 := s.workers[w].batch[0].id;
    forall a, k: nat | a in after && k < |after[a].batch|
      ensures ClaimFits(rows', done', after[a].batch[k], k == 0, after[a].stage)
    {
      var k' := if a == w && after[w].batch != s.workers[w].batch then k + 1 else k;
      assert a != w ==> a in after - {w} && a in s.workers - {w};
      var c := s.workers[a].batch[k'];
      assert ClaimFits(s.rows, s.done, c, k' == 0, s.workers[a].stage);
      if a != w || k' > 0 {
        OtherId(s.workers, w, a, k');
      }
    }
  }

  lemma OtherId(workers: map<nat, Worker>, w: nat, a: nat, k: nat)
    requires Exclusive(workers) && w in workers && workers[w].batch != []
    requires a in workers && k < |workers[a].batch| && (a != w || k > 0)
    ensures workers[a].batch[k].id != workers[w].batch[0].id
  {
    assert Holds(workers, a, k, workers[a].batch[k].id) && Holds(workers, w, 0, workers[w].batch[0].id);
  }

  lemma RewrittenRowsFit(cfg: Config, s: System, rows': seq<Row>, done': set<nat>, id: nat)
    requires RowsFit(cfg, s.rows, s.done) && UniqueIds(s.rows) && Rewrites(s.rows, rows', id)
    requires s.done <= done' <= s.done + {id}
    requires id < |s.rows| ==> RowFits(cfg, rows'[id], id in done')
    ensures RowsFit(cfg, rows', done') && UniqueIds(rows')
  {
    forall i | 0 <= i < |rows'| ensures RowFits(cfg, rows'[i], i in done') {
      assert RowFits(cfg, s.rows[i], i in s.done);
    }
  }

  lemma KeepReturn(cfg: Config, s: System, w: nat, ok: bool)
    requires Inv(cfg, s)
    ensures Inv(cfg, StepReturn(s, w, ok))
  {
    if At(s, w, Running) {
      hide RowsFit, UniqueIds, ClaimsFit, CallsFit, Exclusive;
      var s' := StepReturn(s, w, ok);
      var c := Current(s, w);
      HeadFits(s, w);
      assert RowFits(cfg, s.rows[c.id], c.id in s.done) by { RowAt(cfg, s, c.id); }
      assert s'.workers - {w} == s.workers - {w};
      RewrittenRowsFit(cfg, s, s.rows, s'.done, c.id);
      ReleasedExclusive(s.workers, s'.workers, w);
      ReleasedClaimsFit(s, s.rows, s'.done, s'.workers, w);
      ReleasedCallsFit(s, s.rows, s'.workers, w, c.id);
    }
  }

  lemma HeadFits(s: System, w: nat)
    requires ClaimsFit(s.rows, s.done, s.workers) && w in s.workers && s.workers[w].batch != []
    ensures ClaimFits(s.rows, s.done, Current(s, w), true, s.workers[w].stage)
  {
    assert ClaimFits(s.rows, s.done, s.workers[w].batch[0], 0 == 0, s.workers[w].stage);
  }

  lemma RowAt(cfg: Config, s: System, id: nat)
    requires RowsFit(cfg, s.rows, s.done) && id < |s.rows|
    ensures RowFits(cfg, s.rows[id], id in s.done)
  {
  }

  lemma KeepMarkProcessed(cfg: Config, s: System, w: nat, outcome: Outcome)
    requires Inv(cfg, s)
    ensures Inv(cfg, StepMarkProcessed(s, w, outcome))
  {
    if At(s, w, MarkingProcessed) {
      hide RowsFit, UniqueIds, ClaimsFit, CallsFit, Exclusive;
      var s' := StepMarkProcessed(s, w, outcome);
      var c := Current(s, w);
      HeadFits(s, w);
      RowAt(cfg, s, c.id);
      assert s'.workers - {w} == s.workers - {w};
      RewrittenRowsFit(cfg, s, s'.rows, s.done, c.id);
      ReleasedExclusive(s.workers, s'.workers, w);
      ReleasedClaimsFit(s, s'.rows, s.done, s'.workers, w);
      ReleasedCallsFit(s, s'.rows, s'.workers, w, c.id);
    }
  }

  lemma KeepMarkFailed(cfg: Config, s: System, w: nat, outcome: Outcome, localNow: nat)
    requires Inv(cfg, s)
    ensures Inv(cfg, StepMarkFailed(cfg, s, w, outcome, localNow))
  {
    if At(s, w, MarkingFailed) {
      hide RowsFit, UniqueIds, ClaimsFit, CallsFit, Exclusive, Backoff.Exponential;
      var s' := StepMarkFailed(cfg, s, w, outcome, localNow);
      var c := Current(s, w);
      HeadFits(s, w);
      RowAt(cfg, s, c.id);
      assert s'.workers - {w} == s.workers - {w};
      RewrittenRowsFit(cfg, s, s'.rows, s.done, c.id);
      ReleasedExclusive(s.workers, s'.workers, w);
      ReleasedClaimsFit(s, s'.rows, s.done, s'.workers, w);
      ReleasedCallsFit(s, s'.rows, s'.workers, w, c.id);
    }
  }

  lemma KeepCrash(cfg: Config, s: System, w: nat)
    requires Inv(cfg, s)
    ensures Inv(cfg, s.(workers := s.workers - {w}))
  {
    var ws := s.workers - {w};
    assert Exclusive(ws) by {
      forall a: nat, i: nat, b: nat, j: nat, id: nat | Holds(ws, a, i, id) && Holds(ws, b, j, id)
        ensures a == b && i == j
      {
        assert Holds(s.workers, a, i, id) && Holds(s.workers, b, j, id);
      }
    }
    forall id: nat | Waits(ws, id) ensures Waits(s.workers, id) {
      var a, k: nat :| Holds(ws, a, k, id) && (k > 0 || ws[a].stage == Ready);
      assert Holds(s.workers, a, k, id);
    }
  }

  lemma KeepStart(cfg: Config, s: System, w: nat, registered: bool)
    requires Inv(cfg, s)
    ensures Inv(cfg, StepStart(s, w, registered))
  {
    if At(s, w, Ready) {
      hide RowsFit, UniqueIds, ClaimsFit, CallsFit, Exclusive;
      var s' := StepStart(s, w, registered);
      var c := Current(s, w);
      HeadFits(s, w);
      assert s'.workers - {w} == s.workers - {w};
      ReleasedExclusive(s.workers, s'.workers, w);
      ReleasedClaimsFit(s, s.rows, s.done, s'.workers, w);
      ReleasedCallsFit(s, s.rows, s'.workers, w, c.id);
      if registered {
        StartUsesWait(s, w, s'.workers);
      }
    }
  }

  /** The call that starts takes the place of the waiting claim. */
  lemma StartUsesWait(s: System, w: nat, after: map<nat, Worker>)
    requires At(s, w, Ready) && after == s.workers[w := s.workers[w].(stage := Running)]
    requires CallsFit(s.rows, s.runs, s.workers) && CallsFit(s.rows, s.runs, after) && Exclusive(s.workers)
    requires Current(s, w).id < |s.rows|
    ensures CallsFit(s.rows, s.runs + [Current(s, w).id], after)
  {
    var id, runs := Current(s, w).id, s.runs + [Current(s, w).id];
    assert runs[..|runs| - 1] == s.runs;
    assert Holds(s.workers, w, 0, id) && Waits(s.workers, id);
    if Waits(after, id) {
      var a, k: nat :| Holds(after, a, k, id) && (k > 0 || after[a].stage == Ready);
      assert Holds(s.workers, a, k, id);
      assert false;
    }
  }

  lemma KeepStep(cfg: Config, s: System, a: Action)
    requires Inv(cfg, s)
    ensures Inv(cfg, Apply(cfg, s, a))
  {
    hide Inv, StepClaim, StepStart, StepReturn, StepMarkProcessed, StepMarkFailed;
    match a
    case Tick(ms) => KeepTick(cfg, s, s.now + ms);
    case Receive(eventId, eventType) => KeepReceive(cfg, s, eventId, eventType);
    case ClaimBatch(w, ids, limit, locked, outcome) => KeepClaim(cfg, s, w, ids, limit, locked, outcome);
    case Start(w, registered) => KeepStart(cfg, s, w, registered);
    case Return(w, ok) => KeepReturn(cfg, s, w, ok);
    case MarkProcessed(w, outcome) => KeepMarkProcessed(cfg, s, w, outcome);
    case MarkFailed(w, outcome, localNow) => KeepMarkFailed(cfg, s, w, outcome, localNow);
    case Crash(w) => KeepCrash(cfg, s, w);
  }

  lemma KeepTick(cfg: Config, s: System, now: nat)
    requires Inv(cfg, s)
    ensures Inv(cfg, s.(now := now))
  {
  }

  lemma {:induction false} KeepRun(cfg: Config, s: System, run: seq<Action>)
    requires Inv(cfg, s)
    ensures Inv(cfg, Exec(cfg, s, run))
    decreases |run|
  {
    hide Inv, Apply;
    if run != [] {
      KeepStep(cfg, s, run[0]);
      KeepRun(cfg, Apply(cfg, s, run[0]), run[1..]);
    }
  }

  lemma ReachableInv(cfg: Config, run: seq<Action>)
    ensures Inv(cfg, Exec(cfg, INITIAL, run))
  {
    assert Inv(cfg, INITIAL) by {
      NothingWaits();
    }
    hide Inv, Exec;
    KeepRun(cfg, INITIAL, run);
  }

  lemma NothingWaits()
    ensures forall id: nat :: !Waits(map[], id)
  {
  }

  // ------------------------------------------------------------ main results

  /** In every run at most one worker holds an event, so at most one is inside its handler. */
  lemma OneHolder(cfg: Config, run: seq<Action>, w: nat, w': nat)
    requires var s := Exec(cfg, INITIAL, run);
             && w in s.workers && s.workers[w].batch != [] && w' in s.workers && s.workers[w'].batch != []
             && Current(s, w).id == Current(s, w').id
    ensures w == w'
  {
    hide Exec;
    ReachableInv(cfg, run);
    var s := Exec(cfg, INITIAL, run);
    assert Holds(s.workers, w, 0, Current(s, w).id) && Holds(s.workers, w', 0, Current(s, w').id);
  }

  /** Over all workers and crashes a handler is called at most max(1, maxAttempts) times for an event,
      and never more often than the event was claimed. */
  lemma HandlerCallBound(cfg: Config, run: seq<Action>, id: nat)
    ensures var s := Exec(cfg, INITIAL, run);
            && Calls(s.runs, id) <= cfg.Claims()
            && (id < |s.rows| ==> Calls(s.runs, id) <= s.rows[id].attempts <= cfg.Claims())
  {
    hide Exec;
    ReachableInv(cfg, run);
    var s := Exec(cfg, INITIAL, run);
    if id < |s.rows| {
      assert RowFits(cfg, s.rows[id], id in s.done);
    }
  }

  /** A processed event's handler returned normally; a dead one has used all its claims; no external id
      is stored twice. */
  lemma OutcomesAreReal(cfg: Config, run: seq<Action>, i: nat, j: nat)
    requires var s := Exec(cfg, INITIAL, run); i < |s.rows| && j < |s.rows|
    ensures var s := Exec(cfg, INITIAL, run);
            && (s.rows[i].status == Processed ==> i in s.done)
            && (s.rows[i].status == DeadLetter ==> s.rows[i].attempts == cfg.Claims())
            && (s.rows[i].eventId == s.rows[j].eventId ==> i == j)
  {
    hide Exec;
    ReachableInv(cfg, run);
    var s := Exec(cfg, INITIAL, run);
    assert RowFits(cfg, s.rows[i], i in s.done);
  }

  /** Nobody holds the event and no claim will take it: processed, dead, or left in `processing`. */
  ghost predicate Settled(s: System, id: nat) {
    && id < |s.rows|
    && (s.rows[id].status == Processing || s.rows[id].status == Processed || s.rows[id].status == DeadLetter)
    && forall w: nat, k: nat :: !Holds(s.workers, w, k, id)
  }

  lemma SettledStep(cfg: Config, s: System, a: Action, id: nat)
    requires Settled(s, id)
    ensures var s' := Apply(cfg, s, a); Settled(s', id) && s'.rows[id] == s.rows[id]
  {
    hide Settled, Releases, Rewrites, StepClaim, StepStart, StepReturn, StepMarkProcessed, StepMarkFailed;
    SettledInTable(s, id);
    match a
    case Tick(ms) => SettledElsewhere(s, s.(now := s.now + ms), id);
    case Receive(_, _) => SettledElsewhere(s, Apply(cfg, s, a), id);
    case Crash(w) => SettledElsewhere(s, s.(workers := s.workers - {w}), id);
    case ClaimBatch(w, ids, limit, locked, outcome) => SettledClaim(s, w, ids, limit, locked, outcome, id);
    case Start(w, _) => WorkerStepReleases(cfg, s, a, w); SettledWorker(s, Apply(cfg, s, a), w, id);
    case Return(w, _) => WorkerStepReleases(cfg, s, a, w); SettledWorker(s, Apply(cfg, s, a), w, id);
    case MarkProcessed(w, _) => WorkerStepReleases(cfg, s, a, w); SettledWorker(s, Apply(cfg, s, a), w, id);
    case MarkFailed(w, _, _) => WorkerStepReleases(cfg, s, a, w); SettledWorker(s, Apply(cfg, s, a), w, id);
  }

  lemma SettledElsewhere(s: System, s': System, id: nat)
    requires Settled(s, id) && s.rows <= s'.rows
    requires s'.workers == s.workers || exists w :: s'.workers == s.workers - {w}
    ensures Settled(s', id) && s'.rows[id] == s.rows[id]
  {
    forall b: nat, k: nat ensures !Holds(s'.workers, b, k, id) {
      assert !Holds(s.workers, b, k, id);
    }
  }

  lemma WorkerStepReleases(cfg: Config, s: System, a: Action, w: nat)
    requires (a.Start? || a.Return? || a.MarkProcessed? || a.MarkFailed?) && a.w == w
    ensures var s' := Apply(cfg, s, a);
            s' == s || (Releases(s.workers, s'.workers, w) && Rewrites(s.rows, s'.rows, Current(s, w).id))
  {
    hide Backoff.Exponential;
    var s' := Apply(cfg, s, a);
    if s' != s {
      assert s'.workers - {w} == s.workers - {w};
    }
  }

  lemma SettledClaim(s: System, w: nat, ids: seq<nat>, limit: nat, locked: set<nat>, outcome: Outcome, id: nat)
    requires Settled(s, id)
    ensures var s' := StepClaim(s, w, ids, limit, locked, outcome); Settled(s', id) && s'.rows[id] == s.rows[id]
  {
    hide ClaimRows, ClaimsOf;
    var s' := StepClaim(s, w, ids, limit, locked, outcome);
    if IsSelection(s.rows, s.now, ids, limit, locked) {
      assert id !in ids;
      forall a: nat, k: nat ensures !Holds(s'.workers, a, k, id) {
        assert !Holds(s.workers, a, k, id);
      }
    }
  }

  lemma SettledWorker(s: System, s': System, w: nat, id: nat)
    requires Settled(s, id)
    requires s' == s || (Releases(s.workers, s'.workers, w) && Rewrites(s.rows, s'.rows, Current(s, w).id))
    ensures Settled(s', id) && s'.rows[id] == s.rows[id]
  {
    if s' != s {
      assert !Holds(s.workers, w, 0, id);
      forall a: nat, k: nat ensures !Holds(s'.workers, a, k, id) {
        if Holds(s'.workers, a, k, id) {
          ReleasedHolds(s.workers, s'.workers, w, a, k, id);
          assert false;
        }
      }
    }
  }

  /** Such an event never changes again. For a row left in `processing` by a crash this means that it is
      never retried: unlike the outbox, the inbox has no lease. */
  lemma {:induction false} SettledForever(cfg: Config, s: System, run: seq<Action>, id: nat)
    requires Settled(s, id)
    ensures var s' := Exec(cfg, s, run); Settled(s', id) && s'.rows[id] == s.rows[id]
    decreases |run|
  {
    hide Settled, Apply;
    if run != [] {
      SettledInTable(s, id);
      SettledStep(cfg, s, run[0], id);
      SettledForever(cfg, Apply(cfg, s, run[0]), run[1..], id);
    }
  }

  lemma SettledInTable(s: System, id: nat)
    requires Settled(s, id)
    ensures id < |s.rows|
  {
  }

  /** Every event that is neither settled nor in a worker's hands becomes due as the clock advances. */
  lemma OthersBecomeDue(cfg: Config, run: seq<Action>, id: nat) returns (ms: nat)
    requires id < |Exec(cfg, INITIAL, run).rows|
    requires var s := Exec(cfg, INITIAL, run);
             !Settled(s, id) && forall w: nat, k: nat :: !Holds(s.workers, w, k, id)
    ensures var s := Exec(cfg, INITIAL, run); IsDue(s.rows[id], s.now + ms)
  {
    hide Exec;
    ReachableInv(cfg, run);
    var s := Exec(cfg, INITIAL, run);
    assert RowFits(cfg, s.rows[id], id in s.done);
    ms := if s.rows[id].status == Failed then s.rows[id].nextRetryAt.value else 0;
  }

  // ------------------------------------------------------------ how an event gets stuck

  lemma Exec1(cfg: Config, s: System, a: Action, rest: seq<Action>)
    ensures Exec(cfg, s, [a] + rest) == Exec(cfg, Apply(cfg, s, a), rest)
  {
    hide Apply;
    assert ([a] + rest)[1..] == rest;
  }

  lemma ExecOne(cfg: Config, s: System, a: Action)
    ensures Exec(cfg, s, [a]) == Apply(cfg, s, a)
  {
    hide Apply;
    Exec1(cfg, s, a, []);
    assert [a] + [] == [a];
  }

  function StuckRun(eventId: string, eventType: string): seq<Action> {
    [Receive(eventId, eventType), ClaimBatch(0, [0], 1, {}, Done), Crash(0)]
  }

  /** Received, claimed, and the worker gone: the event is settled in `processing`, never processed. */
  lemma EventGetsStuck(cfg: Config, eventId: string, eventType: string)
    ensures var s := Exec(cfg, INITIAL, StuckRun(eventId, eventType));
            Settled(s, 0) && s.rows[0].status == Processing && s.runs == [] && s.done == {}
  {
    hide Exec, ClaimRows, ClaimsOf;
    var run := StuckRun(eventId, eventType);
    assert run == [run[0]] + ([run[1]] + [run[2]]);
    var s1 := Apply(cfg, INITIAL, run[0]);
    Exec1(cfg, INITIAL, run[0], [run[1]] + [run[2]]);
    assert s1.rows == [Row(eventId, eventType, Received, 0, None, None, 0)];
    assert IsSelection(s1.rows, s1.now, [0], 1, {});
    var s2 := Apply(cfg, s1, run[1]);
    Exec1(cfg, s1, run[1], [run[2]]);
    assert [0][0] in [0];
    ExecOne(cfg, s2, run[2]);
  }

  // ------------------------------------------------------------ events nobody handles

  /** No handler of type `t` is ever found. */
  ghost predicate NeverHandled(cfg: Config, s: System, run: seq<Action>, t: string)
    decreases |run|
  {
    run == []
    || (!(run[0].Start? && run[0].registered && At(s, run[0].w, Ready) && Current(s, run[0].w).eventType == t)
        && NeverHandled(cfg, Apply(cfg, s, run[0]), run[1..], t))
  }

  predicate OtherType(rows: seq<Row>, id: nat, t: string) { id < |rows| && rows[id].eventType != t }

  ghost predicate Untouched(s: System, t: string) {
    && (forall w | w in s.workers && s.workers[w].batch != [] ::
          s.workers[w].stage == Running || s.workers[w].stage == MarkingProcessed ==> Current(s, w).eventType != t)
    && (forall w, k: nat | w in s.workers && k < |s.workers[w].batch| ::
          var c := s.workers[w].batch[k]; c.id < |s.rows| && s.rows[c.id].eventType == c.eventType)
    && (forall i | 0 <= i < |s.runs| :: OtherType(s.rows, s.runs[i], t))
    && (forall id | id in s.done :: OtherType(s.rows, id, t))
  }

  /** Rows are only appended, and keep their type. */
  predicate SameTypes(rows: seq<Row>, rows': seq<Row>) {
    |rows| <= |rows'| && forall i | 0 <= i < |rows| :: rows'[i].eventType == rows[i].eventType
  }

  lemma UntouchedKept(s: System, s': System, w: nat, t: string)
    requires Untouched(s, t) && SameTypes(s.rows, s'.rows) && s'.workers - {w} == s.workers - {w}
    requires w in s'.workers && s'.workers[w].batch != [] ==>
               && w in s.workers && s.workers[w].batch != []
               && (s'.workers[w].batch == s.workers[w].batch
                   || (s'.workers[w].batch == s.workers[w].batch[1..] && s'.workers[w].stage == Ready))
               && (s'.workers[w].stage == Running || s'.workers[w].stage == MarkingProcessed ==>
                     Current(s', w).eventType != t)
    requires s'.runs == s.runs || (w in s.workers && s.workers[w].batch != [] && Current(s, w).eventType != t
                                   && s'.runs == s.runs + [Current(s, w).id])
    requires s'.done == s.done || (w in s.workers && s.workers[w].batch != [] && Current(s, w).eventType != t
                                   && s'.done == s.done + {Current(s, w).id})
    ensures Untouched(s', t)
  {
    forall a | a in s'.workers && a != w ensures a in s.workers && s'.workers[a] == s.workers[a] {
      assert a in s'.workers - {w} && (s'.workers - {w})[a] == (s.workers - {w})[a];
    }
    if w in s.workers && s.workers[w].batch != [] {
      var c := s.workers[w].batch[0];
      assert c.id < |s.rows| && s.rows[c.id].eventType == c.eventType;
    }
  }

  lemma UntouchedClaim(s: System, w: nat, ids: seq<nat>, limit: nat, locked: set<nat>, outcome: Outcome, t: string)
    requires Untouched(s, t)
    ensures Untouched(StepClaim(s, w, ids, limit, locked, outcome), t)
  {
    hide ClaimRows, ClaimsOf;
    var s' := StepClaim(s, w, ids, limit, locked, outcome);
    if s' != s {
      assert SameTypes(s.rows, s'.rows);
      forall a, k: nat | a in s'.workers && k < |s'.workers[a].batch|
        ensures var c := s'.workers[a].batch[k]; c.id < |s'.rows| && s'.rows[c.id].eventType == c.eventType
      {
        if a in s.workers {
          assert s'.workers[a] == s.workers[a];
        }
      }
    }
  }

  lemma UntouchedRows(s: System, s': System, t: string)
    requires Untouched(s, t) && SameTypes(s.rows, s'.rows)
    requires s'.workers == s.workers && s'.runs == s.runs && s'.done == s.done
    ensures Untouched(s', t)
  {
  }

  lemma UntouchedStart(s: System, w: nat, registered: bool, t: string)
    requires Untouched(s, t)
    requires !(registered && At(s, w, Ready) && Current(s, w).eventType == t)
    ensures Untouched(StepStart(s, w, registered), t)
  {
    hide Untouched;
    var s' := StepStart(s, w, registered);
    assert s'.workers - {w} == s.workers - {w};
    if At(s, w, Ready) {
      UntouchedKept(s, s', w, t);
    }
  }

  lemma UntouchedReturn(s: System, w: nat, ok: bool, t: string)
    requires Untouched(s, t)
    ensures Untouched(StepReturn(s, w, ok), t)
  {
    hide Untouched;
    var s' := StepReturn(s, w, ok);
    assert s'.workers - {w} == s.workers - {w};
    if At(s, w, Running) {
      InHandlerIsOther(s, w, t);
      UntouchedKept(s, s', w, t);
    }
  }

  lemma UntouchedMark(cfg: Config, s: System, w: nat, outcome: Outcome, localNow: nat, t: string)
    requires Untouched(s, t)
    ensures Untouched(StepMarkProcessed(s, w, outcome), t)
    ensures Untouched(StepMarkFailed(cfg, s, w, outcome, localNow), t)
  {
    hide Untouched, Backoff.Exponential;
    var s1, s2 := StepMarkProcessed(s, w, outcome), StepMarkFailed(cfg, s, w, outcome, localNow);
    assert s1.workers - {w} == s.workers - {w} == s2.workers - {w};
    if At(s, w, MarkingProcessed) {
      UntouchedKept(s, s1, w, t);
    } else if At(s, w, MarkingFailed) {
      UntouchedKept(s, s2, w, t);
    }
  }

  lemma InHandlerIsOther(s: System, w: nat, t: string)
    requires Untouched(s, t) && At(s, w, Running)
    ensures Current(s, w).eventType != t
  {
  }

  lemma UntouchedStep(cfg: Config, s: System, a: Action, t: string)
    requires Untouched(s, t)
    requires !(a.Start? && a.registered && At(s, a.w, Ready) && Current(s, a.w).eventType == t)
    ensures Untouched(Apply(cfg, s, a), t)
  {
    hide Untouched, StepClaim, StepStart, StepReturn, StepMarkProcessed, StepMarkFailed;
    match a
    case ClaimBatch(w, ids, limit, locked, outcome) => UntouchedClaim(s, w, ids, limit, locked, outcome, t);
    case Tick(_) => UntouchedRows(s, Apply(cfg, s, a), t);
    case Receive(_, _) => UntouchedRows(s, Apply(cfg, s, a), t);
    case Start(w, registered) => UntouchedStart(s, w, registered, t);
    case Return(w, ok) => UntouchedReturn(s, w, ok, t);
    case MarkProcessed(w, outcome) => UntouchedMark(cfg, s, w, outcome, 0, t);
    case MarkFailed(w, outcome, localNow) => UntouchedMark(cfg, s, w, outcome, localNow, t);
    case Crash(w) =>
      assert (s.workers - {w}) - {w} == s.workers - {w};
      UntouchedKept(s, Apply(cfg, s, a), w, t);
  }

  lemma {:induction false} UntouchedRun(cfg: Config, s: System, run: seq<Action>, t: string)
    requires Untouched(s, t) && NeverHandled(cfg, s, run, t)
    ensures Untouched(Exec(cfg, s, run), t)
    decreases |run|
  {
    hide Untouched, Apply;
    if run != [] {
      UntouchedStep(cfg, s, run[0], t);
      UntouchedRun(cfg, Apply(cfg, s, run[0]), run[1..], t);
    }
  }

  lemma {:induction false} NoCalls(runs: seq<nat>, id: nat)
    requires id !in runs
    ensures Calls(runs, id) == 0
  {
    if runs != [] {
      NoCalls(runs[..|runs| - 1], id);
    }
  }

  /** An event of a type that no handler is registered for is never processed, in any run: nothing is
      called for it, and its last claim makes it a dead letter. */
  lemma UnregisteredIsNeverProcessed(cfg: Config, run: seq<Action>, id: nat)
    requires id < |Exec(cfg, INITIAL, run).rows|
    requires NeverHandled(cfg, INITIAL, run, Exec(cfg, INITIAL, run).rows[id].eventType)
    ensures var s := Exec(cfg, INITIAL, run);
            && s.rows[id].status != Processed && Calls(s.runs, id) == 0
            && (s.rows[id].status == DeadLetter ==> s.rows[id].attempts == cfg.Claims())
  {
    hide Exec, NeverHandled;
    var s := Exec(cfg, INITIAL, run);
    var t := s.rows[id].eventType;
    UntouchedRun(cfg, INITIAL, run, t);
    OutcomesAreReal(cfg, run, id, id);
    assert id !in s.done && id !in s.runs;
    NoCalls(s.runs, id);
  }
}
