/** The inbox repository and service at work, and how one turn fits into the interleaved protocol. */
module InboxServiceModel {
  import opened Common
  import opened Inbox
  import Backoff
  import Selection

  /** Waiting for its first attempt, or failed with its retry time reached; and not locked by another claim. */
  predicate Due(rows: seq<Row>, now: nat, id: nat, locked: set<nat>) {
    && id < |rows| && id !in locked
    && match (rows[id].status, rows[id].nextRetryAt) {
      case (Received, _) => true
      case (Failed, Some(at)) => now >= at
      case _ => false
    }
  }

  /** Due rows only, oldest first, and none left out that is older than one taken or fits under the limit. */
  ghost predicate OldestDue(rows: seq<Row>, now: nat, ids: seq<nat>, limit: nat, locked: set<nat>) {
    && |ids| <= limit
    && (forall j, k | 0 <= j < k < |ids| :: ids[j] != ids[k])
    && (forall id | id in ids :: Due(rows, now, id, locked))
    && (forall j, k | 0 <= j < k < |ids| && ids[j] < |rows| && ids[k] < |rows| ::
          rows[ids[j]].createdAt <= rows[ids[k]].createdAt)
    && (forall id: nat | Due(rows, now, id, locked) :: id in ids || |ids| == limit)
    && (forall id: nat, k: nat | Due(rows, now, id, locked) && id !in ids && k < |ids| && ids[k] < |rows| ::
          rows[ids[k]].createdAt <= rows[id].createdAt)
  }

  /** The selected rows are in processing, one attempt further on; nothing else changed. */
  ghost predicate ClaimedIn(rows: seq<Row>, rows': seq<Row>, ids: seq<nat>) {
    && |rows'| == |rows|
    && forall i | 0 <= i < |rows| :: var r := rows[i];
         rows'[i] == if i !in ids then r
                     else Row(r.eventId, r.eventType, Processing, r.attempts + 1, r.nextRetryAt, r.processedAt,
                              r.createdAt)
  }

  lemma SelectionIsOldestDue(rows: seq<Row>, now: nat, ids: seq<nat>, limit: nat, locked: set<nat>)
    requires IsSelection(rows, now, ids, limit, locked)
    ensures OldestDue(rows, now, ids, limit, locked)
  {
    forall id: nat ensures Due(rows, now, id, locked) <==> Selectable(rows, now, id, locked) {
    }
  }

  class InboxRepository {
    var rows: seq<Row>
    var now: nat

    constructor ()
      ensures rows == [] && now == 0
    {
      rows, now := [], 0;
    }

    method Receive(eventId: string, eventType: string) returns (record: Row, created: bool)
      modifies this
      ensures now == old(now) && rows == ReceiveRows(old(rows), eventId, eventType, now)
      ensures created <==> !Known(old(rows), eventId)
      ensures record in rows && record.eventId == eventId
      ensures created <==> forall r | r in old(rows) :: r.eventId != eventId
      ensures rows == if created then old(rows) + [Row(eventId, eventType, Received, 0, None, None, now)] else old(rows)
    {
      var found := FindByEventId(eventId);
      created := found.None?;
      if created {
        record := Row(eventId, eventType, Received, 0, None, None, now);
        rows := rows + [record];
      } else {
        record := found.value;
      }
    }

    method FindByEventId(eventId: string) returns (record: Option<Row>)
      ensures record.None? <==> !Known(rows, eventId)
      ensures record.Some? ==> record.value in rows && record.value.eventId == eventId
    {
      for i := 0 to |rows|
        invariant forall j | 0 <= j < i :: rows[j].eventId != eventId
      {
        if rows[i].eventId == eventId {
          return Some(rows[i]);
        }
      }
      return None;
    }

    /** `selectDue`: oldest due rows first, skipping locked ones. */
    method SelectDue(limit: nat, locked: set<nat>) returns (ids: seq<nat>)
      ensures IsSelection(rows, now, ids, limit, locked)
      ensures OldestDue(rows, now, ids, limit, locked)
    {
      var ready := set id | 0 <= id < |rows| && Selectable(rows, now, id, locked);
      var createdAt := seq(|rows|, i requires 0 <= i < |rows| reads this => rows[i].createdAt);
      ids := Selection.OldestFirst(createdAt, ready, limit);
      SelectionIsOldestDue(rows, now, ids, limit, locked);
    }

    /** `claimDueEvents`: select and mark in one transaction. */
    method ClaimDueEvents(limit: nat, locked: set<nat>) returns (ids: seq<nat>, claims: seq<Claim>)
      modifies this
      ensures IsSelection(old(rows), now, ids, limit, locked)
      ensures now == old(now) && rows == ClaimRows(old(rows), ids) && claims == ClaimsOf(old(rows), ids)
      ensures OldestDue(old(rows), now, ids, limit, locked)
      ensures ClaimedIn(old(rows), rows, ids)
    {
      ids := SelectDue(limit, locked);
      claims := ClaimsOf(rows, ids);
      if ids != [] {
        rows := ClaimRows(rows, ids);
      }
    }

    method MarkProcessed(id: nat)
      modifies this
      ensures now == old(now) && |rows| == |old(rows)|
      ensures forall i | 0 <= i < |rows| ::
                rows[i] == if i == id then ProcessedRow(old(rows)[i], now) else old(rows)[i]
      ensures id < |rows| ==> var r := old(rows)[id];
                rows[id] == Row(r.eventId, r.eventType, Processed, r.attempts, None, Some(now), r.createdAt)
    {
      var at := now;
      rows := Update(rows, id, (r: Row) => ProcessedRow(r, at));
    }

    method MarkFailed(id: nat, retryAt: nat)
      modifies this
      ensures now == old(now) && |rows| == |old(rows)|
      ensures forall i | 0 <= i < |rows| ::
                rows[i] == if i == id then FailedRow(old(rows)[i], retryAt) else old(rows)[i]
      ensures id < |rows| ==> var r := old(rows)[id];
                rows[id] == Row(r.eventId, r.eventType, Failed, r.attempts, Some(retryAt), None, r.createdAt)
    {
      rows := Update(rows, id, (r: Row) => FailedRow(r, retryAt));
    }

    method MarkDeadLetter(id: nat)
      modifies this
      ensures now == old(now) && |rows| == |old(rows)|
      ensures forall i | 0 <= i < |rows| :: rows[i] == if i == id then DeadLetterRow(old(rows)[i]) else old(rows)[i]
      ensures id < |rows| ==> var r := old(rows)[id];
                rows[id] == Row(r.eventId, r.eventType, DeadLetter, r.attempts, None, None, r.createdAt)
    {
      rows := Update(rows, id, (r: Row) => DeadLetterRow(r));
    }
  }

  // ------------------------------------------------------------ one turn of the loop

  /** How the calls made for one event end. */
  datatype Turn = Turn(handlerOk: bool, done: Outcome, fail: Outcome, localNow: nat)

  datatype TurnEnd = Succeeded | Failing | Escaped

  predicate HandledOk(handlers: set<string>, eventType: string, t: Turn) { t.handlerOk && eventType in handlers }

  function EndOf(handlers: set<string>, eventType: string, t: Turn): TurnEnd {
    if HandledOk(handlers, eventType, t) && t.done == Done then Succeeded
    else if t.fail == Done then Failing else Escaped
  }

  /** The row after a turn. */
  function TurnRow(cfg: Config, r: Row, c: Claim, ok: bool, t: Turn, now: nat): Row {
    var marked := if ok && t.done.Applied() then ProcessedRow(r, now) else r;
    if (ok && t.done == Done) || !t.fail.Applied() then marked else FailedOutcome(cfg, marked, c, t.localNow)
  }

  /** A batch: the table it is claimed from, the claimed ids, and how their calls end. */
  datatype Batch = Batch(cfg: Config, rows: seq<Row>, ids: seq<nat>, turns: nat -> Turn, handlers: set<string>,
                         now: nat)
  {
    ghost predicate Valid(limit: nat, locked: set<nat>) { IsSelection(rows, now, ids, limit, locked) }

    function End(k: nat): TurnEnd
      requires k < |ids| && ids[k] < |rows|
    {
      EndOf(handlers, rows[ids[k]].eventType, turns(k))
    }

    /** The k-th claimed row when its turn is over. */
    function Result(k: nat): Row
      requires k < |ids| && ids[k] < |rows|
    {
      var r := rows[ids[k]];
      TurnRow(cfg, ClaimRow(r), Claim(ids[k], r.eventType, r.attempts + 1),
              HandledOk(handlers, r.eventType, turns(k)), turns(k), now)
    }
  }

  /** The table after the first n turns: unclaimed rows untouched, n results, the rest in processing. */
  ghost predicate Through(b: Batch, rows: seq<Row>, n: nat) {
    && |rows| == |b.rows| && n <= |b.ids|
    && (forall k | 0 <= k < |b.ids| :: b.ids[k] < |rows|)
    && (forall i | 0 <= i < |rows| && i !in b.ids :: rows[i] == b.rows[i])
    && (forall k | 0 <= k < n :: rows[b.ids[k]] == b.Result(k))
    && (forall k | n <= k < |b.ids| :: rows[b.ids[k]] == ClaimRow(b.rows[b.ids[k]]))
  }

  predicate InTable(b: Batch) { forall k | 0 <= k < |b.ids| :: b.ids[k] < |b.rows| }

  function Successes(b: Batch, n: nat): nat
    requires n <= |b.ids| && InTable(b)
  {
    if n == 0 then 0 else Successes(b, n - 1) + if b.End(n - 1) == Succeeded then 1 else 0
  }

  ghost predicate NoneEscapes(b: Batch, n: nat)
    requires n <= |b.ids| && InTable(b)
  {
    forall k | 0 <= k < n :: b.End(k) != Escaped
  }

  lemma BatchStarts(b: Batch, limit: nat, locked: set<nat>)
    requires b.Valid(limit, locked)
    ensures InTable(b) && Through(b, ClaimRows(b.rows, b.ids), 0)
  {
    hide b.Result;
    forall k | 0 <= k < |b.ids| ensures b.ids[k] in b.ids {
    }
  }

  lemma TurnAhead(b: Batch, rows: seq<Row>, n: nat)
    requires Through(b, rows, n) && n < |b.ids|
    ensures b.ids[n] < |rows| == |b.rows|
    ensures var r := b.rows[b.ids[n]];
            && rows[b.ids[n]] == ClaimRow(r)
            && b.Result(n) == TurnRow(b.cfg, rows[b.ids[n]], Claim(b.ids[n], r.eventType, r.attempts + 1),
                                      HandledOk(b.handlers, r.eventType, b.turns(n)), b.turns(n), b.now)
            && b.End(n) == EndOf(b.handlers, r.eventType, b.turns(n))
  {
  }

  lemma BatchAdvances(b: Batch, limit: nat, locked: set<nat>, rows: seq<Row>, n: nat)
    requires b.Valid(limit, locked) && Through(b, rows, n) && n < |b.ids|
    ensures Through(b, rows[b.ids[n] := b.Result(n)], n + 1)
  {
    hide ClaimRow, TurnRow;
    var rows' := rows[b.ids[n] := b.Result(n)];
    forall k | 0 <= k < |b.ids| && k != n ensures rows'[b.ids[k]] == rows[b.ids[k]] {
      assert b.ids[k] != b.ids[n];
    }
  }

  class InboxService {
    const repository: InboxRepository
    /** The event types a handler is registered for. */
    var handlers: set<string>

    constructor (repository: InboxRepository)
      ensures this.repository == repository && handlers == {}
    {
      this.repository := repository;
      handlers := {};
    }

    method RegisterHandler(eventType: string)
      modifies this
      ensures handlers == old(handlers) + {eventType}
    {
      handlers := handlers + {eventType};
    }

    /** `processDueBatch`: `turns(k)` tells how the calls for the k-th event end. Each claimed row ends by
        its own result; an error while a failure is being marked ends the batch after that turn. */
    method ProcessDueBatch(cfg: Config, limit: nat, locked: set<nat>, claim: Outcome, turns: nat -> Turn)
      returns (ids: seq<nat>, turnsTaken: nat, threw: bool, claimed: nat, processed: nat, failed: nat)
      modifies repository
      ensures claim == LostBefore ==> threw && repository.rows == old(repository.rows)
      ensures claim.Applied() ==>
                var b := Batch(cfg, old(repository.rows), ids, turns, handlers, repository.now);
                && b.Valid(limit, locked)
                && InTable(b) && turnsTaken <= |ids| && Through(b, repository.rows, turnsTaken)
                && (claim == LostAfter ==> threw && turnsTaken == 0)
                && (claim == Done && threw ==>
                      turnsTaken > 0 && b.End(turnsTaken - 1) == Escaped && NoneEscapes(b, turnsTaken - 1))
                && (claim == Done && !threw ==>
                      && NoneEscapes(b, turnsTaken)
                      && turnsTaken == claimed == |ids| == processed + failed && processed == Successes(b, |ids|))
    {
      hide EndsLikeThis, OldestDue, ClaimedIn, Through, IsSelection, Batch.Result, Batch.End, ClaimRows, TurnRow,
        ClaimRow;
      ids, turnsTaken, threw, claimed, processed, failed := [], 0, true, 0, 0, 0;
      if claim == LostBefore {
        return;
      }
      ghost var rows0 := repository.rows;
      var events: seq<Claim>;
      ids, events := repository.ClaimDueEvents(limit, locked);
      ghost var b := Batch(cfg, rows0, ids, turns, handlers, repository.now);
      BatchStarts(b, limit, locked);
      if claim == LostAfter {
        return;
      }
      for n := 0 to |events|
        invariant turnsTaken == n == processed + failed && processed == Successes(b, n) && NoneEscapes(b, n)
        invariant repository.now == b.now && Through(b, repository.rows, n) && threw
      {
        ghost var rows := repository.rows;
        TurnAhead(b, rows, n);
        var end := ProcessEvent(cfg, events[n], turns(n));
        turnsTaken := n + 1;
        BatchAdvances(b, limit, locked, rows, n);
        if end == Escaped {
          return;
        }
        if end == Succeeded {
          processed := processed + 1;
        } else {
          failed := failed + 1;
        }
      }
      threw, claimed := false, |events|;
    }

    /** One turn of the loop: call the handler, mark the result. */
    method ProcessEvent(cfg: Config, event: Claim, t: Turn) returns (end: TurnEnd)
      requires event.id < |repository.rows|
      modifies repository
      ensures end == EndOf(handlers, event.eventType, t)
      ensures repository.now == old(repository.now)
      ensures repository.rows
              == old(repository.rows)[event.id :=
                   TurnRow(cfg, old(repository.rows)[event.id], event, HandledOk(handlers, event.eventType, t), t,
                           repository.now)]
      ensures EndsLikeThis(cfg, handlers, event, t, old(repository.rows)[event.id], repository.rows[event.id],
                           repository.now, end)
    {
      if HandledOk(handlers, event.eventType, t) {
        if t.done.Applied() {
          repository.MarkProcessed(event.id);
        }
        if t.done == Done {
          return Succeeded;
        }
      }
      if t.fail.Applied() {
        if event.attempts >= cfg.maxAttempts {
          repository.MarkDeadLetter(event.id);
        } else {
          var delay := Backoff.Exponential(cfg.baseMs, event.attempts, cfg.capMs);
          repository.MarkFailed(event.id, t.localNow + delay);
        }
      }
      return if t.fail == Done then Failing else Escaped;
    }
  }

  /** What a turn leaves of the row `r`, by how it ends. */
  predicate EndsLikeThis(cfg: Config, handlers: set<string>, event: Claim, t: Turn, r: Row, r': Row, now: nat,
                         end: TurnEnd)
  {
    var handled := event.eventType in handlers && t.handlerOk;
    var wait := Min(cfg.baseMs * Pow2(Max(event.attempts - 1, 0)), cfg.capMs);
    && (end == Succeeded <==> handled && t.done == Done)
    && (end == Escaped <==> end != Succeeded && t.fail != Done)
    && (end == Succeeded ==>
          r' == Row(r.eventId, r.eventType, Processed, r.attempts, None, Some(now), r.createdAt))
    && (end == Failing ==>
          r' == if event.attempts >= cfg.maxAttempts
                then Row(r.eventId, r.eventType, DeadLetter, r.attempts, None, None, r.createdAt)
                else Row(r.eventId, r.eventType, Failed, r.attempts, Some(t.localNow + wait), None, r.createdAt))
  }

  /** What one turn leaves of the claimed row `r`: it is processed if and only if the event's type has a
      handler, the handler returns and its mark is acknowledged. Otherwise, with the failure mark
      acknowledged, a claim that has used its attempts makes it a dead letter, and any other claim makes it
      due again at `now` if and only if the backoff of the claim's attempts has passed. */
  lemma TurnOutcome(cfg: Config, r: Row, c: Claim, handlers: set<string>, t: Turn, marked: nat, now: nat)
    ensures var r' := TurnRow(cfg, r, c, HandledOk(handlers, c.eventType, t), t, marked);
            var handled := c.eventType in handlers && t.handlerOk;
            var wait := Min(cfg.baseMs * Pow2(Max(c.attempts - 1, 0)), cfg.capMs);
            && (handled && t.done == Done ==> r' == r.(status := Processed, processedAt := Some(marked),
                                                       nextRetryAt := None))
            && (!(handled && t.done == Done) && t.fail == Done ==>
                  && (r'.status == DeadLetter <==> c.attempts >= cfg.maxAttempts)
                  && (Due([r'], now, 0, {}) <==> c.attempts < cfg.maxAttempts && now >= t.localNow + wait)
                  && r'.processedAt == None && r'.attempts == r.attempts)
  {
    hide Min, Pow2, Max;
  }

  /** A claim gives each selected row to the worker, in processing and one attempt further on; if its commit is
      not acknowledged the rows are claimed and nobody has them. */
  lemma ClaimOutcome(cfg: Config, s: System, w: nat, ids: seq<nat>, limit: nat, locked: set<nat>, outcome: Outcome)
    requires w !in s.workers && IsSelection(s.rows, s.now, ids, limit, locked)
    ensures var s' := Apply(cfg, s, ClaimBatch(w, ids, limit, locked, outcome));
            && s'.now == s.now && s'.runs == s.runs && s'.done == s.done
            && (outcome == LostBefore ==> s' == s)
            && (outcome != LostBefore ==> ClaimedIn(s.rows, s'.rows, ids))
            && (outcome == LostAfter ==> s'.workers == s.workers)
            && (outcome == Done ==>
                  && w in s'.workers && s'.workers == s.workers[w := s'.workers[w]]
                  && s'.workers[w].stage == Ready && |s'.workers[w].batch| == |ids|
                  && forall k | 0 <= k < |ids| :: ids[k] < |s.rows| && var r := s.rows[ids[k]];
                       s'.workers[w].batch[k] == Claim(ids[k], r.eventType, r.attempts + 1))
  {
  }

  /** Time passes, events arrive once per external id, workers vanish. */
  lemma EnvironmentSteps(cfg: Config, s: System, ms: nat, eventId: string, eventType: string, w: nat)
    ensures Apply(cfg, s, Tick(ms)) == s.(now := s.now + ms)
    ensures Apply(cfg, s, Action.Receive(eventId, eventType))
            == if exists r | r in s.rows :: r.eventId == eventId then s
               else s.(rows := s.rows + [Row(eventId, eventType, Received, 0, None, None, s.now)])
    ensures Apply(cfg, s, Crash(w)) == s.(workers := s.workers - {w})
  {
    if r :| r in s.rows && r.eventId == eventId {
      var i :| 0 <= i < |s.rows| && s.rows[i] == r;
      assert Known(s.rows, eventId);
    }
  }

  /** What the steps of a call record: a call exactly when a handler is registered, a completed call exactly
      when the handler returned, and the mark that follows. */
  lemma CallOutcome(cfg: Config, s: System, w: nat, verdict: bool)
    requires At(s, w, Ready) || At(s, w, Running)
    ensures var id := Current(s, w).id; var batch := s.workers[w].batch;
            if s.workers[w].stage == Ready then
              Apply(cfg, s, Start(w, verdict))
              == s.(runs := if verdict then s.runs + [id] else s.runs,
                    workers := s.workers[w := Worker(batch, if verdict then Running else MarkingFailed)])
            else
              Apply(cfg, s, Return(w, verdict))
              == s.(done := if verdict then s.done + {id} else s.done,
                    workers := s.workers[w := Worker(batch, if verdict then MarkingProcessed else MarkingFailed)])
  {
  }

  // ------------------------------------------------------------ a turn as a run of the protocol

  /** The steps of one turn. */
  function CallScript(w: nat, registered: bool, ok: bool): seq<Action> {
    if registered then [Start(w, true), Return(w, ok)] else [Start(w, false)]
  }

  function MarkScript(w: nat, ok: bool, t: Turn): seq<Action> {
    if !ok then [MarkFailed(w, t.fail, t.localNow)]
    else if t.done == Done then [MarkProcessed(w, Done)]
    else [MarkProcessed(w, t.done), MarkFailed(w, t.fail, t.localNow)]
  }

  lemma ExecTwo(cfg: Config, s: System, a: Action, b: Action)
    ensures Exec(cfg, s, [a, b]) == Apply(cfg, Apply(cfg, s, a), b)
  {
    hide Apply;
    Exec1(cfg, s, a, [b]);
    ExecOne(cfg, Apply(cfg, s, a), b);
    assert [a] + [b] == [a, b];
  }

  lemma CallIsARun(cfg: Config, s: System, w: nat, registered: bool, ok: bool)
    requires At(s, w, Ready)
    ensures var s' := Exec(cfg, s, CallScript(w, registered, ok));
            && s'.rows == s.rows && s'.now == s.now
            && s'.workers == s.workers[w := s.workers[w].(stage := if registered && ok then MarkingProcessed
                                                                   else MarkingFailed)]
  {
    hide Exec;
    if registered {
      ExecTwo(cfg, s, Start(w, true), Return(w, ok));
    } else {
      ExecOne(cfg, s, Start(w, false));
    }
  }

  lemma MarkIsARun(cfg: Config, s: System, w: nat, ok: bool, t: Turn)
    requires At(s, w, if ok then MarkingProcessed else MarkingFailed) && Current(s, w).id < |s.rows|
    ensures var c := Current(s, w); var s' := Exec(cfg, s, MarkScript(w, ok, t));
            && s'.rows == s.rows[c.id := TurnRow(cfg, s.rows[c.id], c, ok, t, s.now)]
            && s'.workers == (if (ok && t.done == Done) || t.fail == Done
                              then s.workers[w := Worker(s.workers[w].batch[1..], Ready)] else s.workers - {w})
  {
    hide Exec, Backoff.Exponential;
    if !ok {
      ExecOne(cfg, s, MarkFailed(w, t.fail, t.localNow));
    } else if t.done == Done {
      ExecOne(cfg, s, MarkProcessed(w, Done));
    } else {
      ExecTwo(cfg, s, MarkProcessed(w, t.done), MarkFailed(w, t.fail, t.localNow));
      assert StepMarkProcessed(s, w, t.done).workers - {w} == s.workers - {w};
    }
  }

  lemma {:induction false} ExecSplit(cfg: Config, s: System, a: seq<Action>, b: seq<Action>)
    ensures Exec(cfg, s, a + b) == Exec(cfg, Exec(cfg, s, a), b)
    decreases |a|
  {
    hide Apply;
    if a == [] {
      assert a + b == b;
    } else {
      assert (a + b)[1..] == a[1..] + b;
      ExecSplit(cfg, Apply(cfg, s, a[0]), a[1..], b);
    }
  }

  /** Whichever of its calls fail, a turn does to the table what its steps in the protocol do, and leaves
      the worker at its next event or out of its batch. */
  lemma TurnIsARun(cfg: Config, s: System, w: nat, handlers: set<string>, t: Turn)
    requires At(s, w, Ready) && Current(s, w).id < |s.rows|
    ensures var c := Current(s, w); var registered := c.eventType in handlers;
            var ok := HandledOk(handlers, c.eventType, t);
            var s' := Exec(cfg, s, CallScript(w, registered, t.handlerOk) + MarkScript(w, ok, t));
            && s'.rows == s.rows[c.id := TurnRow(cfg, s.rows[c.id], c, ok, t, s.now)]
            && s'.workers == (if EndOf(handlers, c.eventType, t) == Escaped then s.workers - {w}
                              else s.workers[w := Worker(s.workers[w].batch[1..], Ready)])
  {
    hide Exec, TurnRow, CallScript, MarkScript;
    var c := Current(s, w);
    var registered, ok := c.eventType in handlers, HandledOk(handlers, c.eventType, t);
    ExecSplit(cfg, s, CallScript(w, registered, t.handlerOk), MarkScript(w, ok, t));
    CallIsARun(cfg, s, w, registered, t.handlerOk);
    var s1 := Exec(cfg, s, CallScript(w, registered, t.handlerOk));
    MarkIsARun(cfg, s1, w, ok, t);
    assert s1.workers - {w} == s.workers - {w};
  }
}
