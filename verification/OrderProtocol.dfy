/** Clients updating orders while order.created deliveries drive the saga, one delivery at a time
    per order; every transaction is a step and any of them may fail. */
module OrderProtocol {
  import opened Common
  import opened OrderTable

  /** Where a delivery of order.created stands in `OrderProcessManager.handle`. */
  datatype Phase =
    | Starting
    | Generating(stage: Stage)
    | ReadingStages(stage: Stage)
    | WritingStages(stage: Stage, stages: seq<Stage>)
    | Resuming
    | Finishing
    | Compensating

  datatype Accepted = Accepted(id: nat, expected: nat)

  datatype Call = Call(id: nat, stage: Stage)

  /** History: generator calls, and the optimistic updates that went through. */
  datatype System = System(db: Db, deliveries: map<nat, Phase>, calls: seq<Call>, accepted: seq<Accepted>)

  function Init(): System { System(Db([], [], map[]), map[], [], []) }

  datatype Action =
    | Create
    | SetDeleted(id: nat, deleted: bool)
    | Update(id: nat, to: Status, expected: Option<nat>, outcome: Outcome)
    | Deliver(id: nat)
    | Step(id: nat, outcome: Outcome)
    | Crash(id: nat)

  function AfterStart(stages: seq<Stage>): Phase {
    if Avatar in stages then Resuming else Generating(Avatar)
  }

  function AfterResume(stages: seq<Stage>): Phase {
    if Qr in stages then Finishing else Generating(Qr)
  }

  function Goto(s: System, id: nat, p: Phase): System { s.(deliveries := s.deliveries[id := p]) }

  function End(s: System, id: nat): System { s.(deliveries := s.deliveries - {id}) }

  /** The next transaction or generator call of a delivery. An error before the try block ends the
      delivery; one inside it leads to compensation; after compensation the delivery ends. */
  function StepDelivery(s: System, id: nat, outcome: Outcome): System {
    if id !in s.deliveries then s
    else match s.deliveries[id]
      case Starting =>
        if id !in s.db.sagas && id >= |s.db.orders| then End(s, id)
        else
          var s' := if outcome.Applied() then s.(db := StartOrResumeDb(s.db, id)) else s;
          if outcome == Done then Goto(s', id, AfterStart(StagesOf(s.db, id))) else End(s', id)
      case Generating(stage) =>
        Goto(s.(calls := s.calls + [Call(id, stage)]), id,
             if outcome == Done then ReadingStages(stage) else Compensating)
      case ReadingStages(stage) =>
        if outcome != Done || id !in s.db.sagas then Goto(s, id, Compensating)
        else Goto(s, id, WritingStages(stage, WithStage(s.db.sagas[id].stages, stage)))
      case WritingStages(stage, stages) =>
        var s' := if outcome.Applied() then s.(db := WriteStagesDb(s.db, id, stages)) else s;
        Goto(s', id, if outcome != Done then Compensating else if stage == Avatar then Resuming else Finishing)
      case Resuming =>
        var s' := if outcome.Applied() then s.(db := StartOrResumeDb(s.db, id)) else s;
        Goto(s', id, if outcome == Done then AfterResume(StagesOf(s.db, id)) else Compensating)
      case Finishing =>
        var s' := if outcome.Applied() then s.(db := CompleteDb(s.db, id)) else s;
        if outcome == Done then End(s', id) else Goto(s', id, Compensating)
      case Compensating =>
        End(if outcome.Applied() then s.(db := CompensateDb(s.db, id)) else s, id)
  }

  function StepUpdate(s: System, id: nat, to: Status, expected: Option<nat>, outcome: Outcome): System {
    if !outcome.Applied() || !UpdateVerdict(s.db, id, to, expected).Updated? then s
    else s.(db := UpdateDb(s.db, id, to, expected),
            accepted := s.accepted + if expected.Some? then [Accepted(id, expected.value)] else [])
  }

  function Apply(s: System, a: Action): System {
    match a
    case Create => s.(db := s.db.(orders := s.db.orders + [Order(Pending, 0, false)]))
    case SetDeleted(id, deleted) =>
      if id < |s.db.orders|
      then s.(db := s.db.(orders := s.db.orders[id := s.db.orders[id].(deleted := deleted)])) else s
    case Update(id, to, expected, outcome) => StepUpdate(s, id, to, expected, outcome)
    case Deliver(id) => if id in s.deliveries then s else Goto(s, id, Starting)
    case Step(id, outcome) => StepDelivery(s, id, outcome)
    case Crash(id) => End(s, id)
  }

  function Exec(s: System, run: seq<Action>): System
    decreases |run|
  {
    if run == [] then s else Exec(Apply(s, run[0]), run[1..])
  }
}

/** The event log against the orders table, in every run. */
module OrderLog {
  import opened Common
  import opened OrderTable
  import opened OrderProtocol

  /** The status events of one order, oldest first. */
  function History(log: seq<Changed>, id: nat): seq<Changed> {
    if log == [] then []
    else
      var rest := History(log[..|log| - 1], id);
      if log[|log| - 1].orderId == id then rest + [log[|log| - 1]] else rest
  }

  /** Every edge is in the table, except the one compensation adds. */
  predicate EdgeOk(c: Changed) { CanTransition(c.from, c.to) || (c.from == Completed && c.to == Failed) }

  /** `h` leads from a new order (pending, version 0) to `status` at `version`. */
  ghost predicate Leads(h: seq<Changed>, status: Status, version: nat) {
    if h == [] then status == Pending && version == 0
    else
      var c := h[|h| - 1];
      && c.to == status && c.version == version && version > 0 && EdgeOk(c)
      && Leads(h[..|h| - 1], c.from, version - 1)
  }

  ghost predicate LogOk(db: Db) {
    && (forall id | 0 <= id < |db.orders| :: Leads(History(db.log, id), db.orders[id].status, db.orders[id].version))
    && (forall i | 0 <= i < |db.log| :: db.log[i].orderId < |db.orders|)
  }

  ghost predicate AcceptedOk(s: System) {
    && (forall i | 0 <= i < |s.accepted| ::
          s.accepted[i].id < |s.db.orders| && s.accepted[i].expected < s.db.orders[s.accepted[i].id].version)
    && (forall i, j | 0 <= i < j < |s.accepted| && s.accepted[i].id == s.accepted[j].id ::
          s.accepted[i].expected < s.accepted[j].expected)
  }

  lemma HistoryAppend(log: seq<Changed>, c: Changed, id: nat)
    ensures History(log + [c], id) == if c.orderId == id then History(log, id) + [c] else History(log, id)
  {
    assert (log + [c])[..|log|] == log;
  }

  lemma {:induction false} HistoryOfUnknown(log: seq<Changed>, id: nat)
    requires forall i | 0 <= i < |log| :: log[i].orderId != id
    ensures History(log, id) == []
  {
    if log != [] {
      HistoryOfUnknown(log[..|log| - 1], id);
    }
  }

  lemma WriteKeepsLog(db: Db, id: nat, to: Status)
    requires LogOk(db) && id < |db.orders|
    requires CanTransition(db.orders[id].status, to) || (db.orders[id].status == Completed && to == Failed)
    ensures LogOk(WriteStatus(db, id, to))
  {
    var db', o := WriteStatus(db, id, to), db.orders[id];
    var c := Changed(id, o.status, to, o.version + 1);
    forall k | 0 <= k < |db'.orders|
      ensures Leads(History(db'.log, k), db'.orders[k].status, db'.orders[k].version)
    {
      HistoryAppend(db.log, c, k);
      if k == id {
        assert (History(db.log, k) + [c])[..|History(db.log, k)|] == History(db.log, k);
      }
    }
  }

  /** The log is as it was, or one edge of the transition table longer. */
  predicate FollowsTable(log: seq<Changed>, log': seq<Changed>) {
    || log' == log
    || (log' != [] && log'[..|log'| - 1] == log && CanTransition(log'[|log'| - 1].from, log'[|log'| - 1].to))
  }

  lemma WriteFollowsTable(db: Db, id: nat, to: Status)
    requires id < |db.orders|
    ensures FollowsTable(db.log, WriteStatus(db, id, to).log) <==> CanTransition(db.orders[id].status, to)
  {
    var log' := WriteStatus(db, id, to).log;
    assert log'[..|log'| - 1] == db.log;
  }

  /** Compensation writes an edge that is not in the table exactly when the order is completed. */
  lemma CompensationLeavesTable(db: Db, id: nat)
    ensures FollowsTable(db.log, CompensateDb(db, id).log)
            <==> !(Visible(db, id) && db.orders[id].status == Completed)
  {
    hide FollowsTable;
    if Visible(db, id) && db.orders[id].status != Failed && db.orders[id].status != Cancelled {
      WriteFollowsTable(db, id, Failed);
    } else {
      assert FollowsTable(db.log, db.log) by { Unchanged(db.log); }
    }
  }

  lemma Unchanged(log: seq<Changed>)
    ensures FollowsTable(log, log)
  {
  }

  lemma ResumptionFollowsTable(db: Db, id: nat)
    ensures FollowsTable(db.log, StartOrResumeDb(db, id).log)
  {
    hide FollowsTable;
    Unchanged(db.log);
    if Visible(db, id) && db.orders[id].status == Failed {
      WriteFollowsTable(db, id, Pending);
    }
  }

  lemma UpdateFollowsTable(db: Db, id: nat, to: Status, expected: Option<nat>)
    ensures FollowsTable(db.log, UpdateDb(db, id, to, expected).log)
  {
    hide FollowsTable;
    Unchanged(db.log);
    if UpdateVerdict(db, id, to, expected).Updated? {
      WriteFollowsTable(db, id, to);
    }
  }

  /** Compensation of a completed order, taking effect. */
  predicate CompensatesCompleted(s: System, a: Action) {
    && a.Step? && a.id in s.deliveries && s.deliveries[a.id] == Compensating && a.outcome.Applied()
    && Visible(s.db, a.id) && s.db.orders[a.id].status == Completed
  }

  /** Over all writers: a step leaves the transition table if and only if it compensates a completed
      order. */
  lemma OnlyCompensationLeavesTable(s: System, a: Action)
    ensures FollowsTable(s.db.log, Apply(s, a).db.log) <==> !CompensatesCompleted(s, a)
  {
    hide FollowsTable, StartOrResumeDb, CompensateDb, UpdateDb;
    Unchanged(s.db.log);
    match a
    case Update(id, to, expected, _) => UpdateFollowsTable(s.db, id, to, expected);
    case Step(id, _) =>
      ResumptionFollowsTable(s.db, id);
      CompensationLeavesTable(s.db, id);
    case _ =>
  }

  /** A client completes the order while its avatar is being generated, and the generator throws. */
  function CompletedThenFailed(): seq<Action> {
    [Create, Deliver(0), Step(0, Done), Update(0, Completed, None, Done), Step(0, LostBefore), Step(0, Done)]
  }

  lemma Exec2(s: System, a: Action, b: Action, rest: seq<Action>)
    ensures Exec(s, [a, b] + rest) == Exec(Apply(Apply(s, a), b), rest)
  {
    hide Apply;
    var run := [a, b] + rest;
    assert run[1..] == [b] + rest && ([b] + rest)[1..] == rest;
  }

  lemma CompletedOrderFails()
    ensures var db := Exec(Init(), CompletedThenFailed()).db;
            db.log == [Changed(0, Pending, Completed, 1), Changed(0, Completed, Failed, 2)]
  {
    hide Apply;
    var run := CompletedThenFailed();
    assert run == [run[0], run[1]] + ([run[2], run[3]] + ([run[4], run[5]] + []));
    var s2, s4 := Beginning(), Midway();
    CompletedMidway();
    Exec2(Init(), run[0], run[1], [run[2], run[3]] + ([run[4], run[5]] + []));
    Exec2(s2, run[2], run[3], [run[4], run[5]] + []);
    Exec2(s4, run[4], run[5], []);
    CompensatedAtLast();
  }

  /** The order created and its delivery begun; later, the order completed during the avatar stage. */
  function Beginning(): System { System(Db([Order(Pending, 0, false)], [], map[]), map[0 := Starting], [], []) }

  function Midway(): System {
    System(Db([Order(Completed, 1, false)], [Changed(0, Pending, Completed, 1)],
              map[0 := Saga(Running, Some(Avatar), [])]), map[0 := Generating(Avatar)], [], [])
  }

  lemma CompletedMidway()
    ensures Apply(Apply(Init(), Create), Deliver(0)) == Beginning()
    ensures Apply(Apply(Beginning(), Step(0, Done)), Update(0, Completed, None, Done)) == Midway()
  {
  }

  lemma CompensatedAtLast()
    ensures Apply(Apply(Midway(), Step(0, LostBefore)), Step(0, Done)).db.log
            == [Changed(0, Pending, Completed, 1), Changed(0, Completed, Failed, 2)]
  {
    assert Apply(Midway(), Step(0, LostBefore)).deliveries[0] == Compensating;
  }

  /** The tables are where one writer left them, seen from the order side. */
  ghost predicate WriterStep(db: Db, db': Db) {
    || (db'.orders == db.orders && db'.log == db.log)
    || exists id: nat, to :: id < |db.orders| && IsWrite(db, db', id, to)
  }

  ghost predicate IsWrite(db: Db, db': Db, id: nat, to: Status)
    requires id < |db.orders|
  {
    && (CanTransition(db.orders[id].status, to) || (db.orders[id].status == Completed && to == Failed))
    && db'.orders == WriteStatus(db, id, to).orders && db'.log == WriteStatus(db, id, to).log
  }

  lemma DeliveryIsWriter(s: System, id: nat, outcome: Outcome)
    ensures WriterStep(s.db, StepDelivery(s, id, outcome).db)
  {
    var db' := StepDelivery(s, id, outcome).db;
    if id in s.deliveries && (db'.orders != s.db.orders || db'.log != s.db.log) {
      if s.deliveries[id] == Compensating {
        assert IsWrite(s.db, db', id, Failed);
      } else {
        assert IsWrite(s.db, db', id, Pending);
      }
    }
  }

  lemma WriterKeeps(s: System, s': System)
    requires LogOk(s.db) && AcceptedOk(s) && WriterStep(s.db, s'.db) && s'.accepted == s.accepted
    ensures LogOk(s'.db) && AcceptedOk(s')
  {
    if s'.db.orders != s.db.orders || s'.db.log != s.db.log {
      var id: nat, to :| id < |s.db.orders| && IsWrite(s.db, s'.db, id, to);
      WriteKeepsLog(s.db, id, to);
    }
  }

  lemma KeepUpdate(s: System, id: nat, to: Status, expected: Option<nat>, outcome: Outcome)
    requires LogOk(s.db) && AcceptedOk(s)
    ensures LogOk(StepUpdate(s, id, to, expected, outcome).db) && AcceptedOk(StepUpdate(s, id, to, expected, outcome))
  {
    hide LogOk;
    if UpdateVerdict(s.db, id, to, expected).Updated? {
      WriteKeepsLog(s.db, id, to);
    }
  }

  lemma KeepStep(s: System, a: Action)
    requires LogOk(s.db) && AcceptedOk(s)
    ensures LogOk(Apply(s, a).db) && AcceptedOk(Apply(s, a))
  {
    hide StepUpdate, StepDelivery;
    match a
    case Create => HistoryOfUnknown(s.db.log, |s.db.orders|);
    case SetDeleted(_, _) =>
    case Update(id, to, expected, outcome) => KeepUpdate(s, id, to, expected, outcome);
    case Deliver(_) =>
    case Step(id, outcome) =>
      DeliveryIsWriter(s, id, outcome);
      DeliveryAccepts(s, id, outcome);
      WriterKeeps(s, Apply(s, a));
    case Crash(_) =>
  }

  lemma DeliveryAccepts(s: System, id: nat, outcome: Outcome)
    ensures StepDelivery(s, id, outcome).accepted == s.accepted
  {
  }

  lemma {:induction false} KeepRun(s: System, run: seq<Action>)
    requires LogOk(s.db) && AcceptedOk(s)
    ensures LogOk(Exec(s, run).db) && AcceptedOk(Exec(s, run))
    decreases |run|
  {
    if run != [] {
      KeepStep(s, run[0]);
      KeepRun(Apply(s, run[0]), run[1..]);
    }
  }

  // ------------------------------------------------------------ what the log says

  /** Folding the events over a new order. */
  function Replay(h: seq<Changed>): (Status, nat) {
    if h == [] then (Pending, 0)
    else
      var before := Replay(h[..|h| - 1]);
      (h[|h| - 1].to, before.1 + 1)
  }

  lemma {:induction false} LeadsReplays(h: seq<Changed>, status: Status, version: nat)
    requires Leads(h, status, version)
    ensures Replay(h) == (status, version) && |h| == version
  {
    if h != [] {
      LeadsReplays(h[..|h| - 1], h[|h| - 1].from, version - 1);
    }
  }

  /** Numbered 1, 2, ... and each event starting where the one before ended. */
  ghost predicate IsChain(h: seq<Changed>) {
    forall k | 0 <= k < |h| ::
      h[k].version == k + 1 && EdgeOk(h[k]) && h[k].from == (if k == 0 then Pending else h[k - 1].to)
  }

  lemma {:induction false} LeadsChain(h: seq<Changed>, status: Status, version: nat)
    requires Leads(h, status, version)
    ensures IsChain(h)
  {
    if h != [] {
      var init := h[..|h| - 1];
      LeadsReplays(h, status, version);
      LeadsChain(init, h[|h| - 1].from, version - 1);
      if init != [] {
        assert init[|init| - 1].to == h[|h| - 1].from;
      }
      assert forall k | 0 <= k < |init| :: h[k] == init[k];
    }
  }

  /** Whatever mix of writers ran, each order's events form a chain from pending numbered 1, 2, ...,
      and replaying them gives the order's current status and version. */
  lemma EventsRebuildOrder(run: seq<Action>, id: nat)
    requires id < |Exec(Init(), run).db.orders|
    ensures var db := Exec(Init(), run).db; var h := History(db.log, id);
            && Replay(h) == (db.orders[id].status, db.orders[id].version)
            && |h| == db.orders[id].version
            && IsChain(h)
  {
    KeepRun(Init(), run);
    var db := Exec(Init(), run).db;
    LeadsReplays(History(db.log, id), db.orders[id].status, db.orders[id].version);
    LeadsChain(History(db.log, id), db.orders[id].status, db.orders[id].version);
  }

  /** No expected version is accepted twice for the same order. */
  lemma ExpectedVersionWinsOnce(run: seq<Action>, i: nat, j: nat)
    requires i < j < |Exec(Init(), run).accepted|
    ensures Exec(Init(), run).accepted[i] != Exec(Init(), run).accepted[j]
  {
    KeepRun(Init(), run);
  }

  lemma CancelledStep(s: System, a: Action, id: nat)
    requires id < |s.db.orders| && s.db.orders[id].status == Cancelled
    ensures var s' := Apply(s, a);
            && id < |s'.db.orders|
            && s'.db.orders[id].status == Cancelled && s'.db.orders[id].version == s.db.orders[id].version
  {
    if a.Step? {
      hide StepDelivery;
      DeliveryIsWriter(s, a.id, a.outcome);
    }
  }

  /** Nothing leaves cancelled: neither clients, nor compensation, nor resumption. */
  lemma {:induction false} CancelledIsAbsorbing(s: System, run: seq<Action>, id: nat)
    requires id < |s.db.orders| && s.db.orders[id].status == Cancelled
    ensures var s' := Exec(s, run);
            && id < |s'.db.orders|
            && s'.db.orders[id].status == Cancelled && s'.db.orders[id].version == s.db.orders[id].version
    decreases |run|
  {
    if run != [] {
      hide Apply;
      CancelledStep(s, run[0], id);
      CancelledIsAbsorbing(Apply(s, run[0]), run[1..], id);
    }
  }

  // ------------------------------------------------------------ the version bound

  /** Falls on every edge but failed to pending, which lifts it by three. */
  function Rank(s: Status): nat {
    match s
    case Pending => 4
    case Paid => 3
    case Completed => 2
    case Failed => 1
    case Cancelled => 0
  }

  function Reopenings(h: seq<Changed>): nat {
    if h == [] then 0
    else Reopenings(h[..|h| - 1]) + if h[|h| - 1].from == Failed && h[|h| - 1].to == Pending then 1 else 0
  }

  lemma {:induction false} RankBound(h: seq<Changed>, status: Status, version: nat)
    requires Leads(h, status, version)
    ensures version + Rank(status) <= 4 * (1 + Reopenings(h))
  {
    if h != [] {
      RankBound(h[..|h| - 1], h[|h| - 1].from, version - 1);
    }
  }

  /** An order that was reopened r times has at most 4 * (1 + r) versions. */
  lemma VersionBound(run: seq<Action>, id: nat)
    requires id < |Exec(Init(), run).db.orders|
    ensures var db := Exec(Init(), run).db;
            db.orders[id].version + Rank(db.orders[id].status) <= 4 * (1 + Reopenings(History(db.log, id)))
  {
    KeepRun(Init(), run);
    var db := Exec(Init(), run).db;
    RankBound(History(db.log, id), db.orders[id].status, db.orders[id].version);
  }
}
