/** `orders`, the OrderStatusChanged events in the outbox, and `order_sagas`. */
module OrderTable {
  import opened Common

  datatype Status = Pending | Paid | Completed | Cancelled | Failed

  /** The transition table of the order state machine. */
  function Transitions(from: Status): seq<Status> {
    match from
    case Pending => [Paid, Completed, Cancelled, Failed]
    case Paid => [Completed, Cancelled, Failed]
    case Completed => []
    case Cancelled => []
    case Failed => [Pending, Cancelled]
  }

  predicate CanTransition(from: Status, to: Status) { to in Transitions(from) }

  datatype Order = Order(status: Status, version: nat, deleted: bool)

  /** An OrderStatusChanged event. */
  datatype Changed = Changed(orderId: nat, from: Status, to: Status, version: nat)

  datatype Stage = Avatar | Qr

  datatype SagaStatus = Running | SagaFailed | SagaCompleted

  /** `current` is the stage to run next, none when the saga is through. */
  datatype Saga = Saga(status: SagaStatus, current: Option<Stage>, stages: seq<Stage>)

  /** Order ids are positions; `log` is the part of the outbox holding status events. */
  datatype Db = Db(orders: seq<Order>, log: seq<Changed>, sagas: map<nat, Saga>)

  predicate Visible(db: Db, id: nat) { id < |db.orders| && !db.orders[id].deleted }

  /** Status, version and event move together. */
  function WriteStatus(db: Db, id: nat, to: Status): Db
    requires id < |db.orders|
  {
    var o := db.orders[id];
    db.(orders := db.orders[id := o.(status := to, version := o.version + 1)],
    log := db.log + [Changed(id, o.status, to, o.version + 1)])
  }

  datatype UpdateResult = Updated(order: Order) | NotFound | VersionConflict | InvalidTransition | Threw

  function UpdateVerdict(db: Db, id: nat, to: Status, expected: Option<nat>): UpdateResult {
    if !Visible(db, id) then NotFound
    else if expected.Some? && db.orders[id].version != expected.value then VersionConflict
    else if !CanTransition(db.orders[id].status, to) then InvalidTransition
    else Updated(db.orders[id].(status := to, version := db.orders[id].version + 1))
  }

  /** `updateStatus` (with an expected version) and `updateStatusPessimistic` (without). */
  function UpdateDb(db: Db, id: nat, to: Status, expected: Option<nat>): Db {
    if UpdateVerdict(db, id, to, expected).Updated? then WriteStatus(db, id, to) else db
  }

  function StagesOf(db: Db, id: nat): seq<Stage> {
    if id in db.sagas then db.sagas[id].stages else []
  }

  /** `startOrResume`; a failed saga runs again and takes its failed order back to pending. */
  function StartOrResumeDb(db: Db, id: nat): Db {
    if id !in db.sagas then db.(sagas := db.sagas[id := Saga(Running, Some(Avatar), [])])
    else if db.sagas[id].status != SagaFailed then db
    else
      var db' := if Visible(db, id) && db.orders[id].status == Failed then WriteStatus(db, id, Pending) else db;
      db'.(sagas := db.sagas[id := db.sagas[id].(status := Running)])
  }

  function WithStage(stages: seq<Stage>, stage: Stage): seq<Stage> {
    if stage in stages then stages else stages + [stage]
  }

  /** The UPDATE of `markStageCompleted`, writing the list computed from an earlier read. */
  function WriteStagesDb(db: Db, id: nat, stages: seq<Stage>): Db {
    if id in db.sagas
    then db.(sagas := db.sagas[id := db.sagas[id].(stages := stages,
             current := if Qr in stages then None else Some(Qr))])
    else db
  }

  function CompleteDb(db: Db, id: nat): Db {
    if id in db.sagas
    then db.(sagas := db.sagas[id := db.sagas[id].(status := SagaCompleted, current := None)])
    else db
  }

  /** `compensate`: the saga fails, and so does its order unless it already failed or was cancelled. */
  function CompensateDb(db: Db, id: nat): Db {
    var db' := if id in db.sagas then db.(sagas := db.sagas[id := db.sagas[id].(status := SagaFailed)]) else db;
    if Visible(db, id) && db.orders[id].status != Failed && db.orders[id].status != Cancelled
    then WriteStatus(db', id, Failed)
    else db'
  }

  /** The transition table, pair by pair. */
  lemma TransitionPairs(from: Status, to: Status)
    ensures CanTransition(from, to) <==>
            (from, to) in {(Pending, Paid), (Pending, Completed), (Pending, Cancelled), (Pending, Failed),
                           (Paid, Completed), (Paid, Cancelled), (Paid, Failed), (Failed, Pending), (Failed, Cancelled)}
  {
  }

  /** `startOrResume` takes order `id` back to pending, with its version and event, exactly when its saga
      failed and the order is visible and failed; otherwise orders and log stay. */
  lemma ResumptionReopens(db: Db, id: nat)
    ensures var db' := StartOrResumeDb(db, id);
            var reopened := id < |db.orders|
                            && db'.orders == db.orders[id := Order(Pending, db.orders[id].version + 1, false)]
                            && db'.log == db.log + [Changed(id, Failed, Pending, db.orders[id].version + 1)];
            && (reopened <==> id in db.sagas && db.sagas[id].status == SagaFailed && id < |db.orders|
                              && !db.orders[id].deleted && db.orders[id].status == Failed)
            && (!reopened ==> db'.orders == db.orders && db'.log == db.log)
  {
    assert |db.log + [Changed(id, Failed, Pending, 0)]| > |db.log|;
    if id < |db.orders| {
      assert |db.log + [Changed(id, Failed, Pending, db.orders[id].version + 1)]| > |db.log|;
    }
  }

  /** The tables as an object the two repositories share. */
  class OrderDatabase {
    var orders: seq<Order>
    var log: seq<Changed>
    var sagas: map<nat, Saga>

    constructor ()
      ensures Contents() == Db([], [], map[])
    {
      orders, log, sagas := [], [], map[];
    }

    ghost function Contents(): Db
      reads this
    {
      Db(orders, log, sagas)
    }

    /** The two statements every writer issues together. */
    method WriteOrder(id: nat, to: Status)
      requires id < |orders|
      modifies this
      ensures Contents() == WriteStatus(old(Contents()), id, to)
      ensures var o := old(orders)[id];
              && orders == old(orders)[id := Order(to, o.version + 1, o.deleted)]
              && log == old(log) + [Changed(id, o.status, to, o.version + 1)] && sagas == old(sagas)
    {
      var before := orders[id];
      orders := orders[id := before.(status := to, version := before.version + 1)];
      log := log + [Changed(id, before.status, to, before.version + 1)];
    }

    /** ROLLBACK to the state saved at BEGIN. */
    method Rollback(saved: (seq<Order>, seq<Changed>, map<nat, Saga>))
      modifies this
      ensures Contents() == Db(saved.0, saved.1, saved.2)
    {
      orders, log, sagas := saved.0, saved.1, saved.2;
    }
  }

  /** Which statement of a transaction throws, counting from 1; 0 when none does. A transaction
      that throws rolls back. */
  class OrdersRepository {
    const db: OrderDatabase

    constructor (db: OrderDatabase)
      ensures this.db == db
    {
      this.db := db;
    }

    /** Both update methods: lock the row, check, write, append the event, audit, commit. */
    method UpdateStatus(id: nat, to: Status, expected: Option<nat>, throwsAt: nat) returns (r: UpdateResult)
      modifies db
      ensures 1 <= throwsAt <= 5 && UpdateVerdict(old(db.Contents()), id, to, expected).Updated? ==>
                r == Threw && db.Contents() == old(db.Contents())
      ensures throwsAt == 0 ==> r == UpdateVerdict(old(db.Contents()), id, to, expected)
      ensures r != Threw ==> db.Contents() == UpdateDb(old(db.Contents()), id, to, expected)
      ensures r == Threw ==> db.Contents() == old(db.Contents())
      ensures !r.Updated? ==> db.orders == old(db.orders) && db.log == old(db.log)
      ensures db.sagas == old(db.sagas)
      ensures throwsAt == 0 ==>
                var o := old(db.orders);
                if id >= |o| || o[id].deleted then r == NotFound
                else if expected.Some? && o[id].version != expected.value then r == VersionConflict
                else if (o[id].status, to) !in
                        {(Pending, Paid), (Pending, Completed), (Pending, Cancelled), (Pending, Failed),
                         (Paid, Completed), (Paid, Cancelled), (Paid, Failed), (Failed, Pending), (Failed, Cancelled)}
                then r == InvalidTransition
                else
                  && r == Updated(Order(to, o[id].version + 1, false))
                  && db.orders == o[id := Order(to, o[id].version + 1, false)]
                  && db.log == old(db.log) + [Changed(id, o[id].status, to, o[id].version + 1)]
    {
      var saved := (db.orders, db.log, db.sagas);
      if throwsAt == 1 {
        db.Rollback(saved);
        return Threw;
      }
      if id >= |db.orders| || db.orders[id].deleted {
        return NotFound;
      }
      var current := db.orders[id];
      if expected.Some? && current.version != expected.value {
        return VersionConflict;
      }
      if !CanTransition(current.status, to) {
        return InvalidTransition;
      }
      if throwsAt == 2 {
        db.Rollback(saved);
        return Threw;
      }
      db.WriteOrder(id, to);
      if throwsAt == 3 || throwsAt == 4 || throwsAt == 5 {
        db.Rollback(saved);
        return Threw;
      }
      r := Updated(db.orders[id]);
    }
  }

  class OrderSagaRepository {
    const db: OrderDatabase

    constructor (db: OrderDatabase)
      ensures this.db == db
    {
      this.db := db;
    }

    method StartOrResume(id: nat, throws: bool) returns (threw: bool, stages: seq<Stage>)
      modifies db
      ensures threw <==> throws || (id !in old(db.sagas) && id >= |old(db.orders)|)
      ensures threw ==> db.Contents() == old(db.Contents())
      ensures !threw ==> db.Contents() == StartOrResumeDb(old(db.Contents()), id)
      ensures !threw ==> stages == StagesOf(old(db.Contents()), id) == StagesOf(db.Contents(), id)
      ensures !threw ==>
                var o, g := old(db.orders), old(db.sagas);
                var reopens := id in g && g[id].status == SagaFailed && id < |o| && !o[id].deleted
                               && o[id].status == Failed;
                && db.orders == (if reopens then o[id := Order(Pending, o[id].version + 1, false)] else o)
                && db.log == old(db.log) + (if reopens then [Changed(id, Failed, Pending, o[id].version + 1)] else [])
                && db.sagas == g[id := if id !in g then Saga(Running, Some(Avatar), [])
                                       else if g[id].status == SagaFailed
                                       then Saga(Running, g[id].current, g[id].stages)
                                       else g[id]]
                && stages == if id in g then g[id].stages else []
    {
      var saved := (db.orders, db.log, db.sagas);
      if id !in db.sagas {
        if throws || id >= |db.orders| {
          return true, [];
        }
        db.sagas := db.sagas[id := Saga(Running, Some(Avatar), [])];
        return false, [];
      }
      stages := db.sagas[id].stages;
      if db.sagas[id].status == SagaFailed {
        if id < |db.orders| && !db.orders[id].deleted && db.orders[id].status == Failed {
          db.WriteOrder(id, Pending);
        }
        db.sagas := db.sagas[id := db.sagas[id].(status := Running)];
      }
      if throws {
        db.Rollback(saved);
        return true, stages;
      }
      threw := false;
    }

    /** Read the saga, then write the extended list in a second statement. */
    method MarkStageCompleted(id: nat, stage: Stage, throws: bool) returns (threw: bool)
      modifies db
      ensures threw <==> throws || id !in old(db.sagas)
      ensures threw ==> db.Contents() == old(db.Contents())
      ensures !threw ==> db.Contents() == WriteStagesDb(old(db.Contents()), id,
                                                         WithStage(StagesOf(old(db.Contents()), id), stage))
      ensures db.orders == old(db.orders) && db.log == old(db.log)
      ensures !threw ==>
                var g := old(db.sagas)[id];
                var stages := if stage in g.stages then g.stages else g.stages + [stage];
                db.sagas == old(db.sagas)[id := Saga(g.status, if Qr in stages then None else Some(Qr), stages)]
    {
      if id !in db.sagas || throws {
        return true;
      }
      var saga := db.sagas[id];
      var stages := if stage in saga.stages then saga.stages else saga.stages + [stage];
      db.sagas := db.sagas[id := saga.(stages := stages, current := if Qr in stages then None else Some(Qr))];
      threw := false;
    }

    method Complete(id: nat, throws: bool) returns (threw: bool)
      modifies db
      ensures threw == throws
      ensures db.Contents() == if threw then old(db.Contents()) else CompleteDb(old(db.Contents()), id)
      ensures db.orders == old(db.orders) && db.log == old(db.log)
      ensures db.sagas == if threw || id !in old(db.sagas) then old(db.sagas)
                          else old(db.sagas)[id := Saga(SagaCompleted, None, old(db.sagas)[id].stages)]
    {
      if !throws && id in db.sagas {
        db.sagas := db.sagas[id := db.sagas[id].(status := SagaCompleted, current := None)];
      }
      threw := throws;
    }

    method Compensate(id: nat, throws: bool) returns (threw: bool)
      modifies db
      ensures threw == throws
      ensures db.Contents() == if threw then old(db.Contents()) else CompensateDb(old(db.Contents()), id)
      ensures !threw ==>
                var o, g := old(db.orders), old(db.sagas);
                var fails := id < |o| && !o[id].deleted && o[id].status !in {Failed, Cancelled};
                && db.orders == (if fails then o[id := Order(Failed, o[id].version + 1, false)] else o)
                && db.log == old(db.log)
                             + (if fails then [Changed(id, o[id].status, Failed, o[id].version + 1)] else [])
                && db.sagas == if id in g then g[id := Saga(SagaFailed, g[id].current, g[id].stages)] else g
    {
      var saved := (db.orders, db.log, db.sagas);
      if id in db.sagas {
        db.sagas := db.sagas[id := db.sagas[id].(status := SagaFailed)];
      }
      if id < |db.orders| && !db.orders[id].deleted
         && db.orders[id].status != Failed && db.orders[id].status != Cancelled
      {
        db.WriteOrder(id, Failed);
      }
      if throws {
        db.Rollback(saved);
      }
      threw := throws;
    }
  }
}
