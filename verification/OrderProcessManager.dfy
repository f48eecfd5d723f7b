/** `OrderProcessManager.handle` as the code runs it, one delivery from start to end. */
module OrderProcessManagerModel {
  import opened Common
  import opened OrderTable
  import opened OrderProtocol
  import opened OrderSaga

  /** Which of the delivery's calls throw. */
  datatype Plan = Plan(start: bool, avatar: bool, markAvatar: bool, resume: bool, qr: bool, markQr: bool,
                       complete: bool, compensate: bool)

  /** Does a stage that is still missing go wrong? */
  predicate StageThrows(stages: seq<Stage>, stage: Stage, plan: Plan) {
    stage !in stages && if stage == Avatar then plan.avatar || plan.markAvatar else plan.qr || plan.markQr
  }

  /** Which calls of the try block throw, given the stages recorded before it. */
  predicate TryThrows(stages: seq<Stage>, plan: Plan) {
    StageThrows(stages, Avatar, plan) || plan.resume || StageThrows(stages, Qr, plan) || plan.complete
  }

  /** The generators the try block calls. */
  function TryCalls(stages: seq<Stage>, plan: Plan): seq<Stage> {
    (if Avatar in stages then [] else [Avatar])
    + (if StageThrows(stages, Avatar, plan) || plan.resume || Qr in stages then [] else [Qr])
  }

  /** The first transaction fails, by itself or because the order a new saga would refer to is missing. */
  predicate StartThrows(db: Db, id: nat, plan: Plan) { plan.start || (id !in db.sagas && id >= |db.orders|) }

  function Result(throws: bool): Outcome { if throws then LostBefore else Done }

  lemma {:induction false} ExecAppend(s: System, run: seq<Action>, a: Action)
    ensures Exec(s, run + [a]) == Apply(Exec(s, run), a)
    decreases |run|
  {
    hide Apply;
    if run == [] {
      assert [a][1..] == [];
    } else {
      assert (run + [a])[1..] == run[1..] + [a];
      ExecAppend(Apply(s, run[0]), run[1..], a);
    }
  }

  /** The delivery alone in the system. */
  function Alone(db: Db): System { System(db, map[], [], []) }

  /** `run` took the delivery of `id`, started from `db0`, to this point. */
  ghost predicate Reached(db0: Db, run: seq<Action>, id: nat, p: Option<Phase>, db: Db, calls: seq<Stage>) {
    var s := Exec(Alone(db0), run);
    && s.db == db
    && s.deliveries == (if p.Some? then map[id := p.value] else map[])
    && s.calls == seq(|calls|, i requires 0 <= i < |calls| => Call(id, calls[i]))
  }

  lemma Continue(db0: Db, run: seq<Action>, id: nat, p: Phase, db: Db, calls: seq<Stage>, a: Action,
                 q: Option<Phase>, db': Db, calls': seq<Stage>)
    requires Reached(db0, run, id, Some(p), db, calls)
    requires a.Step? && a.id == id
    requires var s := StepDelivery(System(db, map[id := p], [], []), id, a.outcome);
             && s.db == db' && s.deliveries == (if q.Some? then map[id := q.value] else map[])
             && calls' == calls + (if s.calls == [] then [] else [s.calls[0].stage])
             && |s.calls| <= 1 && (s.calls != [] ==> s.calls[0].id == id)
    ensures Reached(db0, run + [a], id, q, db', calls')
  {
    hide StartOrResumeDb, WriteStagesDb, CompleteDb, CompensateDb;
    ExecAppend(Alone(db0), run, a);
    var s := Exec(Alone(db0), run);
    assert s.deliveries == map[id := p];
    assert s.deliveries - {id} == map[];
  }

  lemma Delivered(db: Db, id: nat)
    ensures Reached(db, [Deliver(id)], id, Some(Starting), db, [])
  {
    assert Exec(Alone(db), [Deliver(id)]) == Apply(Alone(db), Deliver(id));
  }

  class OrderProcessManager {
    const sagaRepository: OrderSagaRepository

    constructor (sagaRepository: OrderSagaRepository)
      ensures this.sagaRepository == sagaRepository
    {
      this.sagaRepository := sagaRepository;
    }

    /** The two-stage workflow with compensation. `calls` are the generators invoked; `run` is the
        run of the interleaved protocol this delivery amounts to. */
    method Handle(id: nat, plan: Plan) returns (threw: bool, calls: seq<Stage>, ghost run: seq<Action>)
      requires id in sagaRepository.db.sagas ==> SagaOk(sagaRepository.db.sagas[id])
      modifies sagaRepository.db
      ensures Reached(old(sagaRepository.db.Contents()), run, id, None, sagaRepository.db.Contents(), calls)
      ensures var db0 := old(sagaRepository.db.Contents()); var stages := StagesOf(db0, id);
              && (threw <==> StartThrows(db0, id, plan) || TryThrows(stages, plan))
              && calls == if StartThrows(db0, id, plan) then [] else TryCalls(stages, plan)
      ensures !threw ==> id in sagaRepository.db.sagas
                         && sagaRepository.db.sagas[id] == Saga(SagaCompleted, None, [Avatar, Qr])
      ensures threw && id in sagaRepository.db.sagas && !plan.start && !plan.compensate ==>
                var db := sagaRepository.db.Contents();
                && db.sagas[id].status == SagaFailed
                && (Visible(db, id) ==> db.orders[id].status == Failed || db.orders[id].status == Cancelled)
    {
      hide Reached, StartOrResumeDb, WriteStagesDb, CompleteDb, TryThrows, TryCalls;
      var db := sagaRepository.db;
      ghost var db0 := db.Contents();
      run, calls := [Deliver(id)], [];
      Delivered(db0, id);
      var stages: seq<Stage>;
      ghost var before := db.Contents();
      threw, stages := sagaRepository.StartOrResume(id, plan.start);
      if threw {
        Continue(db0, run, id, Starting, before, calls, Step(id, LostBefore), None, db.Contents(), calls);
        run := run + [Step(id, LostBefore)];
        return;
      }
      StartKeeps(before, id);
      Continue(db0, run, id, Starting, before, calls, Step(id, Done), Some(AfterStart(stages)), db.Contents(), calls);
      run := run + [Step(id, Done)];

      threw, calls, run := TryStages(id, plan, stages, run, db0);
      if threw {
        before := db.Contents();
        var lost := sagaRepository.Compensate(id, plan.compensate);
        Continue(db0, run, id, Compensating, before, calls, Step(id, Result(lost)), None, db.Contents(), calls);
        run := run + [Step(id, Result(lost))];
      }
    }

    /** The body of the try block. */
    method TryStages(id: nat, plan: Plan, started: seq<Stage>, ghost run: seq<Action>, ghost db0: Db)
      returns (threw: bool, calls: seq<Stage>, ghost run': seq<Action>)
      requires Reached(db0, run, id, Some(AfterStart(started)), sagaRepository.db.Contents(), [])
      requires id in sagaRepository.db.sagas && SagaOk(sagaRepository.db.sagas[id])
      requires sagaRepository.db.sagas[id].stages == started
      modifies sagaRepository.db
      ensures Reached(db0, run', id, if threw then Some(Compensating) else None, sagaRepository.db.Contents(), calls)
      ensures id in sagaRepository.db.sagas && SagaOk(sagaRepository.db.sagas[id])
      ensures !threw ==> sagaRepository.db.sagas[id] == Saga(SagaCompleted, None, [Avatar, Qr])
      ensures (threw <==> TryThrows(started, plan)) && calls == TryCalls(started, plan)
    {
      hide Reached, StartOrResumeDb, CompensateDb, WriteStagesDb, CompleteDb;
      var db := sagaRepository.db;
      threw, calls, run' := false, [], run;
      if Avatar !in started {
        threw, calls, run' := RunStage(id, Avatar, plan.avatar, plan.markAvatar, calls, run', db0);
      }
      if !threw {
        threw, calls, run' := ResumeAndQr(id, plan, calls, run', db0);
      }
      if !threw {
        ghost var before := db.Contents();
        threw := sagaRepository.Complete(id, plan.complete);
        Continue(db0, run', id, Finishing, before, calls, Step(id, Result(threw)),
                 if threw then Some(Compensating) else None, db.Contents(), calls);
        run' := run' + [Step(id, Result(threw))];
      }
    }

    method ResumeAndQr(id: nat, plan: Plan, calls: seq<Stage>, ghost run: seq<Action>, ghost db0: Db)
      returns (threw: bool, calls': seq<Stage>, ghost run': seq<Action>)
      requires Reached(db0, run, id, Some(Resuming), sagaRepository.db.Contents(), calls)
      requires id in sagaRepository.db.sagas && SagaOk(sagaRepository.db.sagas[id])
      requires Avatar in sagaRepository.db.sagas[id].stages
      modifies sagaRepository.db
      ensures Reached(db0, run', id, Some(if threw then Compensating else Finishing),
                      sagaRepository.db.Contents(), calls')
      ensures id in sagaRepository.db.sagas && SagaOk(sagaRepository.db.sagas[id])
      ensures !threw ==> sagaRepository.db.sagas[id].stages == [Avatar, Qr]
      ensures var stages := old(sagaRepository.db.sagas)[id].stages;
              && (threw <==> plan.resume || StageThrows(stages, Qr, plan))
              && calls' == calls + if plan.resume || Qr in stages then [] else [Qr]
    {
      hide Reached, StartOrResumeDb, CompensateDb, WriteStagesDb, CompleteDb;
      ghost var before := sagaRepository.db.Contents();
      var stages;
      threw, stages := sagaRepository.StartOrResume(id, plan.resume);
      StartKeeps(before, id);
      Continue(db0, run, id, Resuming, before, calls, Step(id, Result(threw)),
               Some(if threw then Compensating else AfterResume(stages)), sagaRepository.db.Contents(), calls);
      calls', run' := calls, run + [Step(id, Result(threw))];
      if !threw && Qr !in stages {
        threw, calls', run' := RunStage(id, Qr, plan.qr, plan.markQr, calls', run', db0);
      }
    }

    /** One stage: call the generator, then record the stage. */
    method RunStage(id: nat, stage: Stage, generatorThrows: bool, markThrows: bool, calls: seq<Stage>,
                    ghost run: seq<Action>, ghost db0: Db)
      returns (threw: bool, calls': seq<Stage>, ghost run': seq<Action>)
      requires Reached(db0, run, id, Some(Generating(stage)), sagaRepository.db.Contents(), calls)
      requires id in sagaRepository.db.sagas && SagaOk(sagaRepository.db.sagas[id])
      requires sagaRepository.db.sagas[id].stages == Before(stage)
      modifies sagaRepository.db
      ensures Reached(db0, run', id,
                      Some(if threw then Compensating else if stage == Avatar then Resuming else Finishing),
                      sagaRepository.db.Contents(), calls')
      ensures id in sagaRepository.db.sagas && SagaOk(sagaRepository.db.sagas[id])
      ensures threw <==> generatorThrows || markThrows
      ensures calls' == calls + [stage]
      ensures !threw ==> sagaRepository.db.sagas[id].stages == Before(stage) + [stage]
    {
      var db := sagaRepository.db;
      ghost var before := db.Contents();
      calls' := calls + [stage];
      threw := generatorThrows;
      Continue(db0, run, id, Generating(stage), before, calls, Step(id, Result(threw)),
               Some(if threw then Compensating else ReadingStages(stage)), before, calls');
      run' := run + [Step(id, Result(threw))];
      if !threw {
        threw := sagaRepository.MarkStageCompleted(id, stage, markThrows);
        Continue(db0, run', id, ReadingStages(stage), before, calls', Step(id, Result(threw)),
                 Some(if threw then Compensating else WritingStages(stage, Before(stage) + [stage])), before, calls');
        run' := run' + [Step(id, Result(threw))];
        if !threw {
          WriteStagesKeeps(before, id, stage);
          Continue(db0, run', id, WritingStages(stage, Before(stage) + [stage]), before, calls', Step(id, Done),
                   Some(if stage == Avatar then Resuming else Finishing), db.Contents(), calls');
          run' := run' + [Step(id, Done)];
        }
      }
    }
  }
}
