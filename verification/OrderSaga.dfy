/** The post-creation workflow: what a sequence of deliveries, failing or crashing anywhere, does
    to the saga. */
module OrderSaga {
  import opened Common
  import opened OrderTable
  import opened OrderProtocol

  ghost predicate IsPrefix(stages: seq<Stage>) {
    stages == [] || stages == [Avatar] || stages == [Avatar, Qr]
  }

  /** Completed stages are a prefix of avatar, qr; `current` names the next one; a completed saga
      has both. */
  ghost predicate SagaOk(g: Saga) {
    && IsPrefix(g.stages)
    && g.current == (if g.stages == [] then Some(Avatar) else if g.stages == [Avatar] then Some(Qr) else None)
    && (g.status == SagaCompleted ==> g.stages == [Avatar, Qr])
  }

  /** What a delivery knows of its saga. */
  ghost predicate DeliveryOk(p: Phase, sagas: map<nat, Saga>, id: nat) {
    p != Starting ==>
      && id in sagas
      && match p {
        case Generating(stage) => sagas[id].stages == Before(stage)
        case ReadingStages(stage) => sagas[id].stages == Before(stage)
        case WritingStages(stage, stages) => sagas[id].stages == Before(stage) && stages == Before(stage) + [stage]
        case Resuming => sagas[id].stages != []
        case Finishing => sagas[id].stages == [Avatar, Qr]
        case _ => true
      }
  }

  function Before(stage: Stage): seq<Stage> { if stage == Avatar then [] else [Avatar] }

  ghost predicate SagaInv(s: System) {
    && (forall id | id in s.db.sagas :: SagaOk(s.db.sagas[id]))
    && (forall id | id in s.deliveries :: DeliveryOk(s.deliveries[id], s.db.sagas, id))
  }

  /** Only the saga of `id` changed, and it only gained stages. */
  ghost predicate Local(sagas: map<nat, Saga>, sagas': map<nat, Saga>, id: nat) {
    && (forall k | k != id :: k in sagas' <==> k in sagas)
    && (forall k | k != id && k in sagas :: sagas'[k] == sagas[k])
    && (id in sagas ==> id in sagas' && forall x | x in sagas[id].stages :: x in sagas'[id].stages)
  }

  lemma StartKeeps(db: Db, id: nat)
    requires id in db.sagas ==> SagaOk(db.sagas[id])
    ensures var db' := StartOrResumeDb(db, id);
            && Local(db.sagas, db'.sagas, id) && id in db'.sagas && SagaOk(db'.sagas[id])
            && StagesOf(db', id) == StagesOf(db, id)
  {
    hide WriteStatus;
  }

  lemma WriteStagesKeeps(db: Db, id: nat, stage: Stage)
    requires id in db.sagas && SagaOk(db.sagas[id]) && db.sagas[id].stages == Before(stage)
    ensures var db' := WriteStagesDb(db, id, Before(stage) + [stage]);
            && Local(db.sagas, db'.sagas, id) && SagaOk(db'.sagas[id])
            && db'.sagas[id].stages == Before(stage) + [stage]
  {
  }

  lemma CompleteKeeps(db: Db, id: nat)
    requires id in db.sagas && SagaOk(db.sagas[id]) && db.sagas[id].stages == [Avatar, Qr]
    ensures var db' := CompleteDb(db, id); Local(db.sagas, db'.sagas, id) && SagaOk(db'.sagas[id])
  {
  }

  lemma CompensateKeeps(db: Db, id: nat)
    requires id in db.sagas ==> SagaOk(db.sagas[id])
    ensures var db' := CompensateDb(db, id);
            Local(db.sagas, db'.sagas, id) && (id in db'.sagas ==> id in db.sagas && SagaOk(db'.sagas[id]))
  {
  }

  /** A delivery's step, seen from its own order. */
  ghost predicate OwnStep(s: System, s': System, id: nat) {
    && Local(s.db.sagas, s'.db.sagas, id)
    && (id in s'.db.sagas ==> SagaOk(s'.db.sagas[id]))
    && (id in s'.deliveries ==> DeliveryOk(s'.deliveries[id], s'.db.sagas, id))
    && s'.deliveries - {id} == s.deliveries - {id}
    && (s'.calls == s.calls
        || exists stage | stage !in StagesOf(s.db, id) :: s'.calls == s.calls + [Call(id, stage)])
  }

  lemma OwnStart(s: System, id: nat, outcome: Outcome)
    requires SagaInv(s) && id in s.deliveries && s.deliveries[id] in {Starting, Resuming}
    ensures OwnStep(s, StepDelivery(s, id, outcome), id)
  {
    hide StepDelivery, OwnStep, StartOrResumeDb;
    assert DeliveryOk(s.deliveries[id], s.db.sagas, id);
    if s.deliveries[id] == Starting {
      OwnStarting(s, id, outcome);
    } else {
      OwnResuming(s, id, outcome);
    }
  }

  lemma OwnStarting(s: System, id: nat, outcome: Outcome)
    requires id in s.deliveries && s.deliveries[id] == Starting && (id in s.db.sagas ==> SagaOk(s.db.sagas[id]))
    ensures OwnStep(s, StepDelivery(s, id, outcome), id)
  {
    hide StartOrResumeDb, SagaOk, IsPrefix;
    StartKeeps(s.db, id);
    NextStage(s.db, id);
  }

  lemma OwnResuming(s: System, id: nat, outcome: Outcome)
    requires id in s.deliveries && s.deliveries[id] == Resuming && id in s.db.sagas && SagaOk(s.db.sagas[id])
    requires s.db.sagas[id].stages != []
    ensures OwnStep(s, StepDelivery(s, id, outcome), id)
  {
    hide StartOrResumeDb, SagaOk, IsPrefix;
    StartKeeps(s.db, id);
    NextStage(s.db, id);
  }

  /** The recorded stages fit where the delivery goes on. */
  lemma NextStage(db: Db, id: nat)
    requires id in db.sagas ==> SagaOk(db.sagas[id])
    ensures var stages := StagesOf(db, id);
            && (Avatar in stages <==> stages != [])
            && (stages != [] && Qr !in stages ==> stages == [Avatar])
            && (Qr in stages ==> stages == [Avatar, Qr])
  {
  }

  lemma OwnStage(s: System, id: nat, outcome: Outcome)
    requires SagaInv(s) && id in s.deliveries
    requires s.deliveries[id].Generating? || s.deliveries[id].ReadingStages?
    ensures OwnStep(s, StepDelivery(s, id, outcome), id)
  {
    hide StartOrResumeDb, WriteStagesDb, CompleteDb, CompensateDb, SagaOk;
    assert DeliveryOk(s.deliveries[id], s.db.sagas, id);
    assert s.deliveries[id].stage !in StagesOf(s.db, id);
  }

  lemma OwnWrite(s: System, id: nat, outcome: Outcome)
    requires SagaInv(s) && id in s.deliveries && s.deliveries[id].WritingStages?
    ensures OwnStep(s, StepDelivery(s, id, outcome), id)
  {
    hide StartOrResumeDb, WriteStagesDb, CompleteDb, CompensateDb, SagaOk;
    assert DeliveryOk(s.deliveries[id], s.db.sagas, id);
    WriteStagesKeeps(s.db, id, s.deliveries[id].stage);
  }

  lemma OwnEnd(s: System, id: nat, outcome: Outcome)
    requires SagaInv(s) && id in s.deliveries && s.deliveries[id] in {Finishing, Compensating}
    ensures OwnStep(s, StepDelivery(s, id, outcome), id)
  {
    hide StartOrResumeDb, WriteStagesDb, CompleteDb, CompensateDb, SagaOk;
    assert DeliveryOk(s.deliveries[id], s.db.sagas, id);
    if s.deliveries[id] == Finishing {
      CompleteKeeps(s.db, id);
    } else {
      CompensateKeeps(s.db, id);
    }
  }

  lemma OwnSaga(s: System, id: nat, outcome: Outcome)
    requires SagaInv(s) && id in s.deliveries
    ensures OwnStep(s, StepDelivery(s, id, outcome), id)
  {
    hide StepDelivery, OwnStep, SagaInv;
    match s.deliveries[id]
    case Starting => OwnStart(s, id, outcome);
    case Generating(_) => OwnStage(s, id, outcome);
    case ReadingStages(_) => OwnStage(s, id, outcome);
    case WritingStages(_, _) => OwnWrite(s, id, outcome);
    case Resuming => OwnStart(s, id, outcome);
    case Finishing => OwnEnd(s, id, outcome);
    case Compensating => OwnEnd(s, id, outcome);
  }

  ghost predicate Grows(db: Db, db': Db) {
    forall id, x | id in db.sagas && x in db.sagas[id].stages :: id in db'.sagas && x in db'.sagas[id].stages
  }

  lemma SagaStep(s: System, a: Action)
    requires SagaInv(s)
    ensures SagaInv(Apply(s, a))
    ensures Grows(s.db, Apply(s, a).db)
    ensures Apply(s, a).calls == s.calls
            || exists c: Call | c.stage !in StagesOf(s.db, c.id) :: Apply(s, a).calls == s.calls + [c]
  {
    hide StepDelivery, SagaOk;
    var s' := Apply(s, a);
    if a.Step? && a.id in s.deliveries {
      OwnSaga(s, a.id, a.outcome);
      forall k | k in s'.deliveries && k != a.id
        ensures k in s.deliveries && s'.deliveries[k] == s.deliveries[k]
      {
        assert k in s'.deliveries - {a.id} && (s'.deliveries - {a.id})[k] == (s.deliveries - {a.id})[k];
      }
    } else if a.Step? {
      IdleStep(s, a.id, a.outcome);
    }
  }

  lemma IdleStep(s: System, id: nat, outcome: Outcome)
    requires id !in s.deliveries
    ensures StepDelivery(s, id, outcome) == s
  {
  }

  /** In every run: stages form a prefix, a saga marked completed has both. */
  lemma {:induction false} SagaRun(s: System, run: seq<Action>)
    requires SagaInv(s)
    ensures SagaInv(Exec(s, run)) && Grows(s.db, Exec(s, run).db)
    decreases |run|
  {
    hide Apply;
    if run != [] {
      SagaStep(s, run[0]);
      SagaRun(Apply(s, run[0]), run[1..]);
    }
  }

  lemma StagesArePrefix(run: seq<Action>, id: nat)
    requires id in Exec(Init(), run).db.sagas
    ensures var g := Exec(Init(), run).db.sagas[id];
            && IsPrefix(g.stages)
            && (g.status == SagaCompleted ==> g.stages == [Avatar, Qr] && g.current == None)
  {
    SagaRun(Init(), run);
  }

  /** From any reachable state on: a recorded stage stays recorded, and its generator is never
      called again, whatever deliveries follow and wherever they fail. */
  lemma {:induction false} RecordedStageNeverRegenerates(s: System, run: seq<Action>, id: nat, stage: Stage)
    requires SagaInv(s) && stage in StagesOf(s.db, id)
    ensures var s' := Exec(s, run);
            && stage in StagesOf(s'.db, id)
            && s.calls <= s'.calls
            && Call(id, stage) !in s'.calls[|s.calls|..]
    decreases |run|
  {
    hide Apply, SagaInv;
    if run != [] {
      var s1, s' := Apply(s, run[0]), Exec(s, run);
      SagaStep(s, run[0]);
      RecordedStageNeverRegenerates(s1, run[1..], id, stage);
      forall i | |s.calls| <= i < |s'.calls| ensures s'.calls[i] != Call(id, stage) {
        if i < |s1.calls| {
          assert s'.calls[i] == s1.calls[i];
        } else {
          assert s'.calls[i] == s'.calls[|s1.calls|..][i - |s1.calls|];
        }
      }
    }
  }

  /** Redelivered after a compensation, a visible order that was not cancelled is pending again, and the
      workflow goes on after the stages already recorded. */
  lemma RedeliveryReopens(s: System, id: nat)
    requires id in s.deliveries && s.deliveries[id] == Compensating && id in s.db.sagas
    requires id < |s.db.orders| && !s.db.orders[id].deleted && s.db.orders[id].status != Cancelled
    ensures var s' := Exec(s, [Step(id, Done), Deliver(id), Step(id, Done)]); var stages := s.db.sagas[id].stages;
            && id < |s'.db.orders| && s'.db.orders[id].status == Pending
            && s'.db.orders[id].version == s.db.orders[id].version + (if s.db.orders[id].status == Failed then 1 else 2)
            && id in s'.db.sagas && s'.db.sagas[id] == Saga(Running, s.db.sagas[id].current, stages)
            && id in s'.deliveries && s'.deliveries[id] == if Avatar in stages then Resuming else Generating(Avatar)
  {
    hide Exec;
    Exec3(s, Step(id, Done), Deliver(id), Step(id, Done));
    var s1 := Apply(s, Step(id, Done));
    assert id !in s1.deliveries && s1.db.orders[id].status == Failed && !s1.db.orders[id].deleted;
    assert s1.db.sagas[id] == Saga(SagaFailed, s.db.sagas[id].current, s.db.sagas[id].stages);
    var s2 := Apply(s1, Deliver(id));
    assert s2.db == s1.db && s2.deliveries[id] == Starting;
  }

  lemma Exec3(s: System, a: Action, b: Action, c: Action)
    ensures Exec(s, [a, b, c]) == Apply(Apply(Apply(s, a), b), c)
  {
    hide Apply;
    var run := [a, b, c];
    assert run[1..] == [b, c] && run[1..][1..] == [c] && run[1..][1..][1..] == [];
    assert Exec(s, run) == Exec(Apply(s, a), [b, c]);
    assert Exec(Apply(s, a), [b, c]) == Exec(Apply(Apply(s, a), b), [c]);
    assert Exec(Apply(Apply(s, a), b), [c]) == Apply(Apply(Apply(s, a), b), c);
  }
}
