/** What becomes of a key whose reservation lost its owner. */
module OutboxAbandoned {
  import opened Common
  import opened OutboxTable
  import opened OutboxProtocol
  import opened OutboxInvariant
  import opened OutboxTheorems
  import opened OutboxRespect
  import Backoff

  /** Reserved, and nobody is left to finish it. */
  ghost predicate Abandoned(s: System, key: Key) { IsReserved(s, key) && !OwnedBySome(s.workers, key) }

  /** At most worker w changed, and it does not own the key. */
  lemma StillUnowned(workers: map<nat, Worker>, workers': map<nat, Worker>, w: nat, key: Key)
    requires !OwnedBySome(workers, key) && workers' - {w} == workers - {w}
    requires w in workers' ==> !OwnsKey(workers'[w], key)
    ensures !OwnedBySome(workers', key)
  {
    hide HandlerKey;
    forall v | v in workers' ensures !OwnsKey(workers'[v], key) {
      if v != w {
        assert v in workers' - {w} && (workers' - {w})[v] == (workers - {w})[v];
      }
    }
  }

  ghost predicate AbandonedNext(s: System, s': System, key: Key) {
    && Abandoned(s', key)
    && (key in s'.handled <==> key in s.handled)
    && (s'.starts == s.starts || exists k :: k != key && s'.starts == s.starts + [k])
  }

  /** The steps of a worker on the ledger and in the handler. */
  lemma AbandonedLedger(s: System, w: nat, outcome: Outcome, key: Key)
    requires Abandoned(s, key)
    ensures AbandonedNext(s, StepReserve(s, w, outcome), key)
    ensures AbandonedNext(s, StepInspect(s, w, outcome), key)
  {
    hide HandlerKey;
    assert StepReserve(s, w, outcome).workers - {w} == s.workers - {w} == StepInspect(s, w, outcome).workers - {w};
    StillUnowned(s.workers, StepReserve(s, w, outcome).workers, w, key);
    StillUnowned(s.workers, StepInspect(s, w, outcome).workers, w, key);
  }

  lemma AbandonedOwner(s: System, w: nat, outcome: Outcome, handlerOk: bool, key: Key)
    requires Abandoned(s, key)
    ensures AbandonedNext(s, StepEndDispatch(s, w, handlerOk), key)
    ensures AbandonedNext(s, StepRecord(s, w, outcome), key)
    ensures AbandonedNext(s, StepRelease(s, w, outcome), key)
  {
    hide HandlerKey, OwnedBySome;
    var s1, s2, s3 := StepEndDispatch(s, w, handlerOk), StepRecord(s, w, outcome), StepRelease(s, w, outcome);
    assert s1.workers - {w} == s.workers - {w} == s2.workers - {w} == s3.workers - {w};
    if w in s.workers {
      NotOwner(s.workers, w, key);
    }
    StillUnowned(s.workers, s1.workers, w, key);
    StillUnowned(s.workers, s2.workers, w, key);
    StillUnowned(s.workers, s3.workers, w, key);
  }

  lemma NotOwner(workers: map<nat, Worker>, w: nat, key: Key)
    requires !OwnedBySome(workers, key) && w in workers
    ensures !OwnsKey(workers[w], key)
  {
    hide HandlerKey, OwnsKey;
  }

  lemma AbandonedMarkDone(s: System, w: nat, outcome: Outcome, key: Key)
    requires Abandoned(s, key)
    ensures AbandonedNext(s, StepMarkDone(s, w, outcome), key)
  {
    hide HandlerKey, OwnedBySome, Effective, ProcessedRow;
    var s' := StepMarkDone(s, w, outcome);
    assert s'.workers - {w} == s.workers - {w};
    if At(s, w, MarkingDone) {
      StillUnowned(s.workers, s'.workers, w, key);
    }
  }

  lemma AbandonedMarkFail(cfg: Config, s: System, w: nat, outcome: Outcome, localNow: nat, jitter: nat, key: Key)
    requires Abandoned(s, key)
    ensures AbandonedNext(s, StepMarkFail(cfg, s, w, outcome, localNow, jitter), key)
  {
    hide HandlerKey, OwnedBySome, Effective, FailDb;
    var s' := StepMarkFail(cfg, s, w, outcome, localNow, jitter);
    assert s'.workers - {w} == s.workers - {w};
    if At(s, w, MarkingFailed) {
      FailLedger(cfg, s.db);
      StillUnowned(s.workers, s'.workers, w, key);
    }
  }

  lemma AbandonedClaim(cfg: Config, s: System, a: Action, key: Key)
    requires Abandoned(s, key) && a.ClaimBatch?
    ensures AbandonedNext(s, Apply(cfg, s, a), key)
  {
    hide HandlerKey, OwnedBySome, ClaimRows, ClaimsOf, IsSelection;
    var s' := Apply(cfg, s, a);
    if s' != s {
      assert s'.workers - {a.w} == s.workers - {a.w};
      StillUnowned(s.workers, s'.workers, a.w, key);
    }
  }

  lemma AbandonedStep(cfg: Config, s: System, a: Action, key: Key)
    requires Abandoned(s, key)
    ensures AbandonedNext(s, Apply(cfg, s, a), key)
  {
    hide HandlerKey, OwnedBySome, StepClaim, StepReserve, StepInspect, StepEndDispatch, StepRecord, StepRelease,
      StepMarkDone, StepMarkFail, RetryDb, RequeueDb;
    match a
    case Tick(_) =>
    case Insert(_) =>
    case ManualRetry(id) => ResetLeavesLedger(s, id);
    case ManualRequeue(id) => ResetLeavesLedger(s, id);
    case ClaimBatch(_, _, _, _, _) => AbandonedClaim(cfg, s, a, key);
    case MarkDone(w, outcome) => AbandonedMarkDone(s, w, outcome, key);
    case MarkFail(w, outcome, localNow, jitter) => AbandonedMarkFail(cfg, s, w, outcome, localNow, jitter, key);
    case Reserve(w, outcome) => AbandonedLedger(s, w, outcome, key);
    case Inspect(w, outcome) => AbandonedLedger(s, w, outcome, key);
    case EndDispatch(w, handlerOk) => AbandonedOwner(s, w, Done, handlerOk, key);
    case Record(w, outcome) => AbandonedOwner(s, w, outcome, true, key);
    case Release(w, outcome) => AbandonedOwner(s, w, outcome, true, key);
    case Crash(w) =>
      assert (s.workers - {w}) - {w} == s.workers - {w};
      StillUnowned(s.workers, s.workers - {w}, w, key);
  }

  /** In every continuation, manual retries and requeues included, such a key stays reserved, its handler
      never starts and never completes: all that can still happen to its rows is to be marked. */
  lemma {:induction false} AbandonedForever(cfg: Config, s: System, run: seq<Action>, key: Key)
    requires Abandoned(s, key)
    ensures var s' := Exec(cfg, s, run);
            && Abandoned(s', key)
            && (key in s'.handled <==> key in s.handled)
            && s.starts <= s'.starts && key !in s'.starts[|s.starts|..]
    decreases |run|
  {
    hide Apply, Abandoned;
    if run == [] {
      assert s.starts[|s.starts|..] == [];
    } else {
      var s1 := Apply(cfg, s, run[0]);
      AbandonedStep(cfg, s, run[0], key);
      AbandonedForever(cfg, s1, run[1..], key);
      var s' := Exec(cfg, s, run);
      forall i | |s.starts| <= i < |s'.starts| ensures s'.starts[i] != key {
        if i < |s1.starts| {
          assert s'.starts[i] == s1.starts[i];
        } else {
          assert s'.starts[i] == s'.starts[|s1.starts|..][i - |s1.starts|];
        }
      }
    }
  }
}
