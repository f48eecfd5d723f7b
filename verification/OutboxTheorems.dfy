/** What holds of the outbox in every run: any number of workers, expired leases, crashes,
    lost acknowledgements and manual resets included. */
module OutboxTheorems {
  import opened Common
  import opened OutboxTable
  import opened OutboxProtocol
  import opened OutboxInvariant

  /** At most one worker is inside the handler of a business key, and its entry is reserved. */
  lemma OneDispatcherPerKey(cfg: Config, run: seq<Action>, v: nat, w: nat)
    requires var s := Exec(cfg, Init(), run);
             && At(s, v, Dispatching) && At(s, w, Dispatching)
             && Current(s, v).Key() == Current(s, w).Key()
    ensures v == w
    ensures var s := Exec(cfg, Init(), run); var key := Current(s, v).Key();
            key in s.db.ledger && s.db.ledger[key] == Reserved
  {
    hide HandlerKey;
    var s := Exec(cfg, Init(), run);
    ReachableInv(cfg, run);
    assert Owns(s.workers[v]) && Owns(s.workers[w]);
    assert OwnerFits(s.workers[v], s.db.ledger, s.handled);
  }

  ghost predicate IsRecorded(s: System, key: Key) {
    key in s.db.ledger && s.db.ledger[key] == Recorded
  }

  lemma RecordedStep(cfg: Config, s: System, a: Action, key: Key)
    requires IsRecorded(s, key)
    ensures IsRecorded(Apply(cfg, s, a), key)
    ensures var s' := Apply(cfg, s, a); s'.starts == s.starts || exists k :: k != key && s'.starts == s.starts + [k]
  {
    hide HandlerKey, FailDb, IsSelection, ClaimRows, ClaimsOf;
    if a.Reserve? && At(s, a.w, Reserving) && Current(s, a.w).Key() !in s.db.ledger {
      assert Current(s, a.w).Key() != key;
    }
    if a.MarkFail? {
      FailLedger(cfg, s.db);
    }
  }

  lemma FailLedger(cfg: Config, db: Db)
    ensures forall c, localNow, jitter :: FailDb(cfg, db, c, localNow, jitter).ledger == db.ledger
  {
  }

  /** Once a key is recorded it stays recorded and no handler for it ever starts again, whichever
      row carries it; and its handler did run to completion. */
  lemma {:induction false} RecordedIsFinal(cfg: Config, s: System, run: seq<Action>, key: Key)
    requires IsRecorded(s, key)
    ensures var s' := Exec(cfg, s, run);
            && IsRecorded(s', key)
            && s.starts <= s'.starts
            && key !in s'.starts[|s.starts|..]
    decreases |run|
  {
    if run != [] {
      var s1 := Apply(cfg, s, run[0]);
      RecordedStep(cfg, s, run[0], key);
      RecordedIsFinal(cfg, s1, run[1..], key);
      var s' := Exec(cfg, s, run);
      forall i | |s.starts| <= i < |s'.starts| ensures s'.starts[i] != key {
        if i < |s1.starts| {
          assert s'.starts[i] == s1.starts[i];
        } else {
          assert s'.starts[i] == s'.starts[|s1.starts|..][i - |s1.starts|];
        }
      }
    }
  }

  lemma RecordedWasHandled(cfg: Config, run: seq<Action>, key: Key)
    requires IsRecorded(Exec(cfg, Init(), run), key)
    ensures key in Exec(cfg, Init(), run).handled
  {
    ReachableInv(cfg, run);
  }

  // ------------------------------------------------------------ leases and fencing

  /** `processing` means leased; the lease answers to exactly one claim, which carries the row's
      attempts and its fencing number, the count of claims so far. */
  lemma LeaseIdentity(cfg: Config, run: seq<Action>, id: nat)
    requires id < |Exec(cfg, Init(), run).db.rows|
    ensures var s := Exec(cfg, Init(), run); var r := s.db.rows[id];
            && (r.status == Processing <==> r.leaseToken.Some?)
            && (r.status == Processing <==> r.leaseExpiresAt.Some?)
            && r.fencing == CountClaims(s.claims, id)
            && (forall t | r.leaseToken == Some(t) ::
                  exists i | 0 <= i < |s.claims| ::
                    && s.claims[i] == Claim(t, id, r.event, r.attempts, r.fencing)
                    && forall j | 0 <= j < |s.claims| && s.claims[j].id == id && s.claims[j].token == t :: j == i)
  {
    var s := Exec(cfg, Init(), run);
    ReachableInv(cfg, run);
    var r := s.db.rows[id];
    assert RowOk(r, cfg.maxAttempts);
    if r.leaseToken.Some? {
      var i :| 0 <= i < |s.claims| && s.claims[i] == LeaseClaim(id, r);
    }
  }

  /** A mark with a token the row does not hold changes nothing. */
  lemma StrayMarkIsNoop(cfg: Config, db: Db, c: Claim, localNow: nat, jitter: nat)
    ensures !Effective(db, c) ==> MarkProcessedDb(db, c.id, Some(c.token)) == db
    ensures !Effective(db, c) ==> FailDb(cfg, db, c, localNow, jitter) == db
    ensures Effective(db, c) ==> MarkProcessedDb(db, c.id, Some(c.token)) != db
    ensures Effective(db, c) ==> FailDb(cfg, db, c, localNow, jitter) != db
  {
    if Effective(db, c) {
      assert MarkProcessedDb(db, c.id, Some(c.token)).rows[c.id].leaseToken.None?;
      assert FailDb(cfg, db, c, localNow, jitter).rows[c.id].leaseToken.None?;
    }
  }

  /** Marks that changed a row came in strictly increasing fencing order. */
  lemma MarksFollowFencing(cfg: Config, run: seq<Action>, i: nat, j: nat)
    requires i < j < |Exec(cfg, Init(), run).marks|
    requires Exec(cfg, Init(), run).marks[i].id == Exec(cfg, Init(), run).marks[j].id
    ensures Exec(cfg, Init(), run).marks[i].fencing < Exec(cfg, Init(), run).marks[j].fencing
  {
    ReachableInv(cfg, run);
  }

  lemma {:induction false} ClaimsGrow(cfg: Config, s: System, run: seq<Action>)
    ensures s.claims <= Exec(cfg, s, run).claims
    decreases |run|
  {
    if run != [] {
      ClaimsGrow(cfg, Apply(cfg, s, run[0]), run[1..]);
    }
  }

  lemma {:induction false} ExecSplit(cfg: Config, s: System, a: seq<Action>, b: seq<Action>)
    ensures Exec(cfg, s, a + b) == Exec(cfg, Exec(cfg, s, a), b)
    decreases |a|
  {
    if a == [] {
      assert a + b == b;
    } else {
      assert (a + b)[1..] == a[1..] + b;
      ExecSplit(cfg, Apply(cfg, s, a[0]), a[1..], b);
    }
  }

  /** A worker whose row has been claimed again can never change that row again. */
  lemma StaleWorkerIsFenced(cfg: Config, run: seq<Action>, later: seq<Action>, c: Claim, d: Claim)
    requires var s := Exec(cfg, Init(), run); c in s.claims && d in s.claims
    requires c.id == d.id && c.fencing < d.fencing
    ensures !Effective(Exec(cfg, Exec(cfg, Init(), run), later).db, c)
  {
    var s := Exec(cfg, Init(), run);
    var s' := Exec(cfg, s, later);
    ExecSplit(cfg, Init(), run, later);
    ReachableInv(cfg, run + later);
    ClaimsGrow(cfg, s, later);
    var j :| 0 <= j < |s'.claims| && s'.claims[j] == d;
    assert ClaimFits(s'.db.rows, s'.db.freshToken, s'.claims[j], cfg.maxAttempts);
    if Effective(s'.db, c) {
      EffectiveRow(cfg, s', c);
    }
  }

  // ------------------------------------------------------------ bounded work, no stuck rows

  /** However often workers crash or stall, rows change state by a mark at most maxAttempts times
      per inserted event and per manual reset. */
  lemma MarkBudget(cfg: Config, run: seq<Action>)
    ensures var s := Exec(cfg, Init(), run); |s.marks| <= cfg.maxAttempts * (|s.db.rows| + s.resets)
  {
    hide TableFacts, TotalRemaining, WorkersOk, LedgerOk;
    ReachableInv(cfg, run);
  }

  lemma AttemptBounds(cfg: Config, run: seq<Action>, id: nat)
    requires id < |Exec(cfg, Init(), run).db.rows|
    ensures var r := Exec(cfg, Init(), run).db.rows[id];
            && (r.status == Pending ==> r.attempts == 0)
            && (r.status == Failed ==> 1 <= r.attempts < cfg.maxAttempts)
            && (r.status == DeadLetter <==> r.attempts == cfg.maxAttempts)
  {
    ReachableInv(cfg, run);
    assert RowOk(Exec(cfg, Init(), run).db.rows[id], cfg.maxAttempts);
  }

  /** No row is stuck: unless processed or dead, it is due from a known time on, for good. */
  lemma NoStuckRow(cfg: Config, run: seq<Action>, id: nat, now: nat)
    requires id < |Exec(cfg, Init(), run).db.rows|
    ensures var r := Exec(cfg, Init(), run).db.rows[id];
            IsDue(r, now) <==>
            || r.status == Pending
            || (r.status == Failed && r.nextRetryAt.Some? && r.nextRetryAt.value <= now)
            || (r.status == Processing && r.leaseExpiresAt.Some? && r.leaseExpiresAt.value <= now)
    ensures var r := Exec(cfg, Init(), run).db.rows[id];
            && (r.status == Failed ==> r.nextRetryAt.Some?)
            && (r.status == Processing ==> r.leaseExpiresAt.Some?)
  {
    ReachableInv(cfg, run);
    assert RowOk(Exec(cfg, Init(), run).db.rows[id], cfg.maxAttempts);
  }
}
