/** What every step of the outbox protocol keeps. Each part of the invariant mentions only the
    parts of the state it depends on. */
module OutboxInvariant {
  import opened Common
  import opened OutboxTable
  import opened OutboxProtocol
  import opened Backoff

  // ------------------------------------------------------------ rows, claims, leases, marks

  ghost predicate RowOk(r: Row, max: nat) {
    && (r.status == Processing <==> r.leaseToken.Some?)
    && (r.leaseToken.Some? <==> r.leaseExpiresAt.Some?)
    && (r.status == Processed <==> r.processedAt.Some?)
    && match r.status {
      case Pending => r.attempts == 0 && r.nextRetryAt.None?
      case Processing => r.attempts < max
      case Processed => r.attempts < max
      case Failed => 1 <= r.attempts < max && r.nextRetryAt.Some?
      case DeadLetter => r.attempts == max && r.nextRetryAt.None?
    }
  }

  ghost predicate RowsOk(rows: seq<Row>, max: nat) {
    forall i | 0 <= i < |rows| :: RowOk(rows[i], max)
  }

  ghost predicate ClaimFits(rows: seq<Row>, freshToken: nat, c: Claim, max: nat) {
    && c.token < freshToken
    && c.id < |rows|
    && c.event == rows[c.id].event
    && 1 <= c.fencing <= rows[c.id].fencing
    && c.attempts < max
  }

  /** Claims of one row carry ever larger fencing numbers and never share a token. */
  ghost predicate ClaimsOk(rows: seq<Row>, freshToken: nat, claims: seq<Claim>, max: nat) {
    && (forall i | 0 <= i < |claims| :: ClaimFits(rows, freshToken, claims[i], max))
    && (forall i, j | 0 <= i < j < |claims| && claims[i].id == claims[j].id ::
          claims[i].fencing < claims[j].fencing && claims[i].token != claims[j].token)
  }

  /** The claim a leased row answers to. */
  function LeaseClaim(id: nat, r: Row): Claim
    requires r.leaseToken.Some?
  {
    Claim(r.leaseToken.value, id, r.event, r.attempts, r.fencing)
  }

  ghost predicate LeasesOk(rows: seq<Row>, claims: seq<Claim>) {
    forall id | 0 <= id < |rows| && rows[id].leaseToken.Some? :: LeaseClaim(id, rows[id]) in claims
  }

  function CountClaims(claims: seq<Claim>, id: nat): nat {
    if claims == [] then 0
    else CountClaims(claims[..|claims| - 1], id) + if claims[|claims| - 1].id == id then 1 else 0
  }

  /** A row's fencing number is the number of claims made of it. */
  ghost predicate FencingOk(rows: seq<Row>, claims: seq<Claim>) {
    forall id | 0 <= id < |rows| :: rows[id].fencing == CountClaims(claims, id)
  }

  ghost predicate MarkFits(rows: seq<Row>, claims: seq<Claim>, m: Claim) {
    && m in claims
    && m.id < |rows|
    && m.fencing <= rows[m.id].fencing
    && (rows[m.id].leaseToken.Some? ==> m.fencing < rows[m.id].fencing)
  }

  ghost predicate MarksOk(rows: seq<Row>, claims: seq<Claim>, marks: seq<Claim>) {
    && (forall i | 0 <= i < |marks| :: MarkFits(rows, claims, marks[i]))
    && (forall i, j | 0 <= i < j < |marks| && marks[i].id == marks[j].id ::
          marks[i].fencing < marks[j].fencing)
  }

  // ------------------------------------------------------------ the mark budget

  /** Marks a row can still receive before somebody resets it by hand. */
  function Remaining(r: Row, max: nat): nat {
    if r.status == Processed || r.status == DeadLetter || r.attempts >= max then 0
    else max - r.attempts
  }

  function TotalRemaining(rows: seq<Row>, max: nat): nat {
    if rows == [] then 0 else Remaining(rows[0], max) + TotalRemaining(rows[1..], max)
  }

  ghost predicate BudgetOk(rows: seq<Row>, marks: seq<Claim>, resets: nat, max: nat) {
    |marks| + TotalRemaining(rows, max) <= max * (|rows| + resets)
  }

  // ------------------------------------------------------------ workers and the ledger

  ghost predicate WorkersOk(workers: map<nat, Worker>, claims: seq<Claim>) {
    forall w | w in workers ::
      |workers[w].batch| > 0 && forall k | 0 <= k < |workers[w].batch| :: workers[w].batch[k] in claims
  }

  /** The worker has a ledger entry of its own making. */
  ghost predicate Owns(x: Worker) {
    |x.batch| > 0 && (x.phase == Dispatching || x.phase == Recording || x.phase == Releasing)
  }

  ghost predicate OwnerFits(x: Worker, ledger: map<Key, LedgerStatus>, handled: set<Key>) {
    Owns(x) ==>
      var key := x.batch[0].Key();
      && key in ledger
      && (x.phase != Releasing ==> ledger[key] == Reserved)
      && (x.phase == Recording ==> key in handled)
  }

  ghost predicate LedgerOk(workers: map<nat, Worker>, ledger: map<Key, LedgerStatus>, handled: set<Key>) {
    && (forall w | w in workers :: OwnerFits(workers[w], ledger, handled))
    && (forall v, w | v in workers && w in workers && Owns(workers[v]) && Owns(workers[w])
                      && workers[v].batch[0].Key() == workers[w].batch[0].Key() :: v == w)
    && (forall key | key in ledger && ledger[key] == Recorded :: key in handled)
  }

  // ------------------------------------------------------------ the invariant

  ghost predicate TableFacts(rows: seq<Row>, freshToken: nat, claims: seq<Claim>, marks: seq<Claim>, max: nat) {
    && RowsOk(rows, max)
    && ClaimsOk(rows, freshToken, claims, max)
    && LeasesOk(rows, claims)
    && FencingOk(rows, claims)
    && MarksOk(rows, claims, marks)
  }

  ghost predicate TableInv(rows: seq<Row>, freshToken: nat, claims: seq<Claim>, marks: seq<Claim>,
                           resets: nat, max: nat)
  {
    && TableFacts(rows, freshToken, claims, marks, max)
    && BudgetOk(rows, marks, resets, max)
  }

  ghost predicate Inv(cfg: Config, s: System) {
    && TableInv(s.db.rows, s.db.freshToken, s.claims, s.marks, s.resets, cfg.maxAttempts)
    && WorkersOk(s.workers, s.claims)
    && LedgerOk(s.workers, s.db.ledger, s.handled)
  }

  // ------------------------------------------------------------ helpers

  lemma {:induction false} RemainingUpdate(rows: seq<Row>, i: nat, r: Row, max: nat)
    requires i < |rows|
    ensures TotalRemaining(rows[i := r], max)
            == TotalRemaining(rows, max) - Remaining(rows[i], max) + Remaining(r, max)
  {
    if i == 0 {
      assert rows[i := r][1..] == rows[1..];
    } else {
      assert rows[i := r][1..] == rows[1..][i - 1 := r];
      RemainingUpdate(rows[1..], i - 1, r, max);
    }
  }

  lemma {:induction false} RemainingAppend(rows: seq<Row>, r: Row, max: nat)
    ensures TotalRemaining(rows + [r], max) == TotalRemaining(rows, max) + Remaining(r, max)
  {
    if rows == [] {
      assert (rows + [r])[1..] == [];
    } else {
      assert (rows + [r])[1..] == rows[1..] + [r];
      RemainingAppend(rows[1..], r, max);
    }
  }

  lemma {:induction false} RemainingPointwise(a: seq<Row>, b: seq<Row>, max: nat)
    requires |a| == |b|
    requires forall i | 0 <= i < |a| :: Remaining(a[i], max) == Remaining(b[i], max)
    ensures TotalRemaining(a, max) == TotalRemaining(b, max)
  {
    if a != [] {
      RemainingPointwise(a[1..], b[1..], max);
    }
  }

  lemma {:induction false} CountBatch(claims: seq<Claim>, rows: seq<Row>, ids: seq<nat>, token: nat, id: nat)
    requires forall k | 0 <= k < |ids| :: ids[k] < |rows|
    requires Distinct(ids)
    ensures CountClaims(claims + ClaimsOf(rows, ids, token), id)
            == CountClaims(claims, id) + if id in ids then 1 else 0
    decreases |ids|
  {
    hide ClaimsOf;
    var all := claims + ClaimsOf(rows, ids, token);
    if ids == [] {
      assert all == claims;
    } else {
      var init := ids[..|ids| - 1];
      CountBatch(claims, rows, init, token, id);
      assert all[..|all| - 1] == claims + ClaimsOf(rows, init, token);
      assert ids == init + [ids[|ids| - 1]];
    }
  }

  lemma {:induction false} CountBounds(claims: seq<Claim>, id: nat)
    requires forall i | 0 <= i < |claims| :: claims[i].id != id
    ensures CountClaims(claims, id) == 0
  {
    if claims != [] {
      CountBounds(claims[..|claims| - 1], id);
    }
  }

  /** A mark takes effect exactly when its claim is the one the row answers to. */
  lemma EffectiveIsLease(db: Db, claims: seq<Claim>, c: Claim, max: nat)
    requires ClaimsOk(db.rows, db.freshToken, claims, max) && LeasesOk(db.rows, claims)
    requires c in claims
    ensures Effective(db, c)
            <==> c.id < |db.rows| && db.rows[c.id].leaseToken.Some? && c == LeaseClaim(c.id, db.rows[c.id])
  {
    if Effective(db, c) {
      var l := LeaseClaim(c.id, db.rows[c.id]);
      var i :| 0 <= i < |claims| && claims[i] == c;
      var j :| 0 <= j < |claims| && claims[j] == l;
      assert i == j;
    }
  }

  // ------------------------------------------------------------ table steps

  lemma InsertFacts(rows: seq<Row>, freshToken: nat, claims: seq<Claim>, marks: seq<Claim>, max: nat, r: Row)
    requires TableFacts(rows, freshToken, claims, marks, max)
    requires RowOk(r, max) && r.status == Pending && r.fencing == 0
    ensures TableFacts(rows + [r], freshToken, claims, marks, max)
  {
    forall i | 0 <= i < |claims| ensures ClaimFits(rows + [r], freshToken, claims[i], max) {
      assert ClaimFits(rows, freshToken, claims[i], max);
    }
    forall i | 0 <= i < |marks| ensures MarkFits(rows + [r], claims, marks[i]) {
      assert MarkFits(rows, claims, marks[i]);
    }
    CountBounds(claims, |rows|);
  }

  lemma TableInsert(rows: seq<Row>, freshToken: nat, claims: seq<Claim>, marks: seq<Claim>, resets: nat, max: nat,
                    r: Row)
    requires TableInv(rows, freshToken, claims, marks, resets, max)
    requires RowOk(r, max) && r.status == Pending && r.fencing == 0
    ensures TableInv(rows + [r], freshToken, claims, marks, resets, max)
  {
    hide TableFacts;
    InsertFacts(rows, freshToken, claims, marks, max, r);
    RemainingAppend(rows, r, max);
    assert max * (|rows| + 1 + resets) == max * (|rows| + resets) + max;
  }

  /** A row loses its lease but keeps its event and fencing number. */
  lemma UnleaseFacts(rows: seq<Row>, freshToken: nat, claims: seq<Claim>, marks: seq<Claim>, max: nat, id: nat, r: Row)
    requires TableFacts(rows, freshToken, claims, marks, max) && id < |rows|
    requires RowOk(r, max) && r.leaseToken.None?
    requires r.event == rows[id].event && r.fencing == rows[id].fencing
    ensures TableFacts(rows[id := r], freshToken, claims, marks, max)
  {
    forall i | 0 <= i < |claims| ensures ClaimFits(rows[id := r], freshToken, claims[i], max) {
      assert ClaimFits(rows, freshToken, claims[i], max);
    }
    forall i | 0 <= i < |marks| ensures MarkFits(rows[id := r], claims, marks[i]) {
      assert MarkFits(rows, claims, marks[i]);
    }
  }

  lemma TableReset(rows: seq<Row>, freshToken: nat, claims: seq<Claim>, marks: seq<Claim>, resets: nat, max: nat,
                   id: nat)
    requires TableInv(rows, freshToken, claims, marks, resets, max) && id < |rows|
    ensures TableInv(rows[id := PendingAgain(rows[id])], freshToken, claims, marks, resets + 1, max)
  {
    hide TableFacts;
    var r := PendingAgain(rows[id]);
    UnleaseFacts(rows, freshToken, claims, marks, max, id, r);
    RemainingUpdate(rows, id, r, max);
    assert max * (|rows| + resets + 1) == max * (|rows| + resets) + max;
  }

  /** A token-guarded mark of the row claimed by `c`. */
  lemma TableMark(db: Db, claims: seq<Claim>, marks: seq<Claim>, resets: nat, max: nat, c: Claim, r: Row)
    requires TableInv(db.rows, db.freshToken, claims, marks, resets, max) && c in claims && Effective(db, c)
    requires RowOk(r, max) && r.leaseToken.None?
    requires r.event == db.rows[c.id].event && r.fencing == db.rows[c.id].fencing
    requires Remaining(r, max) < Remaining(db.rows[c.id], max)
    ensures TableInv(db.rows[c.id := r], db.freshToken, claims, marks + [c], resets, max)
  {
    EffectiveIsLease(db, claims, c, max);
    UnleaseFacts(db.rows, db.freshToken, claims, marks, max, c.id, r);
    RemainingUpdate(db.rows, c.id, r, max);
    MarkAppend(db.rows, db.rows[c.id := r], claims, marks, c);
  }

  lemma MarkAppend(rows: seq<Row>, rows': seq<Row>, claims: seq<Claim>, marks: seq<Claim>, c: Claim)
    requires MarksOk(rows, claims, marks) && MarksOk(rows', claims, marks)
    requires c in claims && c.id < |rows| && rows[c.id].leaseToken.Some? && rows[c.id].fencing == c.fencing
    requires MarkFits(rows', claims, c)
    ensures MarksOk(rows', claims, marks + [c])
  {
    forall i | 0 <= i < |marks| && marks[i].id == c.id ensures marks[i].fencing < c.fencing {
      assert MarkFits(rows, claims, marks[i]);
    }
  }

  lemma TableClaim(db: Db, claims: seq<Claim>, marks: seq<Claim>, resets: nat, max: nat,
                   ids: seq<nat>, limit: nat, locked: set<nat>, expiresAt: nat)
    requires max > 0 && TableInv(db.rows, db.freshToken, claims, marks, resets, max)
    requires ids != [] && IsSelection(db, ids, limit, locked)
    ensures var db' := ClaimDb(db, ids, expiresAt);
            TableInv(db'.rows, db'.freshToken, claims + ClaimsOf(db.rows, ids, db.freshToken), marks, resets, max)
  {
    hide ClaimRows, ClaimsOf, IsDue, RowsOk, ClaimsOk, LeasesOk, FencingOk, MarksOk;
    ClaimRowsOk(db, claims, max, ids, expiresAt);
    ClaimClaimsOk(db, claims, max, ids, expiresAt);
    ClaimLeasesOk(db, claims, ids, expiresAt);
    ClaimMarksOk(db, claims, marks, ids, expiresAt);
  }

  lemma ClaimMarksOk(db: Db, claims: seq<Claim>, marks: seq<Claim>, ids: seq<nat>, expiresAt: nat)
    requires MarksOk(db.rows, claims, marks) && forall k | 0 <= k < |ids| :: ids[k] < |db.rows|
    ensures MarksOk(ClaimDb(db, ids, expiresAt).rows, claims + ClaimsOf(db.rows, ids, db.freshToken), marks)
  {
    var rows', all := ClaimDb(db, ids, expiresAt).rows, claims + ClaimsOf(db.rows, ids, db.freshToken);
    forall i | 0 <= i < |marks| ensures MarkFits(rows', all, marks[i]) {
      assert MarkFits(db.rows, claims, marks[i]);
    }
  }

  lemma ClaimRowsOk(db: Db, claims: seq<Claim>, max: nat, ids: seq<nat>, expiresAt: nat)
    requires max > 0 && RowsOk(db.rows, max) && FencingOk(db.rows, claims)
    requires ids != [] && Distinct(ids)
    requires forall k | 0 <= k < |ids| :: ids[k] < |db.rows| && IsDue(db.rows[ids[k]], db.now)
    ensures var db' := ClaimDb(db, ids, expiresAt);
            && RowsOk(db'.rows, max)
            && FencingOk(db'.rows, claims + ClaimsOf(db.rows, ids, db.freshToken))
            && TotalRemaining(db'.rows, max) == TotalRemaining(db.rows, max)
  {
    var db' := ClaimDb(db, ids, expiresAt);
    forall i | 0 <= i < |db.rows|
      ensures RowOk(db'.rows[i], max) && Remaining(db'.rows[i], max) == Remaining(db.rows[i], max)
    {
      assert RowOk(db.rows[i], max);
    }
    forall i | 0 <= i < |db.rows|
      ensures db'.rows[i].fencing == CountClaims(claims + ClaimsOf(db.rows, ids, db.freshToken), i)
    {
      CountBatch(claims, db.rows, ids, db.freshToken, i);
    }
    RemainingPointwise(db.rows, db'.rows, max);
  }

  lemma ClaimClaimsOk(db: Db, claims: seq<Claim>, max: nat, ids: seq<nat>, expiresAt: nat)
    requires max > 0 && RowsOk(db.rows, max) && ClaimsOk(db.rows, db.freshToken, claims, max)
    requires ids != [] && Distinct(ids)
    requires forall k | 0 <= k < |ids| :: ids[k] < |db.rows| && IsDue(db.rows[ids[k]], db.now)
    ensures var db' := ClaimDb(db, ids, expiresAt);
            ClaimsOk(db'.rows, db'.freshToken, claims + ClaimsOf(db.rows, ids, db.freshToken), max)
  {
    hide ClaimRows, ClaimsOf;
    var db', batch := ClaimDb(db, ids, expiresAt), ClaimsOf(db.rows, ids, db.freshToken);
    var all, n := claims + batch, |claims|;
    forall i | 0 <= i < n ensures ClaimFits(db'.rows, db'.freshToken, claims[i], max) {
      assert ClaimFits(db.rows, db.freshToken, claims[i], max);
    }
    forall k | 0 <= k < |ids| ensures ClaimFits(db'.rows, db'.freshToken, batch[k], max) {
      assert ids[k] in ids && RowOk(db.rows[ids[k]], max);
    }
    assert forall j | n <= j < |all| :: all[j] == batch[j - n] && all[j].id == ids[j - n];
    forall i, j | 0 <= i < j < |all| && all[i].id == all[j].id
      ensures all[i].fencing < all[j].fencing && all[i].token != all[j].token
    {
      if i < n {
        assert ClaimFits(db.rows, db.freshToken, claims[i], max);
      }
    }
  }

  lemma ClaimLeasesOk(db: Db, claims: seq<Claim>, ids: seq<nat>, expiresAt: nat)
    requires LeasesOk(db.rows, claims)
    requires ids != [] && forall k | 0 <= k < |ids| :: ids[k] < |db.rows|
    ensures LeasesOk(ClaimDb(db, ids, expiresAt).rows, claims + ClaimsOf(db.rows, ids, db.freshToken))
  {
    var db', batch := ClaimDb(db, ids, expiresAt), ClaimsOf(db.rows, ids, db.freshToken);
    forall id | 0 <= id < |db'.rows| && db'.rows[id].leaseToken.Some?
      ensures LeaseClaim(id, db'.rows[id]) in claims + batch
    {
      if id in ids {
        var k :| 0 <= k < |ids| && ids[k] == id;
        assert batch[k] == LeaseClaim(id, db'.rows[id]);
      }
    }
  }

  // ------------------------------------------------------------ worker steps

  /** Any change of one worker that leaves it without a reservation, or removes it. */
  lemma WorkersLeave(workers: map<nat, Worker>, workers': map<nat, Worker>, w: nat, claims: seq<Claim>,
                     ledger: map<Key, LedgerStatus>, handled: set<Key>)
    requires WorkersOk(workers, claims) && LedgerOk(workers, ledger, handled)
    requires workers' - {w} == workers - {w}
    requires w in workers' ==> !Owns(workers'[w]) && |workers'[w].batch| > 0
    requires w in workers' ==> forall k | 0 <= k < |workers'[w].batch| :: workers'[w].batch[k] in claims
    ensures WorkersOk(workers', claims) && LedgerOk(workers', ledger, handled)
  {
    forall v | v in workers' && v != w ensures v in workers && workers'[v] == workers[v] {
      assert v in workers' - {w};
      assert (workers' - {w})[v] == (workers - {w})[v];
    }
  }

  lemma KeepLeave(cfg: Config, s: System, s': System, w: nat, p: Phase)
    requires Inv(cfg, s) && (w in s.workers ==> |s.workers[w].batch| > 0)
    requires || s' == Drop(s, w)
             || (w in s.workers && s' == Advance(s, w))
             || (w in s.workers && p !in {Dispatching, Recording, Releasing} && s' == Goto(s, w, p))
    ensures Inv(cfg, s')
  {
    WorkersLeave(s.workers, s'.workers, w, s.claims, s.db.ledger, s.handled);
  }

  /** One worker moves to phase `p`, touching at most the ledger entry of its current key. */
  lemma LedgerMove(workers: map<nat, Worker>, w: nat, p: Phase, key: Key,
                   ledger: map<Key, LedgerStatus>, ledger': map<Key, LedgerStatus>,
                   handled: set<Key>, handled': set<Key>)
    requires LedgerOk(workers, ledger, handled)
    requires w in workers && |workers[w].batch| > 0 && key == workers[w].batch[0].Key()
    requires ledger' - {key} == ledger - {key} && handled <= handled'
    requires OwnerFits(workers[w].(phase := p), ledger', handled')
    requires key in ledger' && ledger'[key] == Recorded ==> key in handled'
    requires Owns(workers[w]) || key !in ledger
    ensures LedgerOk(workers[w := workers[w].(phase := p)], ledger', handled')
  {
    hide HandlerKey;
    var workers' := workers[w := workers[w].(phase := p)];
    forall k | k != key
      ensures k in ledger' <==> k in ledger
      ensures k in ledger ==> ledger'[k] == ledger[k]
    {
      assert k in ledger' <==> k in ledger' - {key};
      assert k in ledger <==> k in ledger - {key};
    }
    forall v | v in workers && v != w && Owns(workers[v])
      ensures workers[v].batch[0].Key() != key && OwnerFits(workers[v], ledger', handled')
    {
      assert OwnerFits(workers[v], ledger, handled);
    }
  }

  lemma OwnerFitsAt(s: System, w: nat)
    requires LedgerOk(s.workers, s.db.ledger, s.handled) && w in s.workers
    ensures OwnerFits(s.workers[w], s.db.ledger, s.handled)
    ensures forall key | key in s.db.ledger && s.db.ledger[key] == Recorded :: key in s.handled
  {
  }

  lemma WorkersGoto(workers: map<nat, Worker>, w: nat, p: Phase, claims: seq<Claim>)
    requires WorkersOk(workers, claims) && w in workers
    ensures WorkersOk(workers[w := workers[w].(phase := p)], claims)
  {
  }

  lemma KeepReserve(cfg: Config, s: System, w: nat, outcome: Outcome)
    requires Inv(cfg, s)
    ensures Inv(cfg, StepReserve(s, w, outcome))
  {
    hide HandlerKey, TableInv, LedgerOk, WorkersOk;
    if At(s, w, Reserving) {
      var s', key := StepReserve(s, w, outcome), Current(s, w).Key();
      OwnerFitsAt(s, w);
      if key in s.db.ledger {
        KeepLeave(cfg, s, s', w, s'.workers[w].phase);
      } else {
        LedgerMove(s.workers, w, s'.workers[w].phase, key, s.db.ledger, s'.db.ledger, s.handled, s'.handled);
        WorkersGoto(s.workers, w, s'.workers[w].phase, s.claims);
      }
    }
  }

  /** The step of a worker that has a reservation. */
  function OwnerStep(s: System, w: nat, outcome: Outcome, handlerOk: bool): System
    requires w in s.workers && |s.workers[w].batch| > 0
  {
    match s.workers[w].phase
    case Dispatching => StepEndDispatch(s, w, handlerOk)
    case Recording => StepRecord(s, w, outcome)
    case _ => StepRelease(s, w, outcome)
  }

  lemma KeepOwnerStep(cfg: Config, s: System, w: nat, outcome: Outcome, handlerOk: bool)
    requires Inv(cfg, s) && w in s.workers && Owns(s.workers[w])
    ensures Inv(cfg, OwnerStep(s, w, outcome, handlerOk))
  {
    hide HandlerKey, TableInv, LedgerOk, WorkersOk;
    var s' := OwnerStep(s, w, outcome, handlerOk);
    var key := Current(s, w).Key();
    OwnerFitsAt(s, w);
    assert s'.db.ledger - {key} == s.db.ledger - {key};
    LedgerMove(s.workers, w, s'.workers[w].phase, key, s.db.ledger, s'.db.ledger, s.handled, s'.handled);
    WorkersGoto(s.workers, w, s'.workers[w].phase, s.claims);
  }

  lemma BatchInClaims(workers: map<nat, Worker>, claims: seq<Claim>, batch: seq<Claim>)
    requires WorkersOk(workers, claims)
    ensures WorkersOk(workers, claims + batch)
    ensures forall k | 0 <= k < |batch| :: batch[k] in claims + batch
  {
  }

  lemma KeepClaim(cfg: Config, s: System, w: nat, ids: seq<nat>, limit: nat, locked: set<nat>, localNow: nat)
    requires Inv(cfg, s)
    ensures Inv(cfg, StepClaim(cfg, s, w, ids, limit, locked, localNow))
  {
    hide HandlerKey, TableInv, LedgerOk, ClaimRows, ClaimsOf, IsSelection;
    if CanClaim(s, w, ids, limit, locked) {
      var s' := StepClaim(cfg, s, w, ids, limit, locked, localNow);
      TableClaim(s.db, s.claims, s.marks, s.resets, cfg.maxAttempts, ids, limit, locked, localNow + cfg.leaseMs);
      BatchInClaims(s.workers, s.claims, s'.workers[w].batch);
      WorkersLeave(s.workers, s'.workers, w, s'.claims, s.db.ledger, s.handled);
    }
  }

  lemma EffectiveRow(cfg: Config, s: System, c: Claim)
    requires Inv(cfg, s) && c in s.claims && Effective(s.db, c)
    ensures c == LeaseClaim(c.id, s.db.rows[c.id]) && RowOk(s.db.rows[c.id], cfg.maxAttempts)
  {
    EffectiveIsLease(s.db, s.claims, c, cfg.maxAttempts);
  }

  /** Marking leaves the ledger alone, so only the table part is at stake. */
  lemma MarkDoneTable(cfg: Config, s: System, c: Claim)
    requires Inv(cfg, s) && c in s.claims
    ensures Inv(cfg, LogMark(s, c).(db := MarkProcessedDb(s.db, c.id, Some(c.token))))
  {
    hide HandlerKey, LedgerOk, WorkersOk, TableInv;
    if Effective(s.db, c) {
      EffectiveRow(cfg, s, c);
      TableMark(s.db, s.claims, s.marks, s.resets, cfg.maxAttempts, c, ProcessedRow(s.db.rows[c.id], s.db.now));
    }
  }

  lemma MarkFailTable(cfg: Config, s: System, c: Claim, localNow: nat, jitter: nat)
    requires Inv(cfg, s) && c in s.claims
    ensures Inv(cfg, LogMark(s, c).(db := FailDb(cfg, s.db, c, localNow, jitter)))
  {
    hide HandlerKey, LedgerOk, WorkersOk, TableInv, Jittered;
    if Effective(s.db, c) {
      EffectiveRow(cfg, s, c);
      var row, attempts := s.db.rows[c.id], c.attempts + 1;
      if attempts >= cfg.maxAttempts {
        TableMark(s.db, s.claims, s.marks, s.resets, cfg.maxAttempts, c, DeadLetterRow(row, attempts));
      } else {
        var retryAt := localNow + Jittered(cfg.baseMs, attempts, cfg.capMs, jitter);
        TableMark(s.db, s.claims, s.marks, s.resets, cfg.maxAttempts, c, FailedRow(row, attempts, Some(retryAt)));
      }
    }
  }

  lemma KeepMarkDone(cfg: Config, s: System, w: nat, outcome: Outcome)
    requires Inv(cfg, s)
    ensures Inv(cfg, StepMarkDone(s, w, outcome))
  {
    if At(s, w, MarkingDone) {
      var c, s1 := Current(s, w), s;
      if outcome.Applied() {
        MarkDoneTable(cfg, s, c);
        s1 := LogMark(s, c).(db := MarkProcessedDb(s.db, c.id, Some(c.token)));
      }
      KeepLeave(cfg, s1, StepMarkDone(s, w, outcome), w, MarkingFailed);
    }
  }

  lemma KeepMarkFail(cfg: Config, s: System, w: nat, outcome: Outcome, localNow: nat, jitter: nat)
    requires Inv(cfg, s)
    ensures Inv(cfg, StepMarkFail(cfg, s, w, outcome, localNow, jitter))
  {
    if At(s, w, MarkingFailed) {
      var c, s1 := Current(s, w), s;
      if outcome.Applied() {
        MarkFailTable(cfg, s, c, localNow, jitter);
        s1 := LogMark(s, c).(db := FailDb(cfg, s.db, c, localNow, jitter));
      }
      KeepLeave(cfg, s1, StepMarkFail(cfg, s, w, outcome, localNow, jitter), w, MarkingFailed);
    }
  }

  lemma KeepStep(cfg: Config, s: System, a: Action)
    requires Inv(cfg, s)
    ensures Inv(cfg, Apply(cfg, s, a))
  {
    hide HandlerKey, TableInv, LedgerOk;
    var max := cfg.maxAttempts;
    match a
    case Tick(ms) =>
    case Insert(e) =>
      TableInsert(s.db.rows, s.db.freshToken, s.claims, s.marks, s.resets, max,
                  Row(e, Pending, 0, None, None, None, None, 0, s.db.now));
    case ClaimBatch(w, ids, limit, locked, localNow) => KeepClaim(cfg, s, w, ids, limit, locked, localNow);
    case Reserve(w, outcome) => KeepReserve(cfg, s, w, outcome);
    case Inspect(w, outcome) =>
      if At(s, w, Inspecting) {
        KeepLeave(cfg, s, StepInspect(s, w, outcome), w, if outcome == Done then MarkingDone else MarkingFailed);
      }
    case EndDispatch(w, handlerOk) => if At(s, w, Dispatching) { KeepOwnerStep(cfg, s, w, Done, handlerOk); }
    case Record(w, outcome) => if At(s, w, Recording) { KeepOwnerStep(cfg, s, w, outcome, true); }
    case Release(w, outcome) => if At(s, w, Releasing) { KeepOwnerStep(cfg, s, w, outcome, true); }
    case MarkDone(w, outcome) => KeepMarkDone(cfg, s, w, outcome);
    case MarkFail(w, outcome, localNow, jitter) => KeepMarkFail(cfg, s, w, outcome, localNow, jitter);
    case Crash(w) => KeepLeave(cfg, s, Drop(s, w), w, MarkingFailed);
    case ManualRetry(id) =>
      if id < |s.db.rows| {
        TableReset(s.db.rows, s.db.freshToken, s.claims, s.marks, s.resets, max, id);
      }
    case ManualRequeue(id) =>
      if id < |s.db.rows| {
        TableReset(s.db.rows, s.db.freshToken, s.claims, s.marks, s.resets, max, id);
      }
  }

  /** The invariant holds after every run. */
  lemma {:induction false} KeepRun(cfg: Config, s: System, run: seq<Action>)
    requires Inv(cfg, s)
    ensures Inv(cfg, Exec(cfg, s, run))
    decreases |run|
  {
    if run != [] {
      KeepStep(cfg, s, run[0]);
      KeepRun(cfg, Apply(cfg, s, run[0]), run[1..]);
    }
  }

  lemma ReachableInv(cfg: Config, run: seq<Action>)
    ensures Inv(cfg, Exec(cfg, Init(), run))
  {
    KeepRun(cfg, Init(), run);
  }
}
