/** The tables `outbox_events` and `processed_events` and the statements that write them. */
module OutboxTable {
  import opened Common
  import opened Decimal
  import Selection

  datatype Status = Pending | Processing | Processed | Failed | DeadLetter

  datatype LedgerStatus = Reserved | Recorded

  /** What an event says beyond its type and aggregate. */
  datatype Payload = StatusChange(from: string, to: string, version: nat) | Details(json: string)

  /** The business fact an outbox row carries. */
  datatype Business = Business(eventType: string, aggregateType: string, aggregateId: nat, payload: Payload)

  type Key = string

  /** A row's id is its position in the table: ids are auto-increment and rows are never deleted. */
  datatype Row = Row(
    event: Business,
    status: Status,
    attempts: nat,
    nextRetryAt: Option<nat>,
    processedAt: Option<nat>,
    leaseToken: Option<nat>,
    leaseExpiresAt: Option<nat>,
    fencing: nat,
    createdAt: nat)

  /** What a worker remembers of one claimed row. */
  datatype Claim = Claim(token: nat, id: nat, event: Business, attempts: nat, fencing: nat) {
    function Key(): Key { HandlerKey(event) }
  }

  /** `freshToken` stands for the next UUID; `now` is the database clock. */
  datatype Db = Db(rows: seq<Row>, ledger: map<Key, LedgerStatus>, freshToken: nat, now: nat)

  function EmptyDb(): Db { Db([], map[], 0, 0) }

  /** Idempotency key of the handler: type and aggregate of the event, neither its row nor its payload. */
  function HandlerKey(e: Business): Key {
    e.eventType + ":" + e.aggregateType + ":" + ToDec(e.aggregateId)
  }

  predicate ColonFree(s: string) { forall i | 0 <= i < |s| :: s[i] != ':' }

  /** Splitting at the first colon is unambiguous. */
  lemma ColonSplit(a: string, x: string, b: string, y: string)
    requires ColonFree(a) && ColonFree(b)
    requires a + ":" + x == b + ":" + y
    ensures a == b && x == y
  {
    var s, t := a + ":" + x, b + ":" + y;
    assert |a| == |b| by {
      assert s[|a|] == ':' && t[|b|] == ':';
      assert forall i | 0 <= i < |a| :: s[i] == a[i];
      assert forall i | 0 <= i < |b| :: t[i] == b[i];
    }
    assert a == s[..|a|] == t[..|b|] == b;
    assert x == s[|a| + 1..] == t[|b| + 1..] == y;
  }

  /** Two events share a ledger key exactly when type and aggregate agree, as long as type names hold no
      colon; what else they say makes no difference. */
  lemma KeysCollide(e: Business, f: Business)
    requires ColonFree(e.eventType) && ColonFree(e.aggregateType)
    requires ColonFree(f.eventType) && ColonFree(f.aggregateType)
    ensures HandlerKey(e) == HandlerKey(f) <==>
            e.eventType == f.eventType && e.aggregateType == f.aggregateType && e.aggregateId == f.aggregateId
  {
    if HandlerKey(e) == HandlerKey(f) {
      var x := e.aggregateType + ":" + ToDec(e.aggregateId);
      var y := f.aggregateType + ":" + ToDec(f.aggregateId);
      assert HandlerKey(e) == e.eventType + ":" + x;
      assert HandlerKey(f) == f.eventType + ":" + y;
      ColonSplit(e.eventType, x, f.eventType, y);
      ColonSplit(e.aggregateType, ToDec(e.aggregateId), f.aggregateType, ToDec(f.aggregateId));
      DecInjective(e.aggregateId, f.aggregateId);
    }
  }

  // ---------------------------------------------------------------- claiming

  predicate IsDue(r: Row, now: nat) {
    || (r.status == Pending && (r.nextRetryAt.None? || r.nextRetryAt.value <= now))
    || (r.status == Failed && r.nextRetryAt.Some? && r.nextRetryAt.value <= now)
    || (r.status == Processing && r.leaseExpiresAt.Some? && r.leaseExpiresAt.value <= now)
  }

  predicate Selectable(db: Db, id: nat, locked: set<nat>) {
    id < |db.rows| && IsDue(db.rows[id], db.now) && id !in locked
  }

  /** Which id lists `ORDER BY created_at LIMIT ? FOR UPDATE SKIP LOCKED` may return. */
  ghost predicate IsSelection(db: Db, ids: seq<nat>, limit: nat, locked: set<nat>) {
    && |ids| <= limit
    && Distinct(ids)
    && (forall k | 0 <= k < |ids| :: Selectable(db, ids[k], locked))
    && (forall j, k | 0 <= j < k < |ids| ::
          db.rows[ids[j]].createdAt <= db.rows[ids[k]].createdAt)
    && (forall id: nat | Selectable(db, id, locked) && id !in ids ::
          |ids| == limit
          && forall k | 0 <= k < |ids| :: db.rows[ids[k]].createdAt <= db.rows[id].createdAt)
  }

  function ClaimRow(r: Row, token: nat, expiresAt: nat): Row {
    r.(status := Processing, leaseToken := Some(token), leaseExpiresAt := Some(expiresAt),
    fencing := r.fencing + 1)
  }

  function ClaimRows(rows: seq<Row>, ids: seq<nat>, token: nat, expiresAt: nat): (out: seq<Row>)
    ensures |out| == |rows|
    ensures forall i | 0 <= i < |rows| ::
              out[i] == if i in ids then ClaimRow(rows[i], token, expiresAt) else rows[i]
  {
    seq(|rows|, i requires 0 <= i < |rows| =>
      if i in ids then ClaimRow(rows[i], token, expiresAt) else rows[i])
  }

  function ClaimsOf(rows: seq<Row>, ids: seq<nat>, token: nat): (out: seq<Claim>)
    requires forall k | 0 <= k < |ids| :: ids[k] < |rows|
    ensures |out| == |ids|
    ensures forall k | 0 <= k < |ids| :: out[k] == ClaimOf(rows, ids[k], token)
  {
    seq(|ids|, k requires 0 <= k < |ids| => ClaimOf(rows, ids[k], token))
  }

  function ClaimOf(rows: seq<Row>, id: nat, token: nat): Claim
    requires id < |rows|
  {
    Claim(token, id, rows[id].event, rows[id].attempts, rows[id].fencing + 1)
  }

  /** The claim transaction after it selected `ids`. */
  function ClaimDb(db: Db, ids: seq<nat>, expiresAt: nat): Db {
    if ids == [] then db
    else db.(rows := ClaimRows(db.rows, ids, db.freshToken, expiresAt), freshToken := db.freshToken + 1)
  }

  // ---------------------------------------------------------------- marking

  /** `? IS NULL OR lease_token = ?` */
  predicate TokenMatches(r: Row, token: Option<nat>) {
    token.None? || r.leaseToken == token
  }

  function ProcessedRow(r: Row, now: nat): Row {
    r.(status := Processed, processedAt := Some(now), nextRetryAt := None,
    leaseToken := None, leaseExpiresAt := None)
  }

  function FailedRow(r: Row, attempts: nat, retryAt: Option<nat>): Row {
    r.(status := Failed, attempts := attempts, nextRetryAt := retryAt, processedAt := None,
    leaseToken := None, leaseExpiresAt := None)
  }

  function DeadLetterRow(r: Row, attempts: nat): Row {
    r.(status := DeadLetter, attempts := attempts, nextRetryAt := None, processedAt := None,
    leaseToken := None, leaseExpiresAt := None)
  }

  function PendingAgain(r: Row): Row {
    r.(status := Pending, attempts := 0, nextRetryAt := None, processedAt := None,
    leaseToken := None, leaseExpiresAt := None)
  }

  function MarkProcessedDb(db: Db, id: nat, token: Option<nat>): Db {
    if id < |db.rows| && TokenMatches(db.rows[id], token)
    then db.(rows := db.rows[id := ProcessedRow(db.rows[id], db.now)])
    else db
  }

  function MarkFailedDb(db: Db, id: nat, attempts: nat, retryAt: Option<nat>, token: Option<nat>): Db {
    if id < |db.rows| && TokenMatches(db.rows[id], token)
    then db.(rows := db.rows[id := FailedRow(db.rows[id], attempts, retryAt)])
    else db
  }

  function MarkDeadLetterDb(db: Db, id: nat, attempts: nat, token: Option<nat>): Db {
    if id < |db.rows| && TokenMatches(db.rows[id], token)
    then db.(rows := db.rows[id := DeadLetterRow(db.rows[id], attempts)])
    else db
  }

  function RetryDb(db: Db, id: nat): Db {
    if id < |db.rows| then db.(rows := db.rows[id := PendingAgain(db.rows[id])]) else db
  }

  function RequeueDb(db: Db, id: nat): Db {
    if id < |db.rows| && db.rows[id].status == DeadLetter
    then db.(rows := db.rows[id := PendingAgain(db.rows[id])])
    else db
  }

  // ---------------------------------------------------------------- ledger

  function ReserveDb(db: Db, key: Key): Db {
    if key in db.ledger then db else db.(ledger := db.ledger[key := Reserved])
  }

  function RecordDb(db: Db, key: Key): Db {
    if key in db.ledger then db.(ledger := db.ledger[key := Recorded]) else db
  }

  function ReleaseDb(db: Db, key: Key): Db {
    if key in db.ledger && db.ledger[key] == Reserved then db.(ledger := db.ledger - {key}) else db
  }

  datatype Reservation = GotIt | AlreadyProcessed | AlreadyProcessing

  // ---------------------------------------------------------------- the repository

  /** The repository: each method is one statement or one transaction on the tables. */
  class OutboxRepository {
    var rows: seq<Row>
    var ledger: map<Key, LedgerStatus>
    var freshToken: nat
    var now: nat

    constructor ()
      ensures Contents() == EmptyDb()
    {
      rows, ledger, freshToken, now := [], map[], 0, 0;
    }

    ghost function Contents(): Db
      reads this
    {
      Db(rows, ledger, freshToken, now)
    }

    /** `selectDueEventsForUpdate`: oldest due rows first, skipping locked ones. */
    method SelectDueEventsForUpdate(limit: nat, locked: set<nat>) returns (ids: seq<nat>)
      ensures IsSelection(Contents(), ids, limit, locked)
      ensures |ids| <= limit && Distinct(ids)
      ensures forall k | 0 <= k < |ids| ::
                && ids[k] < |rows| && ids[k] !in locked
                && var r := rows[ids[k]];
                   match r.status {
                     case Pending => r.nextRetryAt.None? || r.nextRetryAt.value <= now
                     case Failed => r.nextRetryAt.Some? && r.nextRetryAt.value <= now
                     case Processing => r.leaseExpiresAt.Some? && r.leaseExpiresAt.value <= now
                     case _ => false
                   }
      ensures |ids| < limit ==> forall i: nat | i < |rows| && i !in locked && i !in ids ::
                var r := rows[i];
                match r.status {
                  case Pending => r.nextRetryAt.Some? && r.nextRetryAt.value > now
                  case Failed => r.nextRetryAt.None? || r.nextRetryAt.value > now
                  case Processing => r.leaseExpiresAt.None? || r.leaseExpiresAt.value > now
                  case _ => true
                }
    {
      var ready := set id | 0 <= id < |rows| && IsDue(rows[id], now) && id !in locked;
      var createdAt := seq(|rows|, i requires 0 <= i < |rows| reads this => rows[i].createdAt);
      ids := Selection.OldestFirst(createdAt, ready, limit);
    }

    /** `claimDueEvents`: select and lease in one transaction; the records carry the new token
        and the incremented fencing number. */
    method ClaimDueEvents(limit: nat, locked: set<nat>, localNow: nat, leaseMs: nat)
      returns (ids: seq<nat>, claims: seq<Claim>)
      modifies this
      ensures IsSelection(old(Contents()), ids, limit, locked)
      ensures Contents() == ClaimDb(old(Contents()), ids, localNow + leaseMs)
      ensures claims == ClaimsOf(old(rows), ids, old(freshToken))
      ensures |rows| == |old(rows)| && ledger == old(ledger) && now == old(now)
      ensures forall i | 0 <= i < |rows| ::
                var r := old(rows)[i];
                rows[i] == if i !in ids then r
                           else Row(r.event, Processing, r.attempts, r.nextRetryAt, r.processedAt,
                                    Some(old(freshToken)), Some(localNow + leaseMs), r.fencing + 1, r.createdAt)
      ensures |claims| == |ids|
      ensures forall k | 0 <= k < |ids| ::
                && ids[k] < |rows|
                && claims[k] == Claim(old(freshToken), ids[k], rows[ids[k]].event, rows[ids[k]].attempts,
                                      rows[ids[k]].fencing)
      ensures ids != [] ==> freshToken > old(freshToken)
    {
      ids := SelectDueEventsForUpdate(limit, locked);
      claims := ClaimsOf(rows, ids, freshToken);
      if ids == [] {
        return;
      }
      rows := ClaimRows(rows, ids, freshToken, localNow + leaseMs);
      freshToken := freshToken + 1;
    }

    method MarkProcessed(id: nat, token: Option<nat>)
      modifies this
      ensures Contents() == MarkProcessedDb(old(Contents()), id, token)
      ensures |rows| == |old(rows)| && ledger == old(ledger) && freshToken == old(freshToken) && now == old(now)
      ensures forall i | 0 <= i < |rows| ::
                var r := old(rows)[i];
                rows[i] == if i != id || (token.Some? && r.leaseToken != token) then r
                           else Row(r.event, Processed, r.attempts, None, Some(now), None, None, r.fencing, r.createdAt)
    {
      if id < |rows| && TokenMatches(rows[id], token) {
        rows := rows[id := ProcessedRow(rows[id], now)];
      }
    }

    method MarkFailed(id: nat, attempts: nat, retryAt: Option<nat>, token: Option<nat>)
      modifies this
      ensures Contents() == MarkFailedDb(old(Contents()), id, attempts, retryAt, token)
      ensures |rows| == |old(rows)| && ledger == old(ledger) && freshToken == old(freshToken) && now == old(now)
      ensures forall i | 0 <= i < |rows| ::
                var r := old(rows)[i];
                rows[i] == if i != id || (token.Some? && r.leaseToken != token) then r
                           else Row(r.event, Failed, attempts, retryAt, None, None, None, r.fencing, r.createdAt)
    {
      if id < |rows| && TokenMatches(rows[id], token) {
        rows := rows[id := FailedRow(rows[id], attempts, retryAt)];
      }
    }

    method MarkDeadLetter(id: nat, attempts: nat, token: Option<nat>)
      modifies this
      ensures Contents() == MarkDeadLetterDb(old(Contents()), id, attempts, token)
      ensures |rows| == |old(rows)| && ledger == old(ledger) && freshToken == old(freshToken) && now == old(now)
      ensures forall i | 0 <= i < |rows| ::
                var r := old(rows)[i];
                rows[i] == if i != id || (token.Some? && r.leaseToken != token) then r
                           else Row(r.event, DeadLetter, attempts, None, None, None, None, r.fencing, r.createdAt)
    {
      if id < |rows| && TokenMatches(rows[id], token) {
        rows := rows[id := DeadLetterRow(rows[id], attempts)];
      }
    }

    method Retry(id: nat) returns (found: bool)
      modifies this
      ensures found <==> id < |old(rows)|
      ensures Contents() == RetryDb(old(Contents()), id)
      ensures |rows| == |old(rows)| && ledger == old(ledger) && freshToken == old(freshToken) && now == old(now)
      ensures forall i | 0 <= i < |rows| ::
                var r := old(rows)[i];
                rows[i] == if i != id then r
                           else Row(r.event, Pending, 0, None, None, None, None, r.fencing, r.createdAt)
    {
      found := id < |rows|;
      if found {
        rows := rows[id := PendingAgain(rows[id])];
      }
    }

    method RequeueDeadLetter(id: nat) returns (found: bool)
      modifies this
      ensures found <==> id < |old(rows)| && old(rows)[id].status == DeadLetter
      ensures Contents() == RequeueDb(old(Contents()), id)
      ensures |rows| == |old(rows)| && ledger == old(ledger) && freshToken == old(freshToken) && now == old(now)
      ensures forall i | 0 <= i < |rows| ::
                var r := old(rows)[i];
                rows[i] == if i != id || r.status != DeadLetter then r
                           else Row(r.event, Pending, 0, None, None, None, None, r.fencing, r.createdAt)
    {
      found := id < |rows| && rows[id].status == DeadLetter;
      if found {
        rows := rows[id := PendingAgain(rows[id])];
      }
    }

    /** `INSERT IGNORE`, then a look at the existing entry when the insert was ignored. */
    method ReserveProcessedEvent(key: Key) returns (result: Reservation)
      modifies this
      ensures Contents() == ReserveDb(old(Contents()), key)
      ensures result == GotIt <==> key !in old(ledger)
      ensures result == AlreadyProcessed <==> key in old(ledger) && old(ledger)[key] == Recorded
      ensures rows == old(rows) && freshToken == old(freshToken) && now == old(now)
      ensures ledger == if key in old(ledger) then old(ledger) else old(ledger)[key := Reserved]
    {
      if key !in ledger {
        ledger := ledger[key := Reserved];
        return GotIt;
      }
      result := if ledger[key] == Recorded then AlreadyProcessed else AlreadyProcessing;
    }

    method MarkProcessedEvent(key: Key)
      modifies this
      ensures Contents() == RecordDb(old(Contents()), key)
      ensures rows == old(rows) && freshToken == old(freshToken) && now == old(now)
      ensures ledger == if key in old(ledger) then old(ledger)[key := Recorded] else old(ledger)
    {
      if key in ledger {
        ledger := ledger[key := Recorded];
      }
    }

    method ReleaseProcessedEventReservation(key: Key)
      modifies this
      ensures Contents() == ReleaseDb(old(Contents()), key)
      ensures rows == old(rows) && freshToken == old(freshToken) && now == old(now)
      ensures ledger == if key in old(ledger) && old(ledger)[key] == Reserved then old(ledger) - {key} else old(ledger)
    {
      if key in ledger && ledger[key] == Reserved {
        ledger := ledger - {key};
      }
    }
  }
}
