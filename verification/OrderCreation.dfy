/** Creating orders with an Idempotency-Key: concurrent transactions statement by statement, with
    deadlocks, errors and lost commit acknowledgements anywhere. */
module OrderCreation {
  import opened Common

  /** The request body; its SHA-256 hash is taken to identify it. */
  datatype Body = Body(userId: int, mapId: int, totalAmount: int)

  datatype Request = Request(key: Option<string>, body: Body) {
    /** An empty header counts as none. */
    predicate Keyed() { key.Some? && key.value != "" }
  }

  datatype Response = Response(orderId: nat, body: Body)

  /** `stored` is the response of a completed row; without it the row is `processing`. */
  datatype KeyRow = KeyRow(body: Body, stored: Option<Response>)

  /** `origin` is history: the key under which the order was created. */
  datatype OrderRow = OrderRow(body: Body, origin: Option<string>)

  datatype Reply = Success(response: Response) | Conflict | InProgress | Failed

  datatype Phase =
    | Beginning
    | InsertingKey
    | LookingUpKey
    | InsertingOrder
    | AppendingEvent
    | ReadingBack
    | CompletingKey
    | Committing
    | CommittingReplay(response: Response)

  /** A running request: its attempt number, the next statement, and what its transaction wrote. */
  datatype Tx = Tx(request: Request, attempt: nat, phase: Phase, keyRow: Option<KeyRow>,
                   orderId: Option<nat>, event: bool)

  /** Committed tables, running requests and the replies given. `nextId` is the auto-increment
      counter, which a rollback does not restore. */
  datatype System = System(keys: map<string, KeyRow>, orders: map<nat, OrderRow>, events: seq<nat>, nextId: nat,
                           active: map<nat, Tx>, replies: map<nat, (Request, Reply)>)

  const MAX_ATTEMPTS: nat := 3

  function Init(): System { System(map[], map[], [], 0, map[], map[]) }

  function Fresh(request: Request, attempt: nat): Tx { Tx(request, attempt, Beginning, None, None, false) }

  datatype Action =
    | Arrive(r: nat, request: Request)
    | Step(r: nat)
    | Deadlock(r: nat)
    | Error(r: nat)
    | CommitUnacknowledged(r: nat)
    | Vanish(r: nat)

  function With(s: System, r: nat, tx: Tx): System { s.(active := s.active[r := tx]) }

  function Answer(s: System, r: nat, reply: Reply): System
    requires r in s.active
  {
    s.(active := s.active - {r}, replies := s.replies[r := (s.active[r].request, reply)])
  }

  /** Another transaction has inserted this key and not finished: INSERT IGNORE waits. */
  ghost predicate KeyLocked(s: System, r: nat, key: string) {
    exists q :: q in s.active && q != r && s.active[q].keyRow.Some? && s.active[q].request.key == Some(key)
  }

  function OriginOf(q: Request): Option<string> { if q.Keyed() then q.key else None }

  /** COMMIT makes the transaction's writes visible at once. */
  function Publish(s: System, tx: Tx): System {
    s.(keys := if tx.keyRow.Some? && tx.request.key.Some? then s.keys[tx.request.key.value := tx.keyRow.value]
               else s.keys,
    orders := if tx.orderId.Some? then s.orders[tx.orderId.value := OrderRow(tx.request.body, OriginOf(tx.request))]
              else s.orders,
    events := if tx.event && tx.orderId.Some? then s.events + [tx.orderId.value] else s.events)
  }

  function ResponseOf(tx: Tx): Response
    requires tx.orderId.Some?
  {
    Response(tx.orderId.value, tx.request.body)
  }

  /** The next statement of request `r` succeeds. */
  ghost function StepTx(s: System, r: nat): System {
    if r !in s.active then s
    else
      var tx := s.active[r];
      match tx.phase
      case Beginning => With(s, r, tx.(phase := if tx.request.Keyed() then InsertingKey else InsertingOrder))
      case InsertingKey =>
        if !tx.request.Keyed() || KeyLocked(s, r, tx.request.key.value) then s
        else if tx.request.key.value in s.keys then With(s, r, tx.(phase := LookingUpKey))
        else With(s, r, tx.(phase := InsertingOrder, keyRow := Some(KeyRow(tx.request.body, None))))
      case LookingUpKey =>
        if !tx.request.Keyed() || tx.request.key.value !in s.keys then Answer(s, r, Conflict)
        else
          var row := s.keys[tx.request.key.value];
          if row.body != tx.request.body then Answer(s, r, Conflict)
          else if row.stored.None? then Answer(s, r, InProgress)
          else With(s, r, tx.(phase := CommittingReplay(row.stored.value)))
      case InsertingOrder =>
        With(s, r, tx.(phase := AppendingEvent, orderId := Some(s.nextId))).(nextId := s.nextId + 1)
      case AppendingEvent => With(s, r, tx.(phase := ReadingBack, event := true))
      case ReadingBack => With(s, r, tx.(phase := if tx.request.Keyed() then CompletingKey else Committing))
      case CompletingKey =>
        if tx.orderId.None? then s
        else With(s, r, tx.(phase := Committing, keyRow := Some(KeyRow(tx.request.body, Some(ResponseOf(tx))))))
      case Committing => if tx.orderId.None? then s else Answer(Publish(s, tx), r, Success(ResponseOf(tx)))
      case CommittingReplay(response) => Answer(s, r, Success(response))
  }

  /** A deadlock rolls the transaction back; the request tries again at most twice. */
  function StepDeadlock(s: System, r: nat): System {
    if r !in s.active then s
    else if s.active[r].attempt < MAX_ATTEMPTS
    then With(s, r, Fresh(s.active[r].request, s.active[r].attempt + 1))
    else Answer(s, r, Failed)
  }

  function StepUnacknowledged(s: System, r: nat): System {
    if r in s.active && s.active[r].phase == Committing && s.active[r].orderId.Some?
    then Answer(Publish(s, s.active[r]), r, Failed)
    else s
  }

  ghost function Apply(s: System, a: Action): System {
    match a
    case Arrive(r, request) => if r in s.active || r in s.replies then s else With(s, r, Fresh(request, 1))
    case Step(r) => StepTx(s, r)
    case Deadlock(r) => StepDeadlock(s, r)
    case Error(r) => if r in s.active then Answer(s, r, Failed) else s
    case CommitUnacknowledged(r) => StepUnacknowledged(s, r)
    case Vanish(r) => s.(active := s.active - {r})
  }

  ghost function Exec(s: System, run: seq<Action>): System
    decreases |run|
  {
    if run == [] then s else Exec(Apply(s, run[0]), run[1..])
  }

  // ------------------------------------------------------------ the invariant

  ghost predicate KeyOk(k: string, row: KeyRow, orders: map<nat, OrderRow>) {
    && k != ""
    && row.stored.Some? && row.stored.value.body == row.body
    && row.stored.value.orderId in orders
    && orders[row.stored.value.orderId] == OrderRow(row.body, Some(k))
  }

  ghost predicate OrderOk(id: nat, o: OrderRow, keys: map<string, KeyRow>) {
    o.origin.Some? ==>
      o.origin.value in keys && keys[o.origin.value].stored == Some(Response(id, o.body))
  }

  ghost predicate TablesOk(keys: map<string, KeyRow>, orders: map<nat, OrderRow>) {
    && (forall k | k in keys :: KeyOk(k, keys[k], orders))
    && (forall id | id in orders :: OrderOk(id, orders[id], keys))
  }

  /** order.created events and orders match one to one. */
  ghost predicate EventsOk(events: seq<nat>, orders: map<nat, OrderRow>, nextId: nat) {
    && Distinct(events)
    && (forall id :: id in events <==> id in orders)
    && (forall id | id in orders :: id < nextId)
  }

  /** The writes a transaction must have made by the time it reaches a phase. */
  ghost predicate TxOk(tx: Tx, keys: map<string, KeyRow>, orders: map<nat, OrderRow>, nextId: nat) {
    var keyed := tx.request.Keyed();
    && 1 <= tx.attempt <= MAX_ATTEMPTS
    && (tx.keyRow.Some? ==> keyed && tx.request.key.value !in keys)
    && (tx.orderId.Some? ==> tx.orderId.value < nextId && tx.orderId.value !in orders)
    && match tx.phase {
      case Beginning => tx.keyRow.None? && tx.orderId.None? && !tx.event
      case InsertingKey => keyed && tx.keyRow.None? && tx.orderId.None? && !tx.event
      case LookingUpKey =>
        keyed && tx.keyRow.None? && tx.orderId.None? && !tx.event && tx.request.key.value in keys
      case InsertingOrder => (keyed <==> tx.keyRow.Some?) && tx.orderId.None? && !tx.event
      case AppendingEvent => (keyed <==> tx.keyRow.Some?) && tx.orderId.Some? && !tx.event
      case ReadingBack => (keyed <==> tx.keyRow.Some?) && tx.orderId.Some? && tx.event
      case CompletingKey => keyed && tx.keyRow.Some? && tx.orderId.Some? && tx.event
      case Committing =>
        && tx.orderId.Some? && tx.event
        && tx.keyRow == if keyed then Some(KeyRow(tx.request.body, Some(ResponseOf(tx)))) else None
      case CommittingReplay(response) =>
        && keyed && tx.keyRow.None? && tx.orderId.None? && !tx.event
        && tx.request.key.value in keys
        && keys[tx.request.key.value] == KeyRow(tx.request.body, Some(response))
    }
  }

  ghost predicate TxsOk(active: map<nat, Tx>, keys: map<string, KeyRow>, orders: map<nat, OrderRow>, nextId: nat) {
    forall r | r in active :: TxOk(active[r], keys, orders, nextId)
  }

  /** No two transactions hold the same key or the same order id. */
  ghost predicate Apart(active: map<nat, Tx>) {
    forall q, r | q in active && r in active && q != r ::
      && (active[q].keyRow.Some? && active[r].keyRow.Some? ==> active[q].request.key != active[r].request.key)
      && (active[q].orderId.Some? ==> active[q].orderId != active[r].orderId)
  }

  ghost predicate ReplyOk(q: Request, reply: Reply, keys: map<string, KeyRow>, orders: map<nat, OrderRow>) {
    && reply != InProgress
    && (reply.Success? ==>
          && reply.response.orderId in orders
          && orders[reply.response.orderId] == OrderRow(q.body, OriginOf(q))
          && reply.response.body == q.body)
  }

  ghost predicate RepliesOk(replies: map<nat, (Request, Reply)>, keys: map<string, KeyRow>,
                            orders: map<nat, OrderRow>)
  {
    forall r | r in replies :: ReplyOk(replies[r].0, replies[r].1, keys, orders)
  }

  ghost predicate Inv(s: System) {
    && TablesOk(s.keys, s.orders)
    && EventsOk(s.events, s.orders, s.nextId)
    && TxsOk(s.active, s.keys, s.orders, s.nextId)
    && Apart(s.active)
    && RepliesOk(s.replies, s.keys, s.orders)
  }

  // ------------------------------------------------------------ steps

  /** One transaction moves on without publishing anything. */
  lemma KeepMove(s: System, r: nat, tx: Tx, nextId: nat)
    requires Inv(s) && nextId >= s.nextId
    requires TxOk(tx, s.keys, s.orders, nextId)
    requires forall q | q in s.active && q != r ::
               && (s.active[q].keyRow.Some? && tx.keyRow.Some? ==> s.active[q].request.key != tx.request.key)
               && (s.active[q].orderId.Some? ==> s.active[q].orderId != tx.orderId)
    ensures Inv(With(s, r, tx).(nextId := nextId))
  {
    hide TablesOk, RepliesOk;
    forall q | q in s.active && q != r ensures TxOk(s.active[q], s.keys, s.orders, nextId) {
      assert TxOk(s.active[q], s.keys, s.orders, s.nextId);
    }
  }

  lemma KeepAnswer(s: System, r: nat, reply: Reply)
    requires Inv(s) && r in s.active && ReplyOk(s.active[r].request, reply, s.keys, s.orders)
    ensures Inv(Answer(s, r, reply))
  {
    hide TablesOk, TxOk, ReplyOk;
  }

  /** The published tables, with the committing transaction still listed as running. */
  lemma PublishTables(s: System, r: nat)
    requires Inv(s) && r in s.active && s.active[r].phase == Committing
    ensures var s' := Publish(s, s.active[r]);
            && TablesOk(s'.keys, s'.orders) && EventsOk(s'.events, s'.orders, s'.nextId)
            && RepliesOk(s.replies, s'.keys, s'.orders)
  {
    var tx, s' := s.active[r], Publish(s, s.active[r]);
    assert TxOk(tx, s.keys, s.orders, s.nextId);
    forall k | k in s.keys ensures KeyOk(k, s'.keys[k], s'.orders) {
      assert KeyOk(k, s.keys[k], s.orders);
    }
    forall id | id in s.orders ensures OrderOk(id, s'.orders[id], s'.keys) {
      assert OrderOk(id, s.orders[id], s.keys);
    }
    forall q | q in s.replies ensures ReplyOk(s.replies[q].0, s.replies[q].1, s'.keys, s'.orders) {
      assert ReplyOk(s.replies[q].0, s.replies[q].1, s.keys, s.orders);
    }
  }

  lemma PublishTxs(s: System, r: nat)
    requires Inv(s) && r in s.active && s.active[r].phase == Committing
    ensures var s' := Publish(s, s.active[r]); TxsOk(s.active - {r}, s'.keys, s'.orders, s'.nextId)
  {
    var tx, s' := s.active[r], Publish(s, s.active[r]);
    assert TxOk(tx, s.keys, s.orders, s.nextId);
    forall q | q in s.active - {r} ensures TxOk(s.active[q], s'.keys, s'.orders, s'.nextId) {
      assert TxOk(s.active[q], s.keys, s.orders, s.nextId);
    }
  }

  lemma KeepPublish(s: System, r: nat, reply: Reply)
    requires Inv(s) && r in s.active && s.active[r].phase == Committing && s.active[r].orderId.Some?
    requires reply == Failed || reply == Success(ResponseOf(s.active[r]))
    ensures Inv(Answer(Publish(s, s.active[r]), r, reply))
  {
    hide TablesOk, EventsOk, TxsOk;
    PublishTables(s, r);
    PublishTxs(s, r);
  }

  lemma RunningTxOk(s: System, r: nat)
    requires Inv(s) && r in s.active
    ensures TxOk(s.active[r], s.keys, s.orders, s.nextId)
  {
  }

  /** The next phase of a transaction whose statement touches only its own writes. */
  lemma NextTxOk(s: System, r: nat)
    requires r in s.active && TxOk(s.active[r], s.keys, s.orders, s.nextId)
    requires s.active[r].phase in {Beginning, InsertingKey, AppendingEvent, ReadingBack, CompletingKey}
    ensures var s' := StepTx(s, r);
            && r in s'.active && s' == With(s, r, s'.active[r])
            && TxOk(s'.active[r], s.keys, s.orders, s.nextId)
            && s'.active[r].request == s.active[r].request && s'.active[r].orderId == s.active[r].orderId
            && (s'.active[r].keyRow.Some? && s.active[r].keyRow.None? ==>
                  s.active[r].request.Keyed() && !KeyLocked(s, r, s.active[r].request.key.value))
  {
    hide KeyLocked;
    assert s.active[r := s.active[r]] == s.active;
  }

  lemma KeepPlainStep(s: System, r: nat)
    requires Inv(s) && r in s.active
    requires s.active[r].phase in {Beginning, InsertingKey, AppendingEvent, ReadingBack, CompletingKey}
    ensures Inv(StepTx(s, r))
  {
    hide StepTx, TxOk, TablesOk, EventsOk, RepliesOk;
    RunningTxOk(s, r);
    NextTxOk(s, r);
    KeepMove(s, r, StepTx(s, r).active[r], s.nextId);
  }

  lemma KeepStepTx(s: System, r: nat)
    requires Inv(s)
    ensures Inv(StepTx(s, r))
  {
    hide Inv, TxOk;
    if r in s.active {
      var tx := s.active[r];
      match tx.phase
      case InsertingOrder => KeepInsertOrder(s, r);
      case Committing => KeepCommit(s, r);
      case LookingUpKey => KeepLookup(s, r);
      case CommittingReplay(response) => KeepReplay(s, r);
      case _ => KeepPlainStep(s, r);
    }
  }

  lemma KeepInsertOrder(s: System, r: nat)
    requires Inv(s) && r in s.active && s.active[r].phase == InsertingOrder
    ensures Inv(StepTx(s, r))
  {
    hide TablesOk, EventsOk, RepliesOk;
    RunningTxOk(s, r);
    NextIdIsFree(s);
    KeepMove(s, r, s.active[r].(phase := AppendingEvent, orderId := Some(s.nextId)), s.nextId + 1);
  }

  lemma KeepCommit(s: System, r: nat)
    requires Inv(s) && r in s.active && s.active[r].phase == Committing
    ensures Inv(StepTx(s, r))
  {
    hide Inv;
    CommittingHasOrder(s, r);
    KeepPublish(s, r, Success(ResponseOf(s.active[r])));
  }

  lemma CommittingHasOrder(s: System, r: nat)
    requires Inv(s) && r in s.active && s.active[r].phase == Committing
    ensures s.active[r].orderId.Some?
  {
    RunningTxOk(s, r);
  }

  lemma NextIdIsFree(s: System)
    requires Inv(s)
    ensures s.nextId !in s.orders
    ensures forall q | q in s.active :: s.active[q].orderId != Some(s.nextId)
  {
    hide TablesOk, RepliesOk;
    forall q | q in s.active ensures s.active[q].orderId != Some(s.nextId) {
      assert TxOk(s.active[q], s.keys, s.orders, s.nextId);
    }
  }

  lemma KeepLookup(s: System, r: nat)
    requires Inv(s) && r in s.active && s.active[r].phase == LookingUpKey
    ensures Inv(StepTx(s, r))
  {
    var tx := s.active[r];
    assert TxOk(tx, s.keys, s.orders, s.nextId);
    assert KeyOk(tx.request.key.value, s.keys[tx.request.key.value], s.orders);
    if s.keys[tx.request.key.value].body != tx.request.body {
      KeepAnswer(s, r, Conflict);
    } else {
      KeepMove(s, r, StepTx(s, r).active[r], s.nextId);
    }
  }

  lemma KeepReplay(s: System, r: nat)
    requires Inv(s) && r in s.active && s.active[r].phase.CommittingReplay?
    ensures Inv(StepTx(s, r))
  {
    var tx := s.active[r];
    assert TxOk(tx, s.keys, s.orders, s.nextId);
    assert KeyOk(tx.request.key.value, s.keys[tx.request.key.value], s.orders);
    KeepAnswer(s, r, Success(tx.phase.response));
  }

  lemma KeepStep(s: System, a: Action)
    requires Inv(s)
    ensures Inv(Apply(s, a))
  {
    hide TablesOk, EventsOk, RepliesOk, StepTx;
    match a
    case Arrive(r, request) =>
      if r !in s.active && r !in s.replies {
        KeepMove(s, r, Fresh(request, 1), s.nextId);
      }
    case Step(r) => KeepStepTx(s, r);
    case Deadlock(r) =>
      if r in s.active {
        assert TxOk(s.active[r], s.keys, s.orders, s.nextId);
        if s.active[r].attempt < MAX_ATTEMPTS {
          KeepMove(s, r, Fresh(s.active[r].request, s.active[r].attempt + 1), s.nextId);
        } else {
          KeepAnswer(s, r, Failed);
        }
      }
    case Error(r) => if r in s.active { KeepAnswer(s, r, Failed); }
    case CommitUnacknowledged(r) =>
      if StepUnacknowledged(s, r) != s {
        KeepPublish(s, r, Failed);
      }
    case Vanish(r) =>
  }

  lemma {:induction false} KeepRun(s: System, run: seq<Action>)
    requires Inv(s)
    ensures Inv(Exec(s, run))
    decreases |run|
  {
    hide Apply, Inv;
    if run != [] {
      KeepStep(s, run[0]);
      KeepRun(Apply(s, run[0]), run[1..]);
    }
  }

  lemma Reachable(run: seq<Action>)
    ensures Inv(Exec(Init(), run))
  {
    KeepRun(Init(), run);
  }

  // ------------------------------------------------------------ what clients can rely on

  /** At most one order exists per key, however requests interleave and retry. */
  lemma OneOrderPerKey(run: seq<Action>, i: nat, j: nat)
    requires var s := Exec(Init(), run);
             i in s.orders && j in s.orders && s.orders[i].origin.Some? && s.orders[i].origin == s.orders[j].origin
    ensures i == j
  {
    var s := Exec(Init(), run);
    Reachable(run);
    assert OrderOk(i, s.orders[i], s.keys) && OrderOk(j, s.orders[j], s.keys);
  }

  /** All successes under one key are the same reply, to the same body. */
  lemma SuccessesAgree(run: seq<Action>, q: nat, r: nat)
    requires var s := Exec(Init(), run);
             && q in s.replies && r in s.replies
             && s.replies[q].0.Keyed() && s.replies[q].0.key == s.replies[r].0.key
             && s.replies[q].1.Success? && s.replies[r].1.Success?
    ensures var s := Exec(Init(), run); s.replies[q] == s.replies[r]
  {
    var s := Exec(Init(), run);
    Reachable(run);
    var i, j := s.replies[q].1.response.orderId, s.replies[r].1.response.orderId;
    assert ReplyOk(s.replies[q].0, s.replies[q].1, s.keys, s.orders);
    assert ReplyOk(s.replies[r].0, s.replies[r].1, s.keys, s.orders);
    OneOrderPerKey(run, i, j);
  }

  /** No committed key row is left `processing`, so nobody is ever told that one is in progress. */
  lemma NoKeyLeftProcessing(run: seq<Action>)
    ensures var s := Exec(Init(), run);
            && (forall k | k in s.keys :: s.keys[k].stored.Some?)
            && (forall r | r in s.replies :: s.replies[r].1 != InProgress)
  {
    var s := Exec(Init(), run);
    Reachable(run);
    forall k | k in s.keys ensures s.keys[k].stored.Some? {
      assert KeyOk(k, s.keys[k], s.orders);
    }
    forall r | r in s.replies ensures s.replies[r].1 != InProgress {
      assert ReplyOk(s.replies[r].0, s.replies[r].1, s.keys, s.orders);
    }
  }

  lemma KeyStep(s: System, a: Action, k: string)
    requires Inv(s) && k in s.keys
    ensures k in Apply(s, a).keys && Apply(s, a).keys[k] == s.keys[k]
  {
    hide TablesOk, EventsOk, RepliesOk, Apart;
    forall r | r in s.active ensures TxOk(s.active[r], s.keys, s.orders, s.nextId) {}
  }

  /** A stored key row never changes. */
  lemma {:induction false} KeyRowIsFinal(s: System, run: seq<Action>, k: string)
    requires Inv(s) && k in s.keys
    ensures k in Exec(s, run).keys && Exec(s, run).keys[k] == s.keys[k]
    decreases |run|
  {
    hide Apply, Inv;
    if run != [] {
      KeepStep(s, run[0]);
      KeyStep(s, run[0], k);
      KeyRowIsFinal(Apply(s, run[0]), run[1..], k);
    }
  }

  /** Once a key is stored for one body, a request with another body never succeeds, at any time;
      when its lookup is answered, the answer is a conflict. */
  lemma DifferentBodyConflicts(run: seq<Action>, later: seq<Action>, k: string, r: nat)
    requires k in Exec(Init(), run).keys
    requires var s := Exec(Exec(Init(), run), later);
             r in s.replies && s.replies[r].0.key == Some(k) && s.replies[r].0.body != Exec(Init(), run).keys[k].body
    ensures !Exec(Exec(Init(), run), later).replies[r].1.Success?
  {
    var s0 := Exec(Init(), run);
    var s := Exec(s0, later);
    Reachable(run);
    KeepRun(s0, later);
    KeyRowIsFinal(s0, later, k);
    var (q, reply) := s.replies[r];
    assert KeyOk(k, s.keys[k], s.orders) && ReplyOk(q, reply, s.keys, s.orders);
    assert forall id | id in s.orders :: OrderOk(id, s.orders[id], s.keys);
  }

  lemma LookupAnswersConflict(s: System, r: nat)
    requires Inv(s) && r in s.active && s.active[r].phase == LookingUpKey
    ensures var q := s.active[r].request; var s' := StepTx(s, r);
            && (r !in s'.active <==> s.keys[q.key.value].body != q.body)
            && (r !in s'.active ==> r in s'.replies && s'.replies[r] == (q, Conflict))
            && (r in s'.active ==> s'.active[r].phase == CommittingReplay(s.keys[q.key.value].stored.value))
  {
    var tx := s.active[r];
    assert TxOk(tx, s.keys, s.orders, s.nextId);
    assert KeyOk(tx.request.key.value, s.keys[tx.request.key.value], s.orders);
  }

  /** order.created events and orders are in one-to-one correspondence. */
  lemma EventsMatchOrders(run: seq<Action>)
    ensures var s := Exec(Init(), run); Distinct(s.events) && forall id :: id in s.events <==> id in s.orders
  {
    Reachable(run);
  }

  // ------------------------------------------------------------ what an undisturbed request gets

  /** Request `r` runs `n` statements with nobody else in between. */
  function Steps(r: nat, n: nat): (run: seq<Action>)
    ensures |run| == n
  {
    seq(n, _ => Step(r))
  }

  lemma ExecStep(s: System, r: nat, n: nat)
    requires n > 0
    ensures Exec(s, Steps(r, n)) == Exec(StepTx(s, r), Steps(r, n - 1))
  {
    hide StepTx;
    assert Steps(r, n)[1..] == Steps(r, n - 1);
  }

  lemma ExecNothing(s: System, r: nat)
    ensures Exec(s, Steps(r, 0)) == s
  {
  }

  lemma ExecArrive(s: System, r: nat, q: Request, n: nat)
    requires r !in s.active && r !in s.replies
    ensures Exec(s, [Arrive(r, q)] + Steps(r, n)) == Exec(With(s, r, Fresh(q, 1)), Steps(r, n))
  {
    hide StepTx;
    assert ([Arrive(r, q)] + Steps(r, n))[1..] == Steps(r, n);
  }

  /** A request alone at order insert goes on to its order, its event and the read back. */
  lemma OrderStatements(s: System, r: nat, tx: Tx, n: nat)
    requires tx.phase == InsertingOrder && n >= 3
    ensures var id := s.nextId;
            Exec(With(s, r, tx), Steps(r, n))
            == Exec(With(s.(nextId := id + 1), r, Tx(tx.request, tx.attempt,
                                                    if tx.request.Keyed() then CompletingKey else Committing,
                                                    tx.keyRow, Some(id), true)), Steps(r, n - 3))
  {
    hide Exec, Steps, StepTx, With;
    var appending := tx.(phase := AppendingEvent, orderId := Some(s.nextId));
    var reading := appending.(phase := ReadingBack, event := true);
    var s' := s.(nextId := s.nextId + 1);
    OneStatement(s, r, tx);
    OneStatement(s', r, appending);
    OneStatement(s', r, reading);
    ExecStep(With(s, r, tx), r, n);
    ExecStep(With(s', r, appending), r, n - 1);
    ExecStep(With(s', r, reading), r, n - 2);
  }

  lemma OneStatement(s: System, r: nat, tx: Tx)
    requires tx.phase in {InsertingOrder, AppendingEvent, ReadingBack}
    ensures StepTx(With(s, r, tx), r)
            == match tx.phase {
                 case InsertingOrder =>
                   With(s.(nextId := s.nextId + 1), r, tx.(phase := AppendingEvent, orderId := Some(s.nextId)))
                 case AppendingEvent => With(s, r, tx.(phase := ReadingBack, event := true))
                 case _ => With(s, r, tx.(phase := if tx.request.Keyed() then CompletingKey else Committing))
               }
  {
    hide KeyLocked;
    var next := StepTx(With(s, r, tx), r).active[r];
    assert s.active[r := tx][r := next] == s.active[r := next];
  }

  /** The commit publishes the order, its event and its key row at once, and answers success; a commit
      whose acknowledgement is lost publishes the same and answers with an error. */
  lemma CommitOutcome(s: System, r: nat, acknowledged: bool)
    requires Inv(s) && r in s.active && s.active[r].phase == Committing
    ensures var tx := s.active[r]; var q := tx.request;
            var s' := Apply(s, if acknowledged then Step(r) else CommitUnacknowledged(r));
            && tx.orderId.Some? && tx.orderId.value !in s.orders
            && var id := tx.orderId.value;
            && s'.orders == s.orders[id := OrderRow(q.body, if q.key == Some("") then None else q.key)]
            && s'.events == s.events + [id]
            && s'.keys == (if q.key.None? || q.key.value == "" then s.keys
                           else s.keys[q.key.value := KeyRow(q.body, Some(Response(id, q.body)))])
            && s'.nextId == s.nextId && s'.active == s.active - {r}
            && s'.replies == s.replies[r := (q, if acknowledged then Success(Response(id, q.body)) else Failed)]
  {
    hide TablesOk, EventsOk, RepliesOk, Apart;
    RunningTxOk(s, r);
  }

  /** In every reachable state a request with no key, or whose key is neither stored nor held by another
      request, creates its order, event and key row when nothing disturbs it, and is told so. */
  lemma NewRequestCreates(run: seq<Action>, r: nat, q: Request)
    requires var s := Exec(Init(), run);
             && r !in s.active && r !in s.replies
             && (q.key.Some? && q.key.value != "" ==>
                   && q.key.value !in s.keys
                   && forall p | p in s.active && s.active[p].keyRow.Some? :: s.active[p].request.key != q.key)
    ensures var s := Exec(Init(), run); var keyed := q.key.Some? && q.key.value != "";
            var s' := Exec(s, [Arrive(r, q)] + Steps(r, if keyed then 7 else 5));
            && s'.orders == s.orders[s.nextId := OrderRow(q.body, if keyed then q.key else None)]
            && s'.events == s.events + [s.nextId] && s'.nextId == s.nextId + 1
            && s'.keys == (if keyed then s.keys[q.key.value := KeyRow(q.body, Some(Response(s.nextId, q.body)))]
                           else s.keys)
            && s'.active == s.active && s'.replies == s.replies[r := (q, Success(Response(s.nextId, q.body)))]
  {
    hide Exec, Steps, StepTx;
    var s := Exec(Init(), run);
    if q.Keyed() {
      ExecArrive(s, r, q, 7);
      BeforeOrder(s, r, q, 7);
      OrderStatements(s, r, Tx(q, 1, InsertingOrder, Some(KeyRow(q.body, None)), None, false), 5);
      AfterOrder(s.(nextId := s.nextId + 1), r, q, s.nextId);
    } else {
      ExecArrive(s, r, q, 5);
      BeforeOrder(s, r, q, 5);
      OrderStatements(s, r, Tx(q, 1, InsertingOrder, None, None, false), 4);
      AfterOrder(s.(nextId := s.nextId + 1), r, q, s.nextId);
    }
  }

  /** Up to the order insert: a keyed request first inserts its key. */
  lemma BeforeOrder(s: System, r: nat, q: Request, n: nat)
    requires n >= 2
    requires q.Keyed() ==>
               && q.key.value !in s.keys
               && forall p | p in s.active && s.active[p].keyRow.Some? :: s.active[p].request.key != q.key
    ensures Exec(With(s, r, Fresh(q, 1)), Steps(r, n))
            == if q.Keyed()
               then Exec(With(s, r, Tx(q, 1, InsertingOrder, Some(KeyRow(q.body, None)), None, false)), Steps(r, n - 2))
               else Exec(With(s, r, Tx(q, 1, InsertingOrder, None, None, false)), Steps(r, n - 1))
  {
    hide Exec, Steps;
    ExecStep(With(s, r, Fresh(q, 1)), r, n);
    if q.Keyed() {
      var s1 := With(s, r, Fresh(q, 1).(phase := InsertingKey));
      assert StepTx(With(s, r, Fresh(q, 1)), r) == s1;
      ExecStep(s1, r, n - 1);
      assert !KeyLocked(s1, r, q.key.value);
      assert StepTx(s1, r) == With(s, r, Tx(q, 1, InsertingOrder, Some(KeyRow(q.body, None)), None, false));
    } else {
      assert StepTx(With(s, r, Fresh(q, 1)), r) == With(s, r, Fresh(q, 1).(phase := InsertingOrder));
    }
  }

  /** After the read back: a keyed request completes its key row, then both commit. */
  lemma AfterOrder(s: System, r: nat, q: Request, id: nat)
    requires r !in s.active
    ensures var keyed := q.Keyed();
            var tx := Tx(q, 1, if keyed then CompletingKey else Committing,
                         if keyed then Some(KeyRow(q.body, None)) else None, Some(id), true);
            Exec(With(s, r, tx), Steps(r, if keyed then 2 else 1))
            == System(if keyed then s.keys[q.key.value := KeyRow(q.body, Some(Response(id, q.body)))] else s.keys,
                      s.orders[id := OrderRow(q.body, if keyed then q.key else None)], s.events + [id], s.nextId,
                      s.active, s.replies[r := (q, Success(Response(id, q.body)))])
  {
    hide Exec, Steps, KeyLocked;
    var committing := Tx(q, 1, Committing,
                         if q.Keyed() then Some(KeyRow(q.body, Some(Response(id, q.body)))) else None, Some(id), true);
    if q.Keyed() {
      var tx := committing.(phase := CompletingKey, keyRow := Some(KeyRow(q.body, None)));
      ExecStep(With(s, r, tx), r, 2);
      assert StepTx(With(s, r, tx), r) == With(s, r, committing);
    }
    ExecStep(With(s, r, committing), r, 1);
    ExecNothing(StepTx(With(s, r, committing), r), r);
    CommitAlone(s, r, committing, id);
  }

  lemma CommitAlone(s: System, r: nat, tx: Tx, id: nat)
    requires r !in s.active && tx.phase == Committing && tx.orderId == Some(id) && tx.event
    requires var q := tx.request;
             tx.keyRow == if q.Keyed() then Some(KeyRow(q.body, Some(Response(id, q.body)))) else None
    ensures var q := tx.request; var keyed := q.Keyed();
            StepTx(With(s, r, tx), r)
            == System(if keyed then s.keys[q.key.value := KeyRow(q.body, Some(Response(id, q.body)))] else s.keys,
                      s.orders[id := OrderRow(q.body, if keyed then q.key else None)], s.events + [id], s.nextId,
                      s.active, s.replies[r := (q, Success(Response(id, q.body)))])
  {
    hide KeyLocked;
    assert s.active[r := tx] - {r} == s.active;
  }

  /** In every reachable state an undisturbed request under a stored key gets the stored response if it has
      the stored body, and a conflict otherwise; nothing but its reply is written. */
  lemma StoredKeyAnswers(run: seq<Action>, r: nat, q: Request)
    requires var s := Exec(Init(), run);
             r !in s.active && r !in s.replies && q.key.Some? && q.key.value in s.keys
    ensures var s := Exec(Init(), run); var row := s.keys[q.key.value];
            && row.stored.Some?
            && Exec(s, [Arrive(r, q)] + Steps(r, if row.body == q.body then 4 else 3))
               == s.(replies := s.replies[r := (q, if row.body == q.body then Success(row.stored.value) else Conflict)])
  {
    hide Exec, Steps, Inv, StepTx;
    var s := Exec(Init(), run);
    Reachable(run);
    StoredKeyIsFree(s, q.key.value);
    var row := s.keys[q.key.value];
    var n := if row.body == q.body then 4 else 3;
    ExecArrive(s, r, q, n);
    ToLookup(s, r, q, n);
    FromLookup(s, r, q, row);
  }

  lemma ToLookup(s: System, r: nat, q: Request, n: nat)
    requires n >= 2 && q.Keyed() && q.key.value in s.keys
    requires forall p | p in s.active && s.active[p].keyRow.Some? :: s.active[p].request.key != q.key
    ensures Exec(With(s, r, Fresh(q, 1)), Steps(r, n))
            == Exec(With(s, r, Fresh(q, 1).(phase := LookingUpKey)), Steps(r, n - 2))
  {
    hide Exec, Steps;
    var s0, s1 := With(s, r, Fresh(q, 1)), With(s, r, Fresh(q, 1).(phase := InsertingKey));
    ExecStep(s0, r, n);
    assert StepTx(s0, r) == s1;
    ExecStep(s1, r, n - 1);
    assert !KeyLocked(s1, r, q.key.value);
    assert StepTx(s1, r) == With(s, r, Fresh(q, 1).(phase := LookingUpKey));
  }

  lemma FromLookup(s: System, r: nat, q: Request, row: KeyRow)
    requires r !in s.active && q.Keyed() && q.key.value in s.keys && s.keys[q.key.value] == row && row.stored.Some?
    ensures Exec(With(s, r, Fresh(q, 1).(phase := LookingUpKey)), Steps(r, if row.body == q.body then 2 else 1))
            == s.(replies := s.replies[r := (q, if row.body == q.body then Success(row.stored.value) else Conflict)])
  {
    hide Exec, Steps, KeyLocked;
    var s2 := With(s, r, Fresh(q, 1).(phase := LookingUpKey));
    assert s2.active - {r} == s.active;
    if row.body == q.body {
      var s3 := With(s, r, Fresh(q, 1).(phase := CommittingReplay(row.stored.value)));
      ExecStep(s2, r, 2);
      assert StepTx(s2, r) == s3;
      ExecStep(s3, r, 1);
      ExecNothing(StepTx(s3, r), r);
      assert s3.active - {r} == s.active;
    } else {
      ExecStep(s2, r, 1);
      ExecNothing(StepTx(s2, r), r);
    }
  }

  lemma StoredKeyIsFree(s: System, k: string)
    requires Inv(s) && k in s.keys
    ensures k != "" && s.keys[k].stored.Some?
    ensures forall p | p in s.active && s.active[p].keyRow.Some? :: s.active[p].request.key != Some(k)
  {
    hide EventsOk, RepliesOk, Apart;
    assert KeyOk(k, s.keys[k], s.orders);
    forall p | p in s.active && s.active[p].keyRow.Some? ensures s.active[p].request.key != Some(k) {
      assert TxOk(s.active[p], s.keys, s.orders, s.nextId);
    }
  }

  /** A deadlocked transaction leaves no write behind and starts over, twice at most; then, as after any
      other error, the request fails. */
  lemma DeadlockOutcome(s: System, r: nat)
    requires r in s.active
    ensures var tx := s.active[r];
            Apply(s, Deadlock(r))
            == if tx.attempt == 1 || tx.attempt == 2 || tx.attempt == 0
               then s.(active := s.active[r := Tx(tx.request, tx.attempt + 1, Beginning, None, None, false)])
               else s.(active := s.active - {r}, replies := s.replies[r := (tx.request, Failed)])
    ensures Apply(s, Error(r))
            == s.(active := s.active - {r}, replies := s.replies[r := (s.active[r].request, Failed)])
    ensures Apply(s, Vanish(r)) == s.(active := s.active - {r})
  {
  }

  // ------------------------------------------------------------ one request, as the code runs it

  /** Where an attempt is struck: statements are numbered key insert 1, key lookup 2, order insert 3,
      event insert 4, read back 5, key update 6, commit 7. */
  datatype Fault = NoFault | DeadlockAt(statement: nat) | ErrorAt(statement: nat)

  datatype AttemptResult = Created(response: Response) | Replayed(response: Response) | Refused(reply: Reply)
                         | Deadlocked | Errored

  /** The statements an attempt on these key rows comes to, unless it is struck. */
  function Reached(q: Request, keys: map<string, KeyRow>): set<nat> {
    if q.key.None? || q.key.value == "" then {3, 4, 5, 7}
    else if q.key.value in keys then {1, 2}
    else {1, 3, 4, 5, 6, 7}
  }

  function FaultOf(faults: seq<Fault>, attempt: nat): Fault {
    if attempt < |faults| then faults[attempt] else NoFault
  }

  /** The tables a committed attempt leaves behind. */
  function Committed(s: System, q: Request, id: nat): System {
    var keyRow := if q.Keyed() then Some(KeyRow(q.body, Some(Response(id, q.body)))) else None;
    Publish(s.(nextId := id + 1), Tx(q, 1, Committing, keyRow, Some(id), true))
  }

  /** What an attempt on tables `s` may return, and the tables after it. */
  ghost predicate AttemptSpec(s: System, q: Request, r: AttemptResult, s': System) {
    match r
    case Created(response) =>
      (q.Keyed() ==> q.key.value !in s.keys) && response == Response(s.nextId, q.body)
      && s' == Committed(s, q, s.nextId)
    case Replayed(response) =>
      q.Keyed() && q.key.value in s.keys && s.keys[q.key.value] == KeyRow(q.body, Some(response)) && s' == s
    case Refused(reply) =>
      q.Keyed() && q.key.value in s.keys && s' == s
      && reply == (if s.keys[q.key.value].body != q.body then Conflict else InProgress)
      && (reply == InProgress ==> s.keys[q.key.value].stored.None?)
    case _ => s' == s.(nextId := s'.nextId) && s.nextId <= s'.nextId <= s.nextId + 1
  }

  lemma DeadlockedLeaves(s: System, q: Request, s': System)
    requires AttemptSpec(s, q, Deadlocked, s')
    ensures s' == s.(nextId := s'.nextId) && s.nextId <= s'.nextId
  {
  }

  lemma FaultGiven(faults: seq<Fault>, attempt: nat)
    ensures FaultOf(faults, attempt).DeadlockAt? ==> attempt < |faults| && faults[attempt].DeadlockAt?
  {
  }

  class OrdersRepository {
    var keys: map<string, KeyRow>
    var orders: map<nat, OrderRow>
    var events: seq<nat>
    var nextId: nat

    constructor ()
      ensures Contents() == Init()
    {
      keys, orders, events, nextId := map[], map[], [], 0;
    }

    ghost function Contents(): System
      reads this
    {
      System(keys, orders, events, nextId, map[], map[])
    }

    method Rollback(saved: (map<string, KeyRow>, map<nat, OrderRow>, seq<nat>))
      modifies `keys, `orders, `events
      ensures keys == saved.0 && orders == saved.1 && events == saved.2
    {
      keys, orders, events := saved.0, saved.1, saved.2;
    }

    /** `createWithOutboxAttempt`: one transaction; any error rolls it back. */
    method CreateWithOutboxAttempt(q: Request, fault: Fault) returns (r: AttemptResult)
      modifies this
      ensures AttemptSpec(old(Contents()), q, r, Contents())
      ensures r == Deadlocked ==> fault.DeadlockAt?
      ensures r == Errored ==> fault.ErrorAt?
      ensures fault == DeadlockAt(7) ==> r == Deadlocked || r.Replayed? || r.Refused?
      ensures var keyed := q.key.Some? && q.key.value != "";
              var reached := Reached(q, old(keys));
              && (r == Deadlocked <==> fault.DeadlockAt? && fault.statement in reached)
              && (r == Errored <==> fault.ErrorAt? && fault.statement in reached)
              && (r.Created? ==>
                    && r.response == Response(old(nextId), q.body) && nextId == old(nextId) + 1
                    && orders == old(orders)[old(nextId) := OrderRow(q.body, if keyed then q.key else None)]
                    && events == old(events) + [old(nextId)]
                    && keys == if keyed then old(keys)[q.key.value := KeyRow(q.body, Some(r.response))] else old(keys))
              && (!r.Created? ==> orders == old(orders) && events == old(events) && keys == old(keys))
    {
      var saved := (keys, orders, events);
      if q.Keyed() {
        if fault == DeadlockAt(1) { return Deadlocked; }
        if fault == ErrorAt(1) { return Errored; }
        if q.key.value in keys {
          if fault == DeadlockAt(2) { return Deadlocked; }
          if fault == ErrorAt(2) { return Errored; }
          var row := keys[q.key.value];
          if row.body != q.body {
            return Refused(Conflict);
          }
          if row.stored.None? {
            return Refused(InProgress);
          }
          return Replayed(row.stored.value);
        }
        keys := keys[q.key.value := KeyRow(q.body, None)];
      }
      var id := nextId;
      r := InsertOrderAndOutbox(q, fault);
      if r.Created? && q.Keyed() {
        if fault == DeadlockAt(6) { r := Deadlocked; }
        else if fault == ErrorAt(6) { r := Errored; }
        else { keys := keys[q.key.value := KeyRow(q.body, Some(r.response))]; }
      }
      if r.Created? && fault == DeadlockAt(7) { r := Deadlocked; }
      if r.Created? && fault == ErrorAt(7) { r := Errored; }
      if !r.Created? {
        Rollback(saved);
      } else {
        assert keys == Committed(old(Contents()), q, id).keys;
      }
    }

    /** The order row, its order.created event, and the record read back. */
    method InsertOrderAndOutbox(q: Request, fault: Fault) returns (r: AttemptResult)
      modifies `orders, `events, `nextId
      ensures r == Created(Response(old(nextId), q.body)) || r == Deadlocked || r == Errored
      ensures r == Deadlocked <==> fault.DeadlockAt? && fault.statement in {3, 4, 5}
      ensures r == Errored <==> fault.ErrorAt? && fault.statement in {3, 4, 5}
      ensures old(nextId) <= nextId <= old(nextId) + 1
      ensures r.Created? ==>
                && orders == old(orders)[old(nextId) := OrderRow(q.body, OriginOf(q))]
                && events == old(events) + [old(nextId)] && nextId == old(nextId) + 1
    {
      if fault == DeadlockAt(3) { return Deadlocked; }
      if fault == ErrorAt(3) { return Errored; }
      var orderId := nextId;
      orders, nextId := orders[orderId := OrderRow(q.body, OriginOf(q))], nextId + 1;
      if fault == DeadlockAt(4) { return Deadlocked; }
      if fault == ErrorAt(4) { return Errored; }
      events := events + [orderId];
      if fault == DeadlockAt(5) { return Deadlocked; }
      if fault == ErrorAt(5) { return Errored; }
      r := Created(Response(orderId, orders[orderId].body));
    }

    /** `createWithOutbox`: deadlocked attempts are repeated, at most MAX_ATTEMPTS in all; whatever
        happened before the last attempt left no trace but skipped ids. */
    method CreateWithOutbox(q: Request, faults: seq<Fault>)
      returns (r: AttemptResult, attempts: nat, ghost start: System)
      modifies this
      ensures 1 <= attempts <= MAX_ATTEMPTS
      ensures old(nextId) <= start.nextId && start == old(Contents()).(nextId := start.nextId)
      ensures AttemptSpec(start, q, r, Contents())
      ensures attempts - 1 <= |faults| && forall i | 0 <= i < attempts - 1 :: faults[i].DeadlockAt?
      ensures r == Deadlocked ==> attempts == MAX_ATTEMPTS
      ensures var fault := FaultOf(faults, attempts - 1);
              && (r == Deadlocked <==> fault.DeadlockAt? && fault.statement in Reached(q, old(keys)))
              && (r == Errored <==> fault.ErrorAt? && fault.statement in Reached(q, old(keys)))
    {
      hide Reached, AttemptSpec, FaultOf;
      attempts := 0;
      r := Deadlocked;
      start := Contents();
      while attempts < MAX_ATTEMPTS && r == Deadlocked
        invariant attempts <= MAX_ATTEMPTS
        invariant attempts == 0 ==> r == Deadlocked && Contents() == old(Contents())
        invariant attempts > 0 ==> AttemptSpec(start, q, r, Contents())
        invariant old(nextId) <= start.nextId && start == old(Contents()).(nextId := start.nextId)
        invariant attempts - 1 <= |faults| && forall i | 0 <= i < attempts - 1 :: faults[i].DeadlockAt?
        invariant attempts > 0 && r == Deadlocked ==> attempts <= |faults| && faults[attempts - 1].DeadlockAt?
        invariant attempts > 0 ==>
                    var fault := FaultOf(faults, attempts - 1);
                    && (r == Deadlocked <==> fault.DeadlockAt? && fault.statement in Reached(q, old(keys)))
                    && (r == Errored <==> fault.ErrorAt? && fault.statement in Reached(q, old(keys)))
        decreases MAX_ATTEMPTS - attempts
      {
        if attempts > 0 {
          DeadlockedLeaves(start, q, Contents());
        }
        start := Contents();
        FaultGiven(faults, attempts);
        r := CreateWithOutboxAttempt(q, FaultOf(faults, attempts));
        attempts := attempts + 1;
      }
    }
  }
}
