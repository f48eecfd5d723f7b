/** Different events under one ledger key: the status changes of an order. */
module OutboxKeys {
  import opened Common
  import O = OutboxTable
  import P = OutboxProtocol
  import OutboxTheorems
  import opened OrderTable
  import opened OrderProtocol
  import opened OrderLog

  function StatusText(s: Status): string {
    match s
    case Pending => "pending"
    case Paid => "paid"
    case Completed => "completed"
    case Cancelled => "cancelled"
    case Failed => "failed"
  }

  /** The outbox event a status change is written as. */
  function EventOf(c: Changed): O.Business {
    O.Business("order.status_changed", "order", c.orderId,
               O.StatusChange(StatusText(c.from), StatusText(c.to), c.version))
  }

  /** An order's events in the log stay below its version, in ascending order. */
  lemma {:induction false} VersionsAscend(log: seq<Changed>, id: nat, status: Status, version: nat, i: nat)
    requires Leads(History(log, id), status, version) && i < |log| && log[i].orderId == id
    ensures 1 <= log[i].version <= version
    ensures forall j | i < j < |log| && log[j].orderId == id :: log[i].version < log[j].version
    decreases |log|
  {
    var init, last := log[..|log| - 1], log[|log| - 1];
    if last.orderId == id {
      var h := History(log, id);
      assert h[..|h| - 1] == History(init, id);
      if i < |log| - 1 {
        VersionsAscend(init, id, last.from, version - 1, i);
      }
    } else {
      VersionsAscend(init, id, status, version, i);
    }
  }

  /** In every run two status changes are different events, and they share their ledger key exactly when
      they belong to the same order. */
  lemma StatusChangesShareKeys(run: seq<Action>, i: nat, j: nat)
    requires i < j < |Exec(Init(), run).db.log|
    ensures var log := Exec(Init(), run).db.log;
            && EventOf(log[i]) != EventOf(log[j])
            && (O.HandlerKey(EventOf(log[i])) == O.HandlerKey(EventOf(log[j])) <==> log[i].orderId == log[j].orderId)
  {
    hide O.HandlerKey, Exec, LogOk, StatusText;
    KeepRun(Init(), run);
    var db := Exec(Init(), run).db;
    VersionsDiffer(db, i, j);
    PlainNames();
    O.KeysCollide(EventOf(db.log[i]), EventOf(db.log[j]));
  }

  lemma PlainNames()
    ensures O.ColonFree("order.status_changed") && O.ColonFree("order")
  {
  }

  lemma VersionsDiffer(db: Db, i: nat, j: nat)
    requires LogOk(db) && i < j < |db.log|
    ensures db.log[i].orderId == db.log[j].orderId ==> db.log[i].version != db.log[j].version
  {
    hide Leads, History;
    var id := db.log[i].orderId;
    VersionsAscend(db.log, id, db.orders[id].status, db.orders[id].version, i);
  }

  /** Once one status change of an order is recorded, no handler is ever started for another, in any
      continuation and whichever rows carry them. */
  lemma LaterStatusChangesAreSkipped(cfg: P.Config, s: P.System, run: seq<P.Action>, c: Changed, d: Changed)
    requires OutboxTheorems.IsRecorded(s, O.HandlerKey(EventOf(c))) && c.orderId == d.orderId
    ensures var s' := P.Exec(cfg, s, run); s.starts <= s'.starts && O.HandlerKey(EventOf(d)) !in s'.starts[|s.starts|..]
  {
    hide O.HandlerKey, P.Exec;
    O.KeysCollide(EventOf(c), EventOf(d));
    OutboxTheorems.RecordedIsFinal(cfg, s, run, O.HandlerKey(EventOf(c)));
  }

  /** Two clients' updates of one order: paid, then completed. */
  lemma TwoChangesOneKey()
    ensures var log := Exec(Init(), [Create, Update(0, Paid, None, Done), Update(0, Completed, None, Done)]).db.log;
            log == [Changed(0, Pending, Paid, 1), Changed(0, Paid, Completed, 2)]
  {
    var s1 := Apply(Init(), Create);
    var s2 := Apply(s1, Update(0, Paid, None, Done));
    var rest := [Update(0, Paid, None, Done), Update(0, Completed, None, Done)];
    assert [Create] + rest == [Create, Update(0, Paid, None, Done), Update(0, Completed, None, Done)];
    assert s1.db.orders == [Order(Pending, 0, false)];
    assert rest[1..] == [Update(0, Completed, None, Done)] && rest[1..][1..] == [];
    assert Exec(Init(), [Create] + rest) == Exec(s1, rest);
    assert Exec(s1, rest) == Exec(s2, rest[1..]);
    assert Exec(s2, rest[1..]) == Apply(s2, Update(0, Completed, None, Done));
  }
}
