/** Outbox and orders together: a delivery of order.created runs inside the dispatch of its outbox row.
    The order protocol admits one delivery per order at a time; here that is what the outbox provides. */
module OrderDelivery {
  import opened Common
  import O = OutboxTable
  import P = OutboxProtocol
  import I = OutboxInvariant
  import Q = OrderProtocol

  datatype System = System(outbox: P.System, orders: Q.System)

  function Init(): System { System(P.Init(), Q.Init()) }

  datatype Action = Outbox(step: P.Action) | Orders(write: Q.Action)

  /** The event that starts the workflow of order `id`. */
  predicate Starts(e: O.Business, id: nat) {
    e.eventType == "order.created" && e.aggregateType == "order" && e.aggregateId == id
  }

  predicate IsStart(e: O.Business) { e.eventType == "order.created" && e.aggregateType == "order" }

  /** Worker w is inside the handler of order `id`'s creation. */
  predicate Delivers(s: P.System, w: nat, id: nat) {
    P.At(s, w, P.Dispatching) && Starts(P.Current(s, w).event, id)
  }

  /** The reservation that enters the handler. */
  predicate Enters(s: P.System, a: P.Action) {
    && a.Reserve? && a.outcome == Done && P.At(s, a.w, P.Reserving)
    && P.Current(s, a.w).Key() !in s.db.ledger && IsStart(P.Current(s, a.w).event)
  }

  predicate InHandler(s: P.System, w: nat) { P.At(s, w, P.Dispatching) && IsStart(P.Current(s, w).event) }

  /** What the order side does in this step. A crash takes the delivery with it, a handler returns only
      when its delivery has ended, and deliveries start in no other way. */
  function OrderSide(s: System, a: Action): seq<Q.Action> {
    match a
    case Outbox(b) =>
      if Enters(s.outbox, b) then [Q.Deliver(P.Current(s.outbox, b.w).event.aggregateId)]
      else if b.Crash? && InHandler(s.outbox, b.w) then [Q.Crash(P.Current(s.outbox, b.w).event.aggregateId)]
      else []
    case Orders(b) => if b.Deliver? || b.Crash? then [] else [b]
  }

  predicate Blocked(s: System, a: Action) {
    && a.Outbox? && a.step.EndDispatch? && InHandler(s.outbox, a.step.w)
    && P.Current(s.outbox, a.step.w).event.aggregateId in s.orders.deliveries
  }

  ghost function Apply(cfg: P.Config, s: System, a: Action): System {
    if Blocked(s, a) then s
    else System(if a.Outbox? then P.Apply(cfg, s.outbox, a.step) else s.outbox, Q.Exec(s.orders, OrderSide(s, a)))
  }

  ghost function Exec(cfg: P.Config, s: System, run: seq<Action>): System
    decreases |run|
  {
    if run == [] then s else Exec(cfg, Apply(cfg, s, run[0]), run[1..])
  }

  /** Every delivery runs inside somebody's handler call. */
  ghost predicate Inside(s: System) {
    forall id | id in s.orders.deliveries :: exists w :: Delivers(s.outbox, w, id)
  }

  ghost predicate Inv(cfg: P.Config, s: System) { I.Inv(cfg, s.outbox) && Inside(s) }

  /** Only its own return or crash takes a worker out of the handler. */
  lemma StaysInside(cfg: P.Config, s: P.System, a: P.Action, w: nat, id: nat)
    requires Delivers(s, w, id) && !((a.EndDispatch? || a.Crash?) && a.w == w)
    ensures Delivers(P.Apply(cfg, s, a), w, id)
  {
    hide O.HandlerKey, O.ClaimRows, O.ClaimsOf, O.IsSelection, P.Effective, P.FailDb, O.MarkProcessedDb;
  }

  lemma NowInside(cfg: P.Config, s: P.System, a: P.Action)
    requires Enters(s, a)
    ensures Delivers(P.Apply(cfg, s, a), a.w, P.Current(s, a.w).event.aggregateId)
  {
    hide O.HandlerKey;
  }

  lemma SoleInside(cfg: P.Config, s: P.System, v: nat, w: nat, id: nat)
    requires I.Inv(cfg, s) && Delivers(s, v, id) && Delivers(s, w, id)
    ensures v == w
  {
    hide O.HandlerKey;
    SameKey(P.Current(s, v).event, P.Current(s, w).event, id);
    assert I.Owns(s.workers[v]) && I.Owns(s.workers[w]);
  }

  lemma SameKey(e: O.Business, f: O.Business, id: nat)
    requires Starts(e, id) && Starts(f, id)
    ensures O.HandlerKey(e) == O.HandlerKey(f)
  {
  }

  lemma InsideIsReserved(cfg: P.Config, s: P.System, v: nat)
    requires I.Inv(cfg, s) && P.At(s, v, P.Dispatching)
    ensures P.Current(s, v).Key() in s.db.ledger
  {
    hide O.HandlerKey;
    assert I.OwnerFits(s.workers[v], s.db.ledger, s.handled);
  }

  lemma DeliveredKeyIsInLedger(cfg: P.Config, s: System, e: O.Business, id: nat)
    requires Inv(cfg, s) && Starts(e, id) && id in s.orders.deliveries
    ensures O.HandlerKey(e) in s.outbox.db.ledger
  {
    hide O.HandlerKey, I.Inv;
    var v :| Delivers(s.outbox, v, id);
    SameKey(P.Current(s.outbox, v).event, e, id);
    InsideIsReserved(cfg, s.outbox, v);
  }

  /** Entering the handler finds no delivery of that order under way. */
  lemma EntersAlone(cfg: P.Config, s: System, a: P.Action)
    requires Inv(cfg, s) && Enters(s.outbox, a)
    ensures P.Current(s.outbox, a.w).event.aggregateId !in s.orders.deliveries
  {
    hide O.HandlerKey, I.Inv, Inside;
    var e := P.Current(s.outbox, a.w).event;
    if e.aggregateId in s.orders.deliveries {
      DeliveredKeyIsInLedger(cfg, s, e, e.aggregateId);
      assert false;
    }
  }

  lemma {:induction false} ExecOne(s: Q.System, a: Q.Action)
    ensures Q.Exec(s, [a]) == Q.Apply(s, a) && Q.Exec(s, []) == s
  {
    assert [a][1..] == [];
  }

  /** The deliveries after one step. */
  lemma DeliveriesAfter(cfg: P.Config, s: System, a: Action)
    ensures var d, d' := s.orders.deliveries, Apply(cfg, s, a).orders.deliveries;
            && (a.Orders? ==> d'.Keys <= d.Keys)
            && (a.Outbox? && Enters(s.outbox, a.step) && !Blocked(s, a) ==>
                  d'.Keys == d.Keys + {P.Current(s.outbox, a.step.w).event.aggregateId})
            && (a.Outbox? && !Enters(s.outbox, a.step) ==> d'.Keys <= d.Keys)
            && (a.Outbox? && a.step.Crash? && InHandler(s.outbox, a.step.w) ==>
                  P.Current(s.outbox, a.step.w).event.aggregateId !in d')
  {
    hide O.HandlerKey, P.Apply, Q.Exec, Q.StepUpdate, Q.StepDelivery;
    ExecOne(s.orders, Q.Create);
    match a
    case Outbox(b) =>
      if Enters(s.outbox, b) {
        ExecOne(s.orders, Q.Deliver(P.Current(s.outbox, b.w).event.aggregateId));
      } else if b.Crash? && InHandler(s.outbox, b.w) {
        ExecOne(s.orders, Q.Crash(P.Current(s.outbox, b.w).event.aggregateId));
      }
    case Orders(b) =>
      ExecOne(s.orders, b);
      if b.Step? {
        StepKeys(s.orders, b.id, b.outcome);
      } else if b.Update? {
        UpdateKeys(s.orders, b);
      }
  }

  lemma UpdateKeys(s: Q.System, a: Q.Action)
    requires a.Update?
    ensures Q.Apply(s, a).deliveries == s.deliveries
  {
  }

  lemma StepKeys(s: Q.System, id: nat, outcome: Outcome)
    ensures Q.StepDelivery(s, id, outcome).deliveries.Keys <= s.deliveries.Keys
  {
    hide Q.AfterStart, Q.AfterResume;
  }

  lemma KeepStep(cfg: P.Config, s: System, a: Action)
    requires Inv(cfg, s)
    ensures Inv(cfg, Apply(cfg, s, a))
  {
    hide O.HandlerKey, P.Apply, Delivers, Enters, InHandler, I.Inv, OrderSide;
    var s' := Apply(cfg, s, a);
    DeliveriesAfter(cfg, s, a);
    if a.Outbox? {
      I.KeepStep(cfg, s.outbox, a.step);
    }
    forall id | id in s'.orders.deliveries ensures exists w :: Delivers(s'.outbox, w, id) {
      if a.Outbox? && !Blocked(s, a) {
        InsideAfter(cfg, s, a, id);
      }
    }
  }

  lemma InsideAfter(cfg: P.Config, s: System, a: Action, id: nat)
    requires Inv(cfg, s) && a.Outbox? && !Blocked(s, a) && id in Apply(cfg, s, a).orders.deliveries
    ensures exists w :: Delivers(Apply(cfg, s, a).outbox, w, id)
  {
    hide O.HandlerKey, P.Apply, I.Inv, OrderSide;
    DeliveriesAfter(cfg, s, a);
    if id in s.orders.deliveries {
      var w :| Delivers(s.outbox, w, id);
      StaysInside(cfg, s.outbox, a.step, w, id);
      assert Delivers(Apply(cfg, s, a).outbox, w, id);
    } else {
      NowInside(cfg, s.outbox, a.step);
      assert Delivers(Apply(cfg, s, a).outbox, a.step.w, id);
    }
  }

  lemma {:induction false} KeepRun(cfg: P.Config, s: System, run: seq<Action>)
    requires Inv(cfg, s)
    ensures Inv(cfg, Exec(cfg, s, run))
    decreases |run|
  {
    hide Inv, Apply;
    if run != [] {
      KeepStep(cfg, s, run[0]);
      KeepRun(cfg, Apply(cfg, s, run[0]), run[1..]);
    }
  }

  lemma Reachable(cfg: P.Config, run: seq<Action>)
    ensures Inv(cfg, Exec(cfg, Init(), run))
  {
    hide Exec;
    I.ReachableInv(cfg, []);
    KeepRun(cfg, Init(), run);
  }

  /** How the two sides move together: entering the handler of an order.created event starts the delivery of
      its order, a crash inside it ends that delivery, a return waits for the delivery to end, and everything
      else moves its own side only. */
  lemma SidesMove(cfg: P.Config, s: System, a: Action)
    ensures var s' := Apply(cfg, s, a);
            match a {
              case Orders(b) =>
                && s'.outbox == s.outbox
                && s'.orders == (if b.Deliver? || b.Crash? then s.orders else Q.Apply(s.orders, b))
              case Outbox(b) =>
                var inside := (b.EndDispatch? || b.Crash?) && P.At(s.outbox, b.w, P.Dispatching)
                              && IsStart(P.Current(s.outbox, b.w).event);
                var enters := b.Reserve? && b.outcome == Done && P.At(s.outbox, b.w, P.Reserving)
                              && P.Current(s.outbox, b.w).Key() !in s.outbox.db.ledger
                              && IsStart(P.Current(s.outbox, b.w).event);
                if inside && b.EndDispatch? && P.Current(s.outbox, b.w).event.aggregateId in s.orders.deliveries
                then s' == s
                else
                  && s'.outbox == P.Apply(cfg, s.outbox, b)
                  && s'.orders
                     == if enters then Q.Apply(s.orders, Q.Deliver(P.Current(s.outbox, b.w).event.aggregateId))
                        else if inside && b.Crash?
                        then Q.Apply(s.orders, Q.Crash(P.Current(s.outbox, b.w).event.aggregateId))
                        else s.orders
            }
  {
    hide O.HandlerKey, P.Apply, Q.Exec, Q.Apply;
    ExecOne(s.orders, Q.Create);
    var side := OrderSide(s, a);
    if side != [] {
      ExecOne(s.orders, side[0]);
      assert side == [side[0]];
    }
  }

  // ------------------------------------------------------------ main results

  /** In every joint run, with crashes, expired leases and resets, a handler that is entered for an order
      finds no other delivery of that order under way, and each delivery has exactly one worker. */
  lemma OneDeliveryPerOrder(cfg: P.Config, run: seq<Action>, a: P.Action, id: nat)
    ensures var s := Exec(cfg, Init(), run);
            && (Enters(s.outbox, a) ==> P.Current(s.outbox, a.w).event.aggregateId !in s.orders.deliveries)
            && (id in s.orders.deliveries ==> exists w | Delivers(s.outbox, w, id) :: true)
            && (forall v, w | Delivers(s.outbox, v, id) && Delivers(s.outbox, w, id) :: v == w)
  {
    hide Exec, Delivers, Enters, I.Inv;
    Reachable(cfg, run);
    var s := Exec(cfg, Init(), run);
    if Enters(s.outbox, a) {
      EntersAlone(cfg, s, a);
    }
    forall v, w | Delivers(s.outbox, v, id) && Delivers(s.outbox, w, id) ensures v == w {
      SoleInside(cfg, s.outbox, v, w, id);
    }
  }

  /** The order side of a joint run. */
  ghost function OrderRun(cfg: P.Config, s: System, run: seq<Action>): seq<Q.Action>
    decreases |run|
  {
    if run == [] then []
    else (if Blocked(s, run[0]) then [] else OrderSide(s, run[0])) + OrderRun(cfg, Apply(cfg, s, run[0]), run[1..])
  }

  lemma {:induction false} ExecSplit(s: Q.System, a: seq<Q.Action>, b: seq<Q.Action>)
    ensures Q.Exec(s, a + b) == Q.Exec(Q.Exec(s, a), b)
    decreases |a|
  {
    hide Q.Apply;
    if a == [] {
      assert a + b == b;
    } else {
      assert (a + b)[1..] == a[1..] + b;
      ExecSplit(Q.Apply(s, a[0]), a[1..], b);
    }
  }

  /** Seen from the orders, a joint run is a run of the order protocol, so everything proved of that
      protocol holds of it. */
  lemma {:induction false} OrderRunIsARun(cfg: P.Config, s: System, run: seq<Action>)
    ensures Exec(cfg, s, run).orders == Q.Exec(s.orders, OrderRun(cfg, s, run))
    decreases |run|
  {
    hide P.Apply, OrderSide, Blocked, Q.Apply;
    if run == [] {
      ExecOne(s.orders, Q.Create);
    } else {
      var side := if Blocked(s, run[0]) then [] else OrderSide(s, run[0]);
      ExecOne(s.orders, Q.Create);
      ExecSplit(s.orders, side, OrderRun(cfg, Apply(cfg, s, run[0]), run[1..]));
      OrderRunIsARun(cfg, Apply(cfg, s, run[0]), run[1..]);
    }
  }
}
