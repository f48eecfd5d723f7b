/** What single steps of the order protocol do, in terms of rows, versions and events. */
module OrderOutcomes {
  import opened Common
  import opened OrderTable
  import opened OrderProtocol

  /** The moves a client may ask for. */
  predicate Allowed(from: Status, to: Status) {
    match from
    case Pending => to != Pending
    case Paid => to == Completed || to == Cancelled || to == Failed
    case Failed => to == Pending || to == Cancelled
    case _ => false
  }

  /** An update that reaches the database takes effect if and only if the order is visible, has the expected
      version if one is given, and the move is allowed; status, version and event then move together. */
  lemma UpdateOutcome(s: System, id: nat, to: Status, expected: Option<nat>, outcome: Outcome)
    ensures var o := s.db.orders;
            var goes := outcome != LostBefore && id < |o| && !o[id].deleted
                        && (expected == None || expected == Some(o[id].version)) && Allowed(o[id].status, to);
            Apply(s, Update(id, to, expected, outcome))
            == if !goes then s
               else
                 var v := o[id].version + 1;
                 s.(db := Db(o[id := Order(to, v, false)], s.db.log + [Changed(id, o[id].status, to, v)], s.db.sagas),
                    accepted := s.accepted + if expected.Some? then [Accepted(id, v - 1)] else [])
  {
  }

  /** Orders start pending at version 0 without an event; deletion only hides them; a delivery starts unless
      one of its order is under way, and a crash ends it where it stands. */
  lemma EnvironmentSteps(s: System, id: nat, deleted: bool)
    ensures Apply(s, Create) == s.(db := s.db.(orders := s.db.orders + [Order(Pending, 0, false)]))
    ensures id < |s.db.orders| ==>
              var o := s.db.orders[id];
              Apply(s, SetDeleted(id, deleted))
              == s.(db := s.db.(orders := s.db.orders[id := Order(o.status, o.version, deleted)]))
    ensures Apply(s, Deliver(id))
            == if id in s.deliveries then s else s.(deliveries := s.deliveries[id := Starting])
    ensures Apply(s, Crash(id)) == s.(deliveries := s.deliveries - {id})
  {
  }

  /** A statement that was applied though its client got an error leaves the tables of a success and the
      delivery of a failure; one lost before it took effect leaves the tables alone. */
  lemma LostAcknowledgement(s: System, id: nat)
    requires id in s.deliveries && !s.deliveries[id].Generating? && !s.deliveries[id].ReadingStages?
    ensures var done, before := Apply(s, Step(id, Done)), Apply(s, Step(id, LostBefore));
            var after := Apply(s, Step(id, LostAfter));
            after.db == done.db && after.deliveries == before.deliveries && before.db == s.db
    ensures s.deliveries[id] != Starting && s.deliveries[id] != Compensating ==>
              Apply(s, Step(id, LostBefore)).deliveries == s.deliveries[id := Compensating]
    ensures s.deliveries[id] == Starting || s.deliveries[id] == Compensating ==>
              Apply(s, Step(id, LostBefore)).deliveries == s.deliveries - {id}
  {
    hide StartOrResumeDb, WriteStagesDb, CompleteDb, CompensateDb;
  }
}
