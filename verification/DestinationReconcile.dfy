/** ReconcileDestinationRoutes as a whole: one call against a live database, a second call on its
    own result, a call whose reading has gone stale, and what the rows left behind forward
    (integration/kube-ovn/overlay/pkg/ovs/ovn-nb-destination-route.go). */
module DestinationReconcile {
  import opened Wrappers
  import opened Ipv4
  import opened Ordering
  import opened DestinationPlan
  import opened Northbound
  import opened DestinationForwarding
  import opened DestinationChange
  import opened DestinationRoutes

  // ---- One call ----

  lemma ChangeUnused(view: Database, name: string, owner: string, port: string, plan: Plan, floor: Uuid, c: Change, db: Database)
    requires ChangeFor(view, name, owner, port, plan, floor, c) && NamesBelow(db, floor)
    ensures Unused(db, c)
  {
    hide Desired, Realizes, OwnedBy, Attached, RetiredFor, SessionsFor;
    forall u | u in c.edit.created ensures u >= floor {
      EditOwned(view, owner, port, plan.sessions, floor, c.edit, c.hops, u);
    }
  }

  lemma PoliciesClean(db: Database)
    requires forall p :: p in db.policies ==> db.policies[p] <= db.sessions.Keys
    ensures Collect(db).policies == db.policies
  {
    var after := Collect(db).policies;
    assert after.Keys == db.policies.Keys;
    assert forall p :: p in db.policies ==> after[p] == db.policies[p];
  }

  lemma RoutesClean(db: Database)
    requires forall u :: u in db.routes ==> exists n :: n in db.routers && u in db.routers[n].routes
    requires forall u :: u in db.routes && db.routes[u].bfd.Some? ==> db.routes[u].bfd.value in db.sessions
    ensures Collect(db).routes == db.routes
  {
    var after := Collect(db).routes;
    assert forall u :: u in after <==> u in db.routes;
    assert forall u :: u in db.routes ==> after[u] == db.routes[u];
  }

  lemma CollectClean(db: Database)
    requires ValidDatabase(db)
    ensures Collect(db) == db
  {
    PoliciesClean(db);
    RoutesClean(db);
  }

  lemma WritelessEffect(db: Database, name: string, c: Change)
    requires Writeless(c)
    ensures Effect(db, name, c) == db
  {
    assert c.removed.Keys == {} && c.added.Keys == {} && c.retired.Keys == {};
    assert Edited(db.sessions, c.edit) == db.sessions;
    assert db.sessions - {} == db.sessions && db.routes + map[] == db.routes;
    if name in db.routers {
      assert db.routers[name].routes - {} + {} == db.routers[name].routes;
      assert db.routers[name := db.routers[name]] == db.routers;
    }
  }

  /** What is in the server afterwards, for any server state and any earlier reading. */
  function Outcome(db: Database, name: string, port: string, c: Change, holds: bool): (d: Database) {
    if !Writeless(c) && holds then Collect(Effect(db, name, c)) else db
  }

  class NorthboundClient {
    var db: Database

    /** The reading may be older than the database; floor stands for names the server has not used. */
    method ReconcileDestinationRoutes(view: Database, name: string, owner: string, port: string, plan: Plan, floor: Uuid)
      returns (refusal: Option<DestinationRoutes.Refusal>, ghost c: Change)
      requires NamesBelow(view, floor) && NamesBelow(db, floor) && ValidPlan(plan)
      modifies this
      ensures Accepts(view, name, owner, port, plan) <==> refusal.None? || refusal.value.TransactionFailed?
      ensures !Accepts(view, name, owner, port, plan) ==> db == old(db) && Explains(refusal.value, view, name, owner, port, plan)
      ensures Accepts(view, name, owner, port, plan) ==>
                && ChangeFor(view, name, owner, port, plan, floor, c)
                && (refusal.None? <==> Writeless(c) || Holds(old(db), name, port, c))
                && db == Outcome(old(db), name, port, c, Holds(old(db), name, port, c))
      ensures Accepts(view, name, owner, port, plan) && view == old(db) && ValidDatabase(view) ==>
                refusal.None? && Reconciled(old(db), db, name, owner, port, plan, c.hops)
    {
      hide Accepts, ChangeFor, Holds, Effect, Collect, NamesBelow, ValidPlan, Reconciled, ValidDatabase, Unused;
      var planned;
      planned, c := PlanTransaction(view, name, owner, port, plan, floor);
      if planned.Err? {
        return Some(planned.error), c;
      }
      if ValidDatabase(view) {
        ChangeReconciles(view, name, owner, port, plan, floor, c);
        if Writeless(c) {
          WritelessEffect(view, name, c);
          CollectClean(view);
        }
      }
      ChangeUnused(view, name, owner, port, plan, floor, c, db);
      var mutated := false;
      for i := 0 to |planned.value|
        invariant !mutated ==> forall k :: 0 <= k < i ==> planned.value[k].IsWait()
        invariant mutated ==> !AllWaits(planned.value)
      {
        if !planned.value[i].IsWait() {
          mutated := true;
          break;
        }
      }
      if !mutated {
        return None, c;
      }
      var committed := Run(db, planned.value);
      db := Commit(db, planned.value);
      return if committed.Some? then None else Some(TransactionFailed), c;
    }
  }

  // ---- A second call ----

  lemma SettledHops(after: Database, owner: string, port: string, plan: Plan, hops: map<string, Uuid>, floor: Uuid,
                    e: SessionEdit, again: map<string, Uuid>)
    requires SessionsSettled(after, after, owner, port, plan, hops)
    requires SessionsFor(after, owner, port, plan.sessions, floor, e, again)
    ensures again == hops && e.created == map[] && e.retimed == map[]
  {
    hide OwnerOf, HasTimers;
    forall h | h in again
      ensures again[h] == hops[h] && again[h] in after.sessions && again[h] !in e.created && again[h] !in e.retimed
    {
      assert Serves(after.sessions[hops[h]], owner, port, h, plan.sessions[h]);
      assert HopHandled(after, owner, port, plan.sessions[h], floor, e, h, again[h]);
    }
    assert e.created.Keys == {};
    forall u ensures u !in e.retimed {
      if RetimedKept(after, e, u) {
        var h := after.sessions[u].dst;
        assert h in again ==> HopHandled(after, owner, port, plan.sessions[h], floor, e, h, again[h]);
      }
    }
    assert e.retimed.Keys == {};
  }

  lemma SettledAgain(before: Database, after: Database, owner: string, port: string, plan: Plan, hops: map<string, Uuid>)
    requires SessionsSettled(before, after, owner, port, plan, hops)
    ensures SessionsSettled(after, after, owner, port, plan, hops)
  {
    hide Serves, OwnerOf;
  }

  /** On its own result the controller computes only waits. */
  lemma SecondRunWritesNothing(before: Database, after: Database, name: string, owner: string, port: string, plan: Plan,
                               hops: map<string, Uuid>, floor: Uuid, c: Change)
    requires Reconciled(before, after, name, owner, port, plan, hops)
    requires ChangeFor(after, name, owner, port, plan, floor, c)
    ensures Writeless(c) && c.hops == hops
  {
    hide ValidDatabase, OwnedBy, ForeignTo, Attached, Realizes, Desired, Updated, OwnerOf;
    SettledAgain(before, after, owner, port, plan, hops);
    SettledHops(after, owner, port, plan, hops, floor, c.edit, c.hops);
    assert c.retired.Keys == {};
  }

  lemma SettledUsable(after: Database, owner: string, port: string, plan: Plan, hops: map<string, Uuid>, u: Uuid)
    requires ValidDatabase(after) && SessionsSettled(after, after, owner, port, plan, hops) && u in after.sessions
    ensures Wants(after.sessions[u], port, plan.sessions) <==> OwnerOf(after.sessions[u].ids) == owner
  {
    hide OwnerOf, HasTimers;
    var s := after.sessions[u];
    if Wants(s, port, plan.sessions) {
      assert Serves(after.sessions[hops[s.dst]], owner, port, s.dst, plan.sessions[s.dst]);
      assert SameTuple(after.sessions[hops[s.dst]], s);
    }
    if u in hops.Values {
      var h :| h in hops && hops[h] == u;
      assert Serves(s, owner, port, h, plan.sessions[h]);
    }
  }

  /** What was accepted once is accepted again on its own result. */
  lemma SecondRunAccepted(before: Database, after: Database, name: string, owner: string, port: string, plan: Plan, hops: map<string, Uuid>)
    requires Accepts(before, name, owner, port, plan) && Reconciled(before, after, name, owner, port, plan, hops)
    ensures Accepts(after, name, owner, port, plan)
  {
    hide OwnedBy, ForeignTo, Attached, Realizes, Desired, OwnerOf, Consumed, Unobstructed, SessionsSettled, Reachable, ClearOfNetworks, BfdReady, Connected;
    SettledAgain(before, after, owner, port, plan, hops);
    forall u | u in after.sessions
      ensures Wants(after.sessions[u], port, plan.sessions) <==> OwnerOf(after.sessions[u].ids) == owner
    {
      SettledUsable(after, owner, port, plan, hops, u);
    }
  }

  // ---- A stale reading ----

  /** The rows holding one session tuple, with their ownership. */
  function TupleRows(sessions: map<Uuid, Session>, port: string, hop: string): (rows: map<Uuid, map<string, string>>) {
    map u | u in sessions && sessions[u].port == port && sessions[u].dst == hop :: sessions[u].ids
  }

  /** Nothing the change was computed from and is guarded on has moved. */
  ghost predicate Current(view: Database, db: Database, name: string, port: string, plan: Plan, c: Change) {
    && (name in view.routers ==>
          name in db.routers && db.routers[name].id == view.routers[name].id && db.routers[name].routes == view.routers[name].routes)
    && (forall h :: h in plan.sessions ==> TupleRows(db.sessions, port, h) == TupleRows(view.sessions, port, h))
    && (forall u :: u in c.removed ==> u in db.routes && u in view.routes && db.routes[u].ids == view.routes[u].ids)
    && (forall u :: u in c.retired ==> u in db.sessions && u in view.sessions && db.sessions[u].ids == view.sessions[u].ids)
  }

  ghost predicate TouchesKnownRows(view: Database, c: Change) {
    && (forall u :: u in c.removed ==> u in view.routes && c.removed[u] == view.routes[u].ids)
    && (forall u :: u in c.retired ==> u in view.sessions && c.retired[u] == view.sessions[u].ids)
  }

  lemma TouchedRows(view: Database, name: string, owner: string, port: string, plan: Plan, floor: Uuid, c: Change)
    requires ChangeFor(view, name, owner, port, plan, floor, c)
    ensures TouchesKnownRows(view, c)
  {
    hide SessionsFor, Realizes, Desired, OwnerOf;
    assert forall u :: u in c.removed ==> u in OwnedBy(Attached(view, name), owner);
  }

  lemma TupleGuard(view: Database, db: Database, owner: string, port: string, plan: Plan, floor: Uuid, e: SessionEdit, hops: map<string, Uuid>, h: string)
    requires SessionsFor(view, owner, port, plan.sessions, floor, e, hops) && h in plan.sessions
    ensures TupleRows(db.sessions, port, h) == TupleRows(view.sessions, port, h) <==>
            if h in e.kept then TupleIs(db.sessions, port, h, e.kept[h].id, e.kept[h].ids) else TupleAbsent(db.sessions, port, h)
  {
    hide OwnerOf, HasTimers;
    assert HopHandled(view, owner, port, plan.sessions[h], floor, e, h, hops[h]);
    var now, past := TupleRows(db.sessions, port, h), TupleRows(view.sessions, port, h);
    if h in e.kept {
      assert past == map[e.kept[h].id := e.kept[h].ids];
      if now == past {
        assert e.kept[h].id in now;
        assert forall u :: u in db.sessions && u !in now ==> !(db.sessions[u].port == port && db.sessions[u].dst == h);
      }
    } else {
      assert past == map[];
      if now == past {
        assert forall u :: u in db.sessions ==> u !in now;
      }
    }
  }

  lemma EditGuard(view: Database, db: Database, owner: string, port: string, plan: Plan, floor: Uuid, e: SessionEdit, hops: map<string, Uuid>)
    requires SessionsFor(view, owner, port, plan.sessions, floor, e, hops)
    ensures EditHolds(db.sessions, port, e) <==>
            forall h :: h in plan.sessions ==> TupleRows(db.sessions, port, h) == TupleRows(view.sessions, port, h)
  {
    hide TupleRows, TupleIs, TupleAbsent, OwnerOf, HasTimers;
    forall h | h in plan.sessions
      ensures TupleRows(db.sessions, port, h) == TupleRows(view.sessions, port, h) <==>
              if h in e.kept then TupleIs(db.sessions, port, h, e.kept[h].id, e.kept[h].ids) else TupleAbsent(db.sessions, port, h)
      ensures h !in e.kept ==> hops[h] in e.created && e.created[hops[h]].port == port && e.created[hops[h]].dst == h
    {
      TupleGuard(view, db, owner, port, plan, floor, e, hops, h);
      assert HopHandled(view, owner, port, plan.sessions[h], floor, e, h, hops[h]);
    }
    forall u | u in e.created
      ensures e.created[u].dst in plan.sessions && e.created[u].dst !in e.kept && e.created[u].port == port
    {
      assert HopHandled(view, owner, port, plan.sessions[e.created[u].dst], floor, e, e.created[u].dst, u);
    }
  }

  /** The waits hold exactly when the router's route set, every wanted session tuple and every touched row's
      ownership are what was read. */
  lemma HoldsIffCurrent(view: Database, db: Database, name: string, owner: string, port: string, plan: Plan, floor: Uuid, c: Change)
    requires ChangeFor(view, name, owner, port, plan, floor, c)
    ensures Holds(db, name, port, c) <==> Current(view, db, name, port, plan, c)
  {
    hide SessionsFor, Realizes, RoutesFor, RetiredFor, Desired, OwnerOf, EditHolds, TupleRows, OwnedBy, Attached;
    TouchedRows(view, name, owner, port, plan, floor, c);
    EditGuard(view, db, owner, port, plan, floor, c.edit, c.hops);
  }

  // ---- Forwarding ----

  lemma RowsMixed(rows: map<Uuid, StaticRoute>, owner: string)
    ensures Mixed(rows, ForeignTo(rows, owner), OwnedBy(rows, owner))
  {
    hide OwnerOf;
  }

  /** Every address of every destination is spread over exactly its live gateways, or discarded when
      none is up, whatever the session states. */
  lemma DestinationsForwarded(before: Database, after: Database, name: string, owner: string, port: string, plan: Plan,
                              hops: map<string, Uuid>, up: set<Uuid>, a: Addr, r: Intent)
    requires Accepts(before, name, owner, port, plan) && ValidPlan(plan) && Reconciled(before, after, name, owner, port, plan, hops)
    requires r in plan.routes && Destination(r.cidr).Contains(a)
    ensures Decision(Attached(after, name), up, a) == Verdict(r, hops, up)
  {
    hide Acceptable, Destination, Realizes, Desired, Unobstructed, Decision, Verdict, SessionsUsable,
      SessionsSettled, OwnedBy, ForeignTo, Attached, ValidDatabase, Reachable, ClearOfNetworks, Consumed, BfdReady, Connected;
    var rows := Attached(after, name);
    RowsMixed(rows, owner);
    ForwardsInside(plan.routes, owner, hops, rows, ForeignTo(rows, owner), OwnedBy(rows, owner), up, a, r);
  }

  /** Wherever neither the plan nor any row the owner had before reaches, the decision is the one made before, and other
      routers keep their rows. */
  lemma ElsewhereUnchanged(before: Database, after: Database, name: string, owner: string, port: string, plan: Plan,
                           hops: map<string, Uuid>, up: set<Uuid>, a: Addr)
    requires ValidPlan(plan) && Reconciled(before, after, name, owner, port, plan, hops)
    requires forall u :: u in OwnedBy(Attached(before, name), owner) ==> !Matches(OwnedBy(Attached(before, name), owner)[u], up, a)
    requires forall r :: r in plan.routes ==> !Destination(r.cidr).Contains(a)
    ensures Decision(Attached(after, name), up, a) == Decision(Attached(before, name), up, a)
    ensures forall m :: m in before.routers && m != name ==> Attached(after, m) == Attached(before, m)
  {
    hide Acceptable, Destination, Realizes, Desired, Decision, SessionsSettled, OwnedBy, ForeignTo, Attached, ValidDatabase, Matches;
    var rows, prior := Attached(after, name), Attached(before, name);
    RowsMixed(rows, owner);
    RowsMixed(prior, owner);
    ForwardsOutside(plan.routes, owner, hops, rows, ForeignTo(rows, owner), OwnedBy(rows, owner), up, a);
    UnmatchedRowsDrop(prior, ForeignTo(prior, owner), OwnedBy(prior, owner), up, a);
  }

  /** In particular outside every destination of the plan installed before and of the new one. */
  lemma OutsideBothPlans(before: Database, after: Database, name: string, owner: string, port: string, was: Plan, plan: Plan,
                         earlier: map<string, Uuid>, hops: map<string, Uuid>, up: set<Uuid>, a: Addr)
    requires ValidPlan(was) && ValidPlan(plan) && Reconciled(before, after, name, owner, port, plan, hops)
    requires Realizes(OwnedBy(Attached(before, name), owner), Desired(was.routes, owner, earlier))
    requires forall r :: r in was.routes || r in plan.routes ==> !Destination(r.cidr).Contains(a)
    ensures Decision(Attached(after, name), up, a) == Decision(Attached(before, name), up, a)
  {
    hide Acceptable, Destination, Desired, Decision, SessionsSettled, OwnedBy, ForeignTo, Attached, ValidDatabase, Matches;
    var owned := OwnedBy(Attached(before, name), owner);
    forall u | u in owned ensures !Matches(owned[u], up, a) {
      assert owned[u] in owned.Values;
      if Matches(owned[u], up, a) {
        DesiredMatch(was.routes, owner, earlier, owned[u], up, a);
      }
    }
    ElsewhereUnchanged(before, after, name, owner, port, plan, hops, up, a);
  }
}
