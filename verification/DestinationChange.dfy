/** The net effect of a destination-route transaction, separated from the order in which its
    operations are emitted, and what that effect leaves in the database. */
module DestinationChange {
  import opened Wrappers
  import opened Ordering
  import opened DestinationPlan
  import opened Northbound
  import opened DestinationForwarding

  datatype Receipt = Receipt(id: Uuid, ids: map<string, string>)

  /** Sessions inserted, sessions whose identity is awaited, and sessions given new timers. */
  datatype SessionEdit = SessionEdit(created: map<Uuid, Session>, kept: map<string, Receipt>, retimed: map<Uuid, Timers>)

  datatype Change = Change(
    router: Option<Router>, edit: SessionEdit, hops: map<string, Uuid>,
    removed: map<Uuid, map<string, string>>, added: map<Uuid, StaticRoute>, retired: map<Uuid, map<string, string>>)

  function NewSession(port: string, hop: string, owner: string, t: Timers): (s: Session) {
    Session(port, hop, Some(t.minRx), Some(t.minTx), Some(t.multiplier), map["vendor" := VENDOR, OWNER_KEY := owner])
  }

  predicate HasTimers(s: Session, t: Timers) {
    s.minRx == Some(t.minRx) && s.minTx == Some(t.minTx) && s.multiplier == Some(t.multiplier)
  }

  /** Rows left after some are removed and others added. */
  function Updated(rows: map<Uuid, StaticRoute>, removed: set<Uuid>, added: map<Uuid, StaticRoute>): (r: map<Uuid, StaticRoute>) {
    map u | u in rows.Keys + added.Keys && (u in added || u !in removed) :: if u in added then added[u] else rows[u]
  }

  // ---- Effect on any database ----

  ghost predicate EditHolds(sessions: map<Uuid, Session>, port: string, e: SessionEdit) {
    && (forall u :: u in e.created ==> TupleAbsent(sessions, e.created[u].port, e.created[u].dst))
    && (forall h :: h in e.kept ==> TupleIs(sessions, port, h, e.kept[h].id, e.kept[h].ids))
  }

  function Edited(sessions: map<Uuid, Session>, e: SessionEdit): (s: map<Uuid, Session>) {
    map u | u in sessions.Keys + e.created.Keys ::
      if u in e.created then e.created[u]
      else if u in e.retimed then Retimed(sessions[u], e.retimed[u].minRx, e.retimed[u].minTx, e.retimed[u].multiplier)
      else sessions[u]
  }

  /** Every wait of the transaction, read against the database it starts from. */
  ghost predicate Holds(db: Database, name: string, port: string, c: Change) {
    && (c.router.Some? ==> name in db.routers && db.routers[name].id == c.router.value.id
                           && db.routers[name].routes == c.router.value.routes)
    && EditHolds(db.sessions, port, c.edit)
    && (forall u :: u in c.removed ==> u in db.routes && db.routes[u].ids == c.removed[u])
    && (forall u :: u in c.retired ==> u in db.sessions && db.sessions[u].ids == c.retired[u])
  }

  function Effect(db: Database, name: string, c: Change): (d: Database) {
    db.(
      routers := if name in db.routers
        then db.routers[name := db.routers[name].(routes := db.routers[name].routes - c.removed.Keys + c.added.Keys)]
        else db.routers,
      routes := db.routes + c.added,
      sessions := Edited(db.sessions, c.edit) - c.retired.Keys)
  }

  /** New rows get names no existing row has. */
  ghost predicate Unused(db: Database, c: Change) {
    && c.edit.created.Keys !! db.sessions.Keys
    && c.added.Keys !! db.routes.Keys
  }

  /** No operation writes anything. */
  predicate Writeless(c: Change) {
    c.edit.created == map[] && c.edit.retimed == map[] && c.removed == map[] && c.added == map[] && c.retired == map[]
  }

  // ---- The change a snapshot calls for ----

  /** The session part: one session per hop, existing ones reused under the same owner. */
  ghost predicate SessionsFor(view: Database, owner: string, port: string, sessions: map<string, Timers>, floor: Uuid,
                              e: SessionEdit, hops: map<string, Uuid>) {
    && hops.Keys == sessions.Keys
    && (forall h, i :: h in hops && i in hops && hops[h] == hops[i] ==> h == i)
    && (forall h :: h in hops ==> HopHandled(view, owner, port, sessions[h], floor, e, h, hops[h]))
    && (forall u :: u in e.created ==> e.created[u].dst in hops && hops[e.created[u].dst] == u)
    && (forall h :: h in e.kept ==> h in hops)
    && (forall u :: u in e.retimed ==> RetimedKept(view, e, u))
  }

  /** A session given new timers is one whose identity is awaited. */
  predicate RetimedKept(view: Database, e: SessionEdit, u: Uuid) {
    && u in view.sessions && view.sessions[u].dst in e.kept
    && e.kept[view.sessions[u].dst].id == u
  }

  ghost predicate HopHandled(view: Database, owner: string, port: string, timers: Timers, floor: Uuid,
                             e: SessionEdit, h: string, id: Uuid) {
    if id in view.sessions then
      && TupleIs(view.sessions, port, h, id, view.sessions[id].ids) && OwnerOf(view.sessions[id].ids) == owner
      && h in e.kept && e.kept[h] == Receipt(id, view.sessions[id].ids)
      && id !in e.created
      && (if HasTimers(view.sessions[id], timers) then id !in e.retimed else id in e.retimed && e.retimed[id] == timers)
    else
      && TupleAbsent(view.sessions, port, h)
      && id >= floor && id in e.created && e.created[id] == NewSession(port, h, owner, timers)
      && h !in e.kept && id !in e.retimed
  }

  /** The route part: afterwards the owned rows are the desired ones, each once. */
  ghost predicate RoutesFor(owned: map<Uuid, StaticRoute>, desired: set<StaticRoute>, floor: Uuid,
                            removed: map<Uuid, map<string, string>>, added: map<Uuid, StaticRoute>) {
    && (forall u :: u in removed ==> u in owned && removed[u] == owned[u].ids)
    && (forall u :: u in added ==> u >= floor)
    && Realizes(Updated(owned, removed.Keys, added), desired)
    && (Realizes(owned, desired) ==> removed == map[] && added == map[])
  }

  ghost predicate RetiredFor(view: Database, owner: string, hops: map<string, Uuid>, removed: set<Uuid>,
                             retired: map<Uuid, map<string, string>>) {
    && (forall u :: u in retired <==> u in view.sessions && OwnerOf(view.sessions[u].ids) == owner && u !in hops.Values)
    && (forall u :: u in retired ==> retired[u] == view.sessions[u].ids)
    && (forall u, r :: u in retired && r in view.routes && view.routes[r].bfd == Some(u) ==> r in removed)
    && (forall u, p :: u in retired && p in view.policies ==> u !in view.policies[p])
  }

  ghost predicate ChangeFor(view: Database, name: string, owner: string, port: string, plan: Plan, floor: Uuid, c: Change) {
    && c.router == (if name in view.routers then Some(view.routers[name]) else None)
    && (c.router.None? ==> plan.routes == [] && c.removed == map[] && c.added == map[])
    && SessionsFor(view, owner, port, plan.sessions, floor, c.edit, c.hops)
    && RoutesFor(OwnedBy(Attached(view, name), owner), Desired(plan.routes, owner, c.hops), floor, c.removed, c.added)
    && RetiredFor(view, owner, c.hops, c.removed.Keys, c.retired)
  }

  /** Every row's name is below the first new one. */
  ghost predicate NamesBelow(db: Database, floor: Uuid) {
    (forall u :: u in db.sessions ==> u < floor) && (forall u :: u in db.routes ==> u < floor)
  }

  // ---- What is left in the database ----

  /** The state a reconciliation promises, with the session chosen for each hop. */
  ghost predicate Reconciled(before: Database, after: Database, name: string, owner: string, port: string, plan: Plan,
                             hops: map<string, Uuid>) {
    && after.routers.Keys == before.routers.Keys
    && (forall m :: m in before.routers ==> after.routers[m].id == before.routers[m].id && after.routers[m].ports == before.routers[m].ports)
    && (forall m :: m in before.routers && m != name ==> Attached(after, m) == Attached(before, m))
    && ForeignTo(Attached(after, name), owner) == ForeignTo(Attached(before, name), owner)
    && Realizes(OwnedBy(Attached(after, name), owner), Desired(plan.routes, owner, hops))
    && SessionsSettled(before, after, owner, port, plan, hops)
    && after.policies == before.policies
    && ValidDatabase(after)
  }

  predicate Serves(s: Session, owner: string, port: string, hop: string, t: Timers) {
    s.port == port && s.dst == hop && OwnerOf(s.ids) == owner && HasTimers(s, t)
  }

  /** Owned sessions are exactly the plan's, with its timers; sessions of other owners are untouched. */
  ghost predicate SessionsSettled(before: Database, after: Database, owner: string, port: string, plan: Plan, hops: map<string, Uuid>) {
    && hops.Keys == plan.sessions.Keys
    && (forall h :: h in hops ==> hops[h] in after.sessions && Serves(after.sessions[hops[h]], owner, port, h, plan.sessions[h]))
    && (forall u :: u in after.sessions && OwnerOf(after.sessions[u].ids) == owner ==> u in hops.Values)
    && (forall u :: u in before.sessions && OwnerOf(before.sessions[u].ids) != owner ==> u in after.sessions && after.sessions[u] == before.sessions[u])
    && (forall u :: u in after.sessions && OwnerOf(after.sessions[u].ids) != owner ==> u in before.sessions)
  }

  lemma TimersOfNew(port: string, hop: string, owner: string, t: Timers)
    ensures HasTimers(NewSession(port, hop, owner, t), t)
  {
  }

  lemma TimersOfRetimed(s: Session, t: Timers)
    ensures HasTimers(Retimed(s, t.minRx, t.minTx, t.multiplier), t)
  {
  }

  /** The session of one hop after the transaction. */
  lemma HopServed(view: Database, owner: string, port: string, sessions: map<string, Timers>, floor: Uuid, e: SessionEdit,
                  hops: map<string, Uuid>, h: string)
    requires SessionsFor(view, owner, port, sessions, floor, e, hops) && h in hops
    ensures hops[h] in Edited(view.sessions, e) && Serves(Edited(view.sessions, e)[hops[h]], owner, port, h, sessions[h])
  {
    hide HasTimers;
    var u := hops[h];
    assert HopHandled(view, owner, port, sessions[h], floor, e, h, u);
    TimersOfNew(port, h, owner, sessions[h]);
    if u in view.sessions {
      TimersOfRetimed(view.sessions[u], sessions[h]);
    }
  }

  /** Rows the transaction inserts or re-times are the owner's, and an inserted tuple was absent. */
  lemma EditOwned(view: Database, owner: string, port: string, sessions: map<string, Timers>, floor: Uuid, e: SessionEdit,
                  hops: map<string, Uuid>, u: Uuid)
    requires SessionsFor(view, owner, port, sessions, floor, e, hops) && (u in e.created || u in e.retimed)
    ensures u in hops.Values
    ensures u in e.created ==> u !in view.sessions && u !in e.retimed && u >= floor && OwnerOf(e.created[u].ids) == owner
    ensures u in e.created ==> TupleAbsent(view.sessions, e.created[u].port, e.created[u].dst)
    ensures u in e.retimed && u !in e.created ==> u in view.sessions && OwnerOf(view.sessions[u].ids) == owner
  {
    hide HasTimers;
    if u in e.created {
      assert HopHandled(view, owner, port, sessions[e.created[u].dst], floor, e, e.created[u].dst, u);
      assert hops[e.created[u].dst] == u;
    } else {
      var h := view.sessions[u].dst;
      assert RetimedKept(view, e, u);
      assert HopHandled(view, owner, port, sessions[h], floor, e, h, hops[h]);
      assert hops[h] == u;
    }
  }

  lemma EditWaits(view: Database, owner: string, port: string, sessions: map<string, Timers>, floor: Uuid, e: SessionEdit,
                  hops: map<string, Uuid>)
    requires SessionsFor(view, owner, port, sessions, floor, e, hops)
    ensures EditHolds(view.sessions, port, e)
  {
    hide HasTimers;
    forall u | u in e.created ensures TupleAbsent(view.sessions, e.created[u].port, e.created[u].dst) {
      EditOwned(view, owner, port, sessions, floor, e, hops, u);
    }
    forall h | h in e.kept ensures TupleIs(view.sessions, port, h, e.kept[h].id, e.kept[h].ids) {
      assert HopHandled(view, owner, port, sessions[h], floor, e, h, hops[h]);
    }
  }

  /** Retiring the owner's other sessions leaves the owner exactly the sessions of its hops. */
  lemma Settle(s: map<Uuid, Session>, e: SessionEdit, retired: set<Uuid>, owner: string, mine: set<Uuid>)
    requires forall u :: u in e.created || u in e.retimed ==>
               u in mine && u in Edited(s, e) && OwnerOf(Edited(s, e)[u].ids) == owner && (u in s ==> OwnerOf(s[u].ids) == owner)
    requires forall u :: u in retired <==> u in s && OwnerOf(s[u].ids) == owner && u !in mine
    ensures forall u :: u in Edited(s, e) - retired && OwnerOf((Edited(s, e) - retired)[u].ids) == owner ==> u in mine
    ensures forall u :: u in s && OwnerOf(s[u].ids) != owner ==> u in Edited(s, e) - retired && (Edited(s, e) - retired)[u] == s[u]
    ensures forall u :: u in Edited(s, e) - retired && OwnerOf((Edited(s, e) - retired)[u].ids) != owner ==> u in s
  {
    hide OwnerOf, Retimed;
  }

  lemma EffectSessions(view: Database, name: string, owner: string, port: string, plan: Plan, floor: Uuid, c: Change)
    requires ChangeFor(view, name, owner, port, plan, floor, c)
    ensures SessionsSettled(view, Effect(view, name, c), owner, port, plan, c.hops)
  {
    hide RoutesFor, Desired, HasTimers, HopHandled, Serves, SessionsFor, Edited, OwnerOf;
    SessionsForHops(view, owner, port, plan.sessions, floor, c.edit, c.hops);
    forall h | h in c.hops
      ensures c.hops[h] in Edited(view.sessions, c.edit) && c.hops[h] !in c.retired
      ensures Serves(Edited(view.sessions, c.edit)[c.hops[h]], owner, port, h, plan.sessions[h])
    {
      HopServed(view, owner, port, plan.sessions, floor, c.edit, c.hops, h);
      assert c.hops[h] in c.hops.Values;
    }
    forall u | u in c.edit.created || u in c.edit.retimed
      ensures u in c.hops.Values && u in Edited(view.sessions, c.edit) && OwnerOf(Edited(view.sessions, c.edit)[u].ids) == owner
      ensures u in view.sessions ==> OwnerOf(view.sessions[u].ids) == owner
    {
      EditedOwner(view, owner, port, plan.sessions, floor, c.edit, c.hops, u);
    }
    Settle(view.sessions, c.edit, c.retired.Keys, owner, c.hops.Values);
  }

  lemma EditedOwner(view: Database, owner: string, port: string, sessions: map<string, Timers>, floor: Uuid, e: SessionEdit,
                    hops: map<string, Uuid>, u: Uuid)
    requires SessionsFor(view, owner, port, sessions, floor, e, hops) && (u in e.created || u in e.retimed)
    ensures u in hops.Values && u in Edited(view.sessions, e) && OwnerOf(Edited(view.sessions, e)[u].ids) == owner
    ensures u in view.sessions ==> OwnerOf(view.sessions[u].ids) == owner
  {
    hide SessionsFor, OwnerOf;
    EditOwned(view, owner, port, sessions, floor, e, hops, u);
  }

  lemma SessionsForHops(view: Database, owner: string, port: string, sessions: map<string, Timers>, floor: Uuid, e: SessionEdit,
                        hops: map<string, Uuid>)
    requires SessionsFor(view, owner, port, sessions, floor, e, hops)
    ensures hops.Keys == sessions.Keys
  {
  }

  // ---- Routes after the transaction ----

  lemma PlanHops(plan: Plan)
    requires ValidPlan(plan)
    ensures forall r, h :: r in plan.routes && h in r.nextHops ==> h in plan.sessions
  {
    hide Acceptable;
    forall r, h | r in plan.routes && h in r.nextHops ensures h in plan.sessions {
      var i :| 0 <= i < |plan.routes| && plan.routes[i] == r;
      SessionsMeaning(plan.routes, h);
    }
  }

  /** A desired row refers to the session of one of the plan's hops, if to any. */
  lemma DesiredSession(plan: Plan, owner: string, hops: map<string, Uuid>, row: StaticRoute)
    requires ValidPlan(plan) && hops.Keys == plan.sessions.Keys && row in Desired(plan.routes, owner, hops)
    ensures row.bfd.Some? ==> row.bfd.value in hops.Values
    ensures OwnerOf(row.ids) == owner
  {
    hide ValidPlan, ChildTexts;
    PlanHops(plan);
    if row.bfd.Some? {
      var r, t, h :| r in plan.routes && t in ChildTexts(r.cidr) && h in r.nextHops && row == Child(r, t, h, owner, SessionOf(hops, h));
      assert h in hops && hops[h] in hops.Values;
    }
  }

  /** Every row the owner holds after the transaction, before vanished rows are collected. */
  function Resulting(owned: map<Uuid, StaticRoute>, c: Change): (rows: map<Uuid, StaticRoute>) {
    Updated(owned, c.removed.Keys, c.added)
  }

  /** Rows the router refers to in the end. */
  function Referenced(db: Database, name: string, c: Change): (refs: set<Uuid>) {
    if name in db.routers then db.routers[name].routes - c.removed.Keys + c.added.Keys else {}
  }

  lemma EffectRouters(view: Database, name: string, c: Change)
    ensures var e := Effect(view, name, c);
      && e.routers.Keys == view.routers.Keys
      && (name in view.routers ==> e.routers[name].routes == Referenced(view, name, c))
      && (forall m :: m in view.routers && m != name ==> e.routers[m] == view.routers[m])
      && (forall m :: m in view.routers ==> e.routers[m].id == view.routers[m].id && e.routers[m].ports == view.routers[m].ports)
  {
  }

  /** No row that stays refers to a session that goes. */
  ghost predicate NothingDangles(e: Database) {
    && (forall m, u :: m in e.routers && u in e.routers[m].routes ==>
          u in e.routes && (e.routes[u].bfd.Some? ==> e.routes[u].bfd.value in e.sessions))
    && (forall p :: p in e.policies ==> e.policies[p] <= e.sessions.Keys)
  }

  lemma CollectKeepsReferenced(e: Database)
    requires NothingDangles(e)
    ensures Collect(e).routers == e.routers && Collect(e).sessions == e.sessions && Collect(e).policies == e.policies
    ensures forall u :: u in Collect(e).routes <==> u in e.routes && exists m :: m in e.routers && u in e.routers[m].routes
    ensures forall m, u :: m in e.routers && u in e.routers[m].routes ==> u in Collect(e).routes && Collect(e).routes[u] == e.routes[u]
  {
    var d := Collect(e);
    assert d.policies.Keys == e.policies.Keys;
    forall p | p in e.policies ensures d.policies[p] == e.policies[p] {
    }
  }

  lemma StaySession(view: Database, name: string, owner: string, port: string, plan: Plan, floor: Uuid, c: Change, u: Uuid)
    requires ChangeFor(view, name, owner, port, plan, floor, c) && u in view.sessions && u !in c.retired
    ensures u in Effect(view, name, c).sessions
  {
  }

  /** What the route part of a change does, stated row by row. */
  ghost predicate RouteFacts(view: Database, name: string, owner: string, c: Change, sessions: map<Uuid, Session>) {
    && (forall u :: u in c.added ==> u !in view.routes && AddedRow(c.added[u], owner, sessions))
    && (forall u :: u in c.removed ==> name in view.routers && u in view.routers[name].routes && OwnedRow(view, u, owner))
    && (c.added != map[] ==> name in view.routers)
    && (forall u :: u in view.routes && u !in c.removed ==> Refers(view.routes[u], sessions))
    && (forall p :: p in view.policies ==> view.policies[p] <= sessions.Keys)
  }

  predicate OwnedRow(view: Database, u: Uuid, owner: string) {
    u in view.routes && OwnerOf(view.routes[u].ids) == owner
  }

  predicate Refers(row: StaticRoute, sessions: map<Uuid, Session>) {
    row.bfd.Some? ==> row.bfd.value in sessions
  }

  predicate AddedRow(row: StaticRoute, owner: string, sessions: map<Uuid, Session>) {
    OwnerOf(row.ids) == owner && Refers(row, sessions)
  }

  lemma AddedFacts(view: Database, name: string, owner: string, port: string, plan: Plan, floor: Uuid, c: Change, u: Uuid)
    requires NamesBelow(view, floor) && ValidPlan(plan) && ChangeFor(view, name, owner, port, plan, floor, c) && u in c.added
    ensures u !in view.routes && AddedRow(c.added[u], owner, Effect(view, name, c).sessions)
  {
    hide Desired, ValidPlan, Attached, OwnedBy, OwnerOf, RetiredFor, SessionsFor, Serves, Edited;
    var owned := OwnedBy(Attached(view, name), owner);
    EffectSessions(view, name, owner, port, plan, floor, c);
    assert c.added[u] == Resulting(owned, c)[u] && c.added[u] in Resulting(owned, c).Values;
    DesiredSession(plan, owner, c.hops, c.added[u]);
  }

  lemma StayingFacts(view: Database, name: string, owner: string, port: string, plan: Plan, floor: Uuid, c: Change)
    requires ValidDatabase(view) && ChangeFor(view, name, owner, port, plan, floor, c)
    ensures forall u :: u in view.routes && u !in c.removed ==> Refers(view.routes[u], Effect(view, name, c).sessions)
    ensures forall p :: p in view.policies ==> view.policies[p] <= Effect(view, name, c).sessions.Keys
  {
    hide Desired, Realizes, Attached, OwnedBy, OwnerOf, SessionsFor, Effect;
    var after := Effect(view, name, c).sessions;
    forall x | x in view.sessions && x !in c.retired ensures x in after {
      StaySession(view, name, owner, port, plan, floor, c, x);
    }
    forall u | u in view.routes && u !in c.removed ensures Refers(view.routes[u], after) {
      if view.routes[u].bfd.Some? {
        assert view.routes[u].bfd.value !in c.retired;
      }
    }
    forall p, x | p in view.policies && x in view.policies[p] ensures x in after {
    }
  }

  lemma RouteFactsHold(view: Database, name: string, owner: string, port: string, plan: Plan, floor: Uuid, c: Change)
    requires ValidDatabase(view) && NamesBelow(view, floor) && ValidPlan(plan)
    requires ChangeFor(view, name, owner, port, plan, floor, c)
    ensures RouteFacts(view, name, owner, c, Effect(view, name, c).sessions)
  {
    hide Desired, Realizes, SessionsFor, Effect, ValidPlan, RetiredFor, AddedRow, Refers, OwnerOf;
    forall u | u in c.added ensures u !in view.routes && AddedRow(c.added[u], owner, Effect(view, name, c).sessions) {
      AddedFacts(view, name, owner, port, plan, floor, c, u);
    }
    StayingFacts(view, name, owner, port, plan, floor, c);
    forall u | u in c.removed ensures name in view.routers && u in view.routers[name].routes && OwnedRow(view, u, owner) {
      assert u in OwnedBy(Attached(view, name), owner);
    }
  }

  lemma EffectDangles(view: Database, name: string, owner: string, c: Change)
    requires ValidDatabase(view) && RouteFacts(view, name, owner, c, Effect(view, name, c).sessions)
    ensures NothingDangles(Effect(view, name, c))
  {
    hide Edited, OwnerOf;
    var e := Effect(view, name, c);
    EffectRouters(view, name, c);
    forall m, u | m in e.routers && u in e.routers[m].routes
      ensures u in e.routes && Refers(e.routes[u], e.sessions)
    {
      if u !in c.added {
        assert u in view.routers[m].routes && u in view.routes;
        assert u !in c.removed;
      }
    }
  }

  /** The rows attached to each router after the commit. */
  lemma AttachedAfter(view: Database, name: string, owner: string, c: Change, m: string)
    requires ValidDatabase(view) && RouteFacts(view, name, owner, c, Effect(view, name, c).sessions)
    requires m in view.routers
    ensures Attached(Collect(Effect(view, name, c)), m) ==
            if m == name then Updated(Attached(view, name), c.removed.Keys, c.added) else Attached(view, m)
  {
    hide Collect, Edited, AddedRow, OwnedRow, Refers, NothingDangles;
    EffectDangles(view, name, owner, c);
    ReferencedRows(Effect(view, name, c), m);
    RowsOf(view, name, c, m);
  }

  /** The rows of a table a set of references selects. */
  function Selected(table: map<Uuid, StaticRoute>, refs: set<Uuid>): (rows: map<Uuid, StaticRoute>) {
    map u | u in refs && u in table :: table[u]
  }

  lemma SelectedUpdated(table: map<Uuid, StaticRoute>, refs: set<Uuid>, removed: set<Uuid>, added: map<Uuid, StaticRoute>)
    requires refs <= table.Keys
    ensures Selected(table + added, refs - removed + added.Keys) == Updated(Selected(table, refs), removed, added)
  {
    var l, r := Selected(table + added, refs - removed + added.Keys), Updated(Selected(table, refs), removed, added);
    assert forall u :: u in l <==> u in r;
    assert forall u :: u in l ==> l[u] == r[u];
  }

  lemma SelectedElsewhere(table: map<Uuid, StaticRoute>, refs: set<Uuid>, added: map<Uuid, StaticRoute>)
    requires refs <= table.Keys && added.Keys !! table.Keys
    ensures Selected(table + added, refs) == Selected(table, refs)
  {
  }

  lemma RowsOf(view: Database, name: string, c: Change, m: string)
    requires m in view.routers && view.routers[m].routes <= view.routes.Keys
    requires forall u :: u in c.added ==> u !in view.routes
    ensures Selected(Effect(view, name, c).routes, Effect(view, name, c).routers[m].routes) ==
      if m == name then Updated(Attached(view, name), c.removed.Keys, c.added) else Attached(view, m)
  {
    hide Edited, Selected, Updated, Attached;
    AttachedIsSelected(view, m);
    if m == name {
      SelectedUpdated(view.routes, view.routers[m].routes, c.removed.Keys, c.added);
    } else {
      SelectedElsewhere(view.routes, view.routers[m].routes, c.added);
    }
  }

  lemma AttachedIsSelected(db: Database, m: string)
    requires m in db.routers
    ensures Attached(db, m) == Selected(db.routes, db.routers[m].routes)
  {
  }

  lemma ReferencedRows(e: Database, m: string)
    requires NothingDangles(e) && m in e.routers
    ensures Attached(Collect(e), m) == Selected(e.routes, e.routers[m].routes)
  {
    hide Collect;
    CollectKeepsReferenced(e);
  }

  lemma OwnedAfter(attached: map<Uuid, StaticRoute>, owner: string, removed: set<Uuid>, added: map<Uuid, StaticRoute>)
    requires forall u :: u in added ==> OwnerOf(added[u].ids) == owner
    ensures OwnedBy(Updated(attached, removed, added), owner) == Updated(OwnedBy(attached, owner), removed, added)
  {
    hide OwnerOf;
    var l, r := OwnedBy(Updated(attached, removed, added), owner), Updated(OwnedBy(attached, owner), removed, added);
    assert forall u :: u in l <==> u in r;
    assert forall u :: u in l ==> l[u] == r[u];
  }

  lemma ForeignAfter(attached: map<Uuid, StaticRoute>, owner: string, removed: set<Uuid>, added: map<Uuid, StaticRoute>)
    requires forall u :: u in removed ==> u in attached && OwnerOf(attached[u].ids) == owner
    requires forall u :: u in added ==> u !in attached && OwnerOf(added[u].ids) == owner
    ensures ForeignTo(Updated(attached, removed, added), owner) == ForeignTo(attached, owner)
  {
    hide OwnerOf;
    var l, r := ForeignTo(Updated(attached, removed, added), owner), ForeignTo(attached, owner);
    assert forall u :: u in l <==> u in r;
    assert forall u :: u in l ==> l[u] == r[u];
  }

  lemma TuplesUnique(view: Database, owner: string, port: string, sessions: map<string, Timers>, floor: Uuid, e: SessionEdit,
                     hops: map<string, Uuid>, u: Uuid, v: Uuid)
    requires SessionsFor(view, owner, port, sessions, floor, e, hops)
    requires forall x, y | x in view.sessions && y in view.sessions && SameTuple(view.sessions[x], view.sessions[y]) :: x == y
    requires u in Edited(view.sessions, e) && v in Edited(view.sessions, e) && SameTuple(Edited(view.sessions, e)[u], Edited(view.sessions, e)[v])
    ensures u == v
  {
    hide HasTimers, OwnerOf;
    if u in e.created {
      assert HopHandled(view, owner, port, sessions[e.created[u].dst], floor, e, e.created[u].dst, u);
    }
    if v in e.created {
      assert HopHandled(view, owner, port, sessions[e.created[v].dst], floor, e, e.created[v].dst, v);
    }
  }

  lemma RoutersStayDisjoint(view: Database, name: string, owner: string, c: Change, m: string, n: string)
    requires ValidDatabase(view) && RouteFacts(view, name, owner, c, Effect(view, name, c).sessions)
    requires m in view.routers && n in view.routers && m != n
    ensures Effect(view, name, c).routers[m].routes !! Effect(view, name, c).routers[n].routes
  {
    hide Edited, AddedRow, OwnedRow, Refers;
    EffectRouters(view, name, c);
    assert view.routers[m].routes <= view.routes.Keys && view.routers[n].routes <= view.routes.Keys;
  }

  lemma DatabaseStaysValid(view: Database, name: string, owner: string, port: string, plan: Plan, floor: Uuid, c: Change)
    requires ValidDatabase(view) && ChangeFor(view, name, owner, port, plan, floor, c)
    requires RouteFacts(view, name, owner, c, Effect(view, name, c).sessions)
    ensures ValidDatabase(Collect(Effect(view, name, c)))
  {
    hide SessionsFor, Realizes, Desired, Collect, RetiredFor, OwnedBy, Attached, Edited, RouteFacts;
    var e := Effect(view, name, c);
    var after := Collect(e);
    EffectDangles(view, name, owner, c);
    CollectKeepsReferenced(e);
    forall m, n | m in after.routers && n in after.routers && m != n
      ensures after.routers[m].routes !! after.routers[n].routes
    {
      RoutersStayDisjoint(view, name, owner, c, m, n);
    }
    forall u, v | u in after.sessions && v in after.sessions && SameTuple(after.sessions[u], after.sessions[v])
      ensures u == v
    {
      TuplesUnique(view, owner, port, plan.sessions, floor, c.edit, c.hops, u, v);
    }
  }

  /** On the database the change was computed from, every wait holds and the commit reconciles. */
  lemma ChangeReconciles(view: Database, name: string, owner: string, port: string, plan: Plan, floor: Uuid, c: Change)
    requires ValidDatabase(view) && NamesBelow(view, floor) && ValidPlan(plan)
    requires ChangeFor(view, name, owner, port, plan, floor, c)
    ensures Unused(view, c) && Holds(view, name, port, c)
    ensures Reconciled(view, Collect(Effect(view, name, c)), name, owner, port, plan, c.hops)
  {
    ChangeHolds(view, name, owner, port, plan, floor, c);
    hide SessionsFor, Desired, Realizes, ValidPlan, Collect, ValidDatabase, NamesBelow, SessionsSettled, OwnedBy, ForeignTo, RouteFacts, Edited, RetiredFor;
    var e := Effect(view, name, c);
    var after := Collect(e);
    RouteFactsHold(view, name, owner, port, plan, floor, c);
    EffectSessions(view, name, owner, port, plan, floor, c);
    EffectDangles(view, name, owner, c);
    CollectKeepsReferenced(e);
    EffectRouters(view, name, c);
    DatabaseStaysValid(view, name, owner, port, plan, floor, c);
    forall m | m in view.routers
      ensures Attached(after, m) == if m == name then Updated(Attached(view, name), c.removed.Keys, c.added) else Attached(view, m)
    {
      AttachedAfter(view, name, owner, c, m);
    }
    RowsAfter(view, name, owner, c);
    assert Attached(after, name) == Updated(Attached(view, name), c.removed.Keys, c.added);
    assert SessionsSettled(view, after, owner, port, plan, c.hops) by {
      SettledLooksAtSessions(view, e, after, owner, port, plan, c.hops);
    }
  }

  lemma SettledLooksAtSessions(before: Database, e: Database, after: Database, owner: string, port: string, plan: Plan, hops: map<string, Uuid>)
    requires SessionsSettled(before, e, owner, port, plan, hops) && after.sessions == e.sessions
    ensures SessionsSettled(before, after, owner, port, plan, hops)
  {
    hide Serves, OwnerOf;
  }

  lemma RowsAfter(view: Database, name: string, owner: string, c: Change)
    requires RouteFacts(view, name, owner, c, Effect(view, name, c).sessions)
    ensures var attached := Attached(view, name);
      && OwnedBy(Updated(attached, c.removed.Keys, c.added), owner) == Updated(OwnedBy(attached, owner), c.removed.Keys, c.added)
      && ForeignTo(Updated(attached, c.removed.Keys, c.added), owner) == ForeignTo(attached, owner)
    ensures name !in view.routers ==> c.added == map[] && c.removed == map[]
  {
    hide Effect, OwnedBy, ForeignTo, OwnerOf;
    OwnedAfter(Attached(view, name), owner, c.removed.Keys, c.added);
    ForeignAfter(Attached(view, name), owner, c.removed.Keys, c.added);
  }

  lemma ChangeHolds(view: Database, name: string, owner: string, port: string, plan: Plan, floor: Uuid, c: Change)
    requires NamesBelow(view, floor) && ChangeFor(view, name, owner, port, plan, floor, c)
    ensures Unused(view, c) && Holds(view, name, port, c)
  {
    hide Desired, Realizes, SessionsFor, TupleIs, TupleAbsent, OwnerOf;
    EditWaits(view, owner, port, plan.sessions, floor, c.edit, c.hops);
    forall u | u in c.edit.created ensures u !in view.sessions {
      EditOwned(view, owner, port, plan.sessions, floor, c.edit, c.hops, u);
    }
    forall u | u in c.removed ensures u in view.routes && view.routes[u].ids == c.removed[u] {
      assert u in OwnedBy(Attached(view, name), owner);
    }
  }
}
