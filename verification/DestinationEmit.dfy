/** Emitting the operations of a destination-route transaction: each group of operations is
    shown to have exactly the effect the change names, whatever database it meets. */
module DestinationEmit {
  import opened Wrappers
  import opened DestinationPlan
  import opened Northbound
  import opened DestinationForwarding
  import opened DestinationChange

  // ---- Sessions ----

  ghost predicate EmitsEdit(ops: seq<Op>, port: string, e: SessionEdit) {
    forall db: Database | e.created.Keys !! db.sessions.Keys ::
      Run(db, ops) == if EditHolds(db.sessions, port, e) then Some(db.(sessions := Edited(db.sessions, e))) else None
  }

  lemma RunTwo(db: Database, ops: seq<Op>, first: Op, second: Op)
    ensures Run(db, ops + [first, second]) ==
      var r := Run(db, ops);
      if r.None? || Step(r.value, first).None? then None else Step(Step(r.value, first).value, second)
  {
    assert ops + [first, second] == (ops + [first]) + [second];
    assert (ops + [first] + [second])[..|ops| + 1] == ops + [first];
    assert (ops + [first])[..|ops|] == ops;
  }

  lemma RunThen(db: Database, ops: seq<Op>, next: Op)
    ensures Run(db, ops + [next]) == var r := Run(db, ops); if r.None? then None else Step(r.value, next)
  {
    assert (ops + [next])[..|ops|] == ops;
  }

  /** Pending edits never touch the tuple of a hop they do not name. */
  lemma TupleUnaffected(sessions: map<Uuid, Session>, e: SessionEdit, port: string, h: string)
    requires e.created.Keys !! sessions.Keys && forall u :: u in e.created ==> e.created[u].dst != h
    ensures TupleAbsent(Edited(sessions, e), port, h) <==> TupleAbsent(sessions, port, h)
    ensures forall id, ids :: id !in e.created ==> (TupleIs(Edited(sessions, e), port, h, id, ids) <==> TupleIs(sessions, port, h, id, ids))
  {
    var after := Edited(sessions, e);
    assert forall u :: u in sessions ==> u in after && after[u].port == sessions[u].port && after[u].dst == sessions[u].dst && after[u].ids == sessions[u].ids;
    assert forall u :: u in after && u !in sessions ==> after[u].dst != h;
  }

  lemma EditedCreate(sessions: map<Uuid, Session>, e: SessionEdit, id: Uuid, row: Session)
    requires id !in sessions && id !in e.retimed
    ensures Edited(sessions, e.(created := e.created[id := row])) == Edited(sessions, e)[id := row]
  {
    var l, r := Edited(sessions, e.(created := e.created[id := row])), Edited(sessions, e)[id := row];
    assert forall u :: u in l <==> u in r;
    assert forall u :: u in l ==> l[u] == r[u];
  }

  lemma HoldsCreate(sessions: map<Uuid, Session>, port: string, e: SessionEdit, id: Uuid, row: Session)
    requires id !in e.created
    ensures EditHolds(sessions, port, e.(created := e.created[id := row])) <==>
            EditHolds(sessions, port, e) && TupleAbsent(sessions, row.port, row.dst)
  {
    hide TupleAbsent, TupleIs;
    var f := e.(created := e.created[id := row]);
    assert id in f.created && f.created[id] == row;
    assert forall u :: u in e.created ==> u in f.created && f.created[u] == e.created[u];
  }

  lemma HoldsKeep(sessions: map<Uuid, Session>, port: string, e: SessionEdit, h: string, r: Receipt)
    requires h !in e.kept
    ensures EditHolds(sessions, port, e.(kept := e.kept[h := r])) <==>
            EditHolds(sessions, port, e) && TupleIs(sessions, port, h, r.id, r.ids)
  {
    hide TupleAbsent, TupleIs;
    var f := e.(kept := e.kept[h := r]);
    assert h in f.kept && f.kept[h] == r;
    assert forall u :: u in e.kept ==> u in f.kept && f.kept[u] == e.kept[u];
  }

  lemma EmitCreate(ops: seq<Op>, port: string, e: SessionEdit, id: Uuid, row: Session)
    requires EmitsEdit(ops, port, e) && row.port == port && id !in e.retimed && id !in e.created
    requires forall u :: u in e.created ==> e.created[u].dst != row.dst
    ensures EmitsEdit(ops + [WaitSessionAbsent(port, row.dst), InsertSession(id, row)], port, e.(created := e.created[id := row]))
  {
    hide Edited, TupleAbsent, TupleIs, EditHolds;
    var f := e.(created := e.created[id := row]);
    var more := ops + [WaitSessionAbsent(port, row.dst), InsertSession(id, row)];
    forall db: Database | f.created.Keys !! db.sessions.Keys
      ensures Run(db, more) == if EditHolds(db.sessions, port, f) then Some(db.(sessions := Edited(db.sessions, f))) else None
    {
      assert id in f.created;
      assert e.created.Keys !! db.sessions.Keys;
      RunTwo(db, ops, WaitSessionAbsent(port, row.dst), InsertSession(id, row));
      TupleUnaffected(db.sessions, e, port, row.dst);
      EditedCreate(db.sessions, e, id, row);
      HoldsCreate(db.sessions, port, e, id, row);
    }
  }

  lemma EmitKeep(ops: seq<Op>, port: string, e: SessionEdit, h: string, r: Receipt)
    requires EmitsEdit(ops, port, e) && h !in e.kept && r.id !in e.created
    requires forall u :: u in e.created ==> e.created[u].dst != h
    ensures EmitsEdit(ops + [WaitSessionIs(port, h, r.id, r.ids)], port, e.(kept := e.kept[h := r]))
  {
    hide TupleAbsent, TupleIs, EditHolds;
    var f := e.(kept := e.kept[h := r]);
    forall db: Database | f.created.Keys !! db.sessions.Keys
      ensures Run(db, ops + [WaitSessionIs(port, h, r.id, r.ids)]) == if EditHolds(db.sessions, port, f) then Some(db.(sessions := Edited(db.sessions, f))) else None
    {
      RunThen(db, ops, WaitSessionIs(port, h, r.id, r.ids));
      TupleUnaffected(db.sessions, e, port, h);
      assert Edited(db.sessions, f) == Edited(db.sessions, e);
      HoldsKeep(db.sessions, port, e, h, r);
    }
  }

  lemma EditedRetime(sessions: map<Uuid, Session>, e: SessionEdit, id: Uuid, t: Timers)
    requires id in sessions && id !in e.created && id !in e.retimed
    ensures id in Edited(sessions, e) && Edited(sessions, e)[id] == sessions[id]
    ensures Edited(sessions, e.(retimed := e.retimed[id := t])) == Edited(sessions, e)[id := Retimed(sessions[id], t.minRx, t.minTx, t.multiplier)]
  {
    var l, r := Edited(sessions, e.(retimed := e.retimed[id := t])), Edited(sessions, e)[id := Retimed(sessions[id], t.minRx, t.minTx, t.multiplier)];
    assert forall u :: u in l <==> u in r;
    assert forall u :: u in l ==> l[u] == r[u];
  }

  lemma HoldsRetimed(sessions: map<Uuid, Session>, port: string, e: SessionEdit, h: string, f: SessionEdit)
    requires h in e.kept && f.kept == e.kept && f.created == e.created
    ensures EditHolds(sessions, port, e) <==> EditHolds(sessions, port, f)
    ensures EditHolds(sessions, port, e) ==> e.kept[h].id in sessions && sessions[e.kept[h].id].ids == e.kept[h].ids
  {
    hide TupleAbsent;
  }

  lemma EmitRetime(ops: seq<Op>, port: string, e: SessionEdit, h: string, t: Timers)
    requires EmitsEdit(ops, port, e) && h in e.kept && e.kept[h].id !in e.created && e.kept[h].id !in e.retimed
    ensures EmitsEdit(ops + [WaitSessionIds(e.kept[h].id, e.kept[h].ids), SetTimers(e.kept[h].id, t.minRx, t.minTx, t.multiplier)],
                      port, e.(retimed := e.retimed[e.kept[h].id := t]))
  {
    hide Edited, EditHolds, TupleAbsent, TupleIs, Retimed;
    var id, ids := e.kept[h].id, e.kept[h].ids;
    var f := e.(retimed := e.retimed[id := t]);
    forall db: Database | f.created.Keys !! db.sessions.Keys
      ensures Run(db, ops + [WaitSessionIds(id, ids), SetTimers(id, t.minRx, t.minTx, t.multiplier)])
              == if EditHolds(db.sessions, port, f) then Some(db.(sessions := Edited(db.sessions, f))) else None
    {
      RunTwo(db, ops, WaitSessionIds(id, ids), SetTimers(id, t.minRx, t.minTx, t.multiplier));
      HoldsRetimed(db.sessions, port, e, h, f);
      if EditHolds(db.sessions, port, e) {
        EditedRetime(db.sessions, e, id, t);
      }
    }
  }

  // ---- Routes ----

  ghost predicate RouteIdsHold(routes: map<Uuid, StaticRoute>, removed: map<Uuid, map<string, string>>) {
    forall u :: u in removed ==> u in routes && routes[u].ids == removed[u]
  }

  ghost predicate EmitsRouteWaits(ops: seq<Op>, removed: map<Uuid, map<string, string>>) {
    forall db: Database :: Run(db, ops) == if RouteIdsHold(db.routes, removed) then Some(db) else None
  }

  lemma EmitRouteWait(ops: seq<Op>, removed: map<Uuid, map<string, string>>, u: Uuid, ids: map<string, string>)
    requires EmitsRouteWaits(ops, removed) && u !in removed
    ensures EmitsRouteWaits(ops + [WaitRouteIds(u, ids)], removed[u := ids])
  {
    forall db: Database
      ensures Run(db, ops + [WaitRouteIds(u, ids)]) == if RouteIdsHold(db.routes, removed[u := ids]) then Some(db) else None
    {
      RunThen(db, ops, WaitRouteIds(u, ids));
    }
  }

  ghost predicate EmitsInserts(ops: seq<Op>, added: map<Uuid, StaticRoute>) {
    forall db: Database :: Run(db, ops) == Some(db.(routes := db.routes + added))
  }

  lemma PlusUpdate(a: map<Uuid, StaticRoute>, b: map<Uuid, StaticRoute>, u: Uuid, row: StaticRoute)
    ensures (a + b)[u := row] == a + b[u := row]
  {
    var l, r := (a + b)[u := row], a + b[u := row];
    assert forall v :: v in l <==> v in r;
    assert forall v :: v in l ==> l[v] == r[v];
  }

  lemma EmitInsert(ops: seq<Op>, added: map<Uuid, StaticRoute>, u: Uuid, row: StaticRoute)
    requires EmitsInserts(ops, added) && u !in added
    ensures EmitsInserts(ops + [InsertRoute(u, row)], added[u := row])
  {
    forall db: Database
      ensures Run(db, ops + [InsertRoute(u, row)]) == Some(db.(routes := db.routes + added[u := row]))
    {
      RunThen(db, ops, InsertRoute(u, row));
      PlusUpdate(db.routes, added, u, row);
    }
  }

  // ---- Obsolete sessions ----

  ghost predicate SessionIdsHold(sessions: map<Uuid, Session>, retired: map<Uuid, map<string, string>>) {
    forall u :: u in retired ==> u in sessions && sessions[u].ids == retired[u]
  }

  ghost predicate EmitsRetirement(ops: seq<Op>, retired: map<Uuid, map<string, string>>) {
    forall db: Database ::
      Run(db, ops) == if SessionIdsHold(db.sessions, retired) then Some(db.(sessions := db.sessions - retired.Keys)) else None
  }

  lemma MinusOne(s: map<Uuid, Session>, gone: set<Uuid>, u: Uuid)
    ensures s - gone - {u} == s - (gone + {u})
  {
    assert (s - gone - {u}).Keys == (s - (gone + {u})).Keys;
  }

  lemma IdsHoldMore(sessions: map<Uuid, Session>, retired: map<Uuid, map<string, string>>, u: Uuid, ids: map<string, string>)
    requires u !in retired
    ensures SessionIdsHold(sessions, retired[u := ids]) <==>
            SessionIdsHold(sessions, retired) && u in sessions && sessions[u].ids == ids
  {
    var more := retired[u := ids];
    assert u in more && forall v :: v in retired ==> v in more && more[v] == retired[v];
  }

  lemma EmitRetire(ops: seq<Op>, retired: map<Uuid, map<string, string>>, u: Uuid, ids: map<string, string>)
    requires EmitsRetirement(ops, retired) && u !in retired
    ensures EmitsRetirement(ops + [WaitSessionIds(u, ids), DeleteSession(u)], retired[u := ids])
  {
    hide SessionIdsHold;
    forall db: Database
      ensures Run(db, ops + [WaitSessionIds(u, ids), DeleteSession(u)])
              == if SessionIdsHold(db.sessions, retired[u := ids]) then Some(db.(sessions := db.sessions - retired[u := ids].Keys)) else None
    {
      RunTwo(db, ops, WaitSessionIds(u, ids), DeleteSession(u));
      IdsHoldMore(db.sessions, retired, u, ids);
      MinusOne(db.sessions, retired.Keys, u);
      assert retired[u := ids].Keys == retired.Keys + {u};
    }
  }

  lemma NothingEdited(s: map<Uuid, Session>)
    ensures Edited(s, SessionEdit(map[], map[], map[])) == s
  {
  }

  lemma NoEdit(port: string)
    ensures EmitsEdit([], port, SessionEdit(map[], map[], map[]))
  {
    hide Edited;
    forall db: Database ensures db.(sessions := Edited(db.sessions, SessionEdit(map[], map[], map[]))) == db {
      NothingEdited(db.sessions);
    }
  }

  lemma NoInsert()
    ensures EmitsInserts([], map[])
  {
    forall db: Database ensures db.(routes := db.routes + map[]) == db {
      assert db.routes + map[] == db.routes;
    }
  }

  lemma NoRetirement()
    ensures EmitsRetirement([], map[])
  {
    forall db: Database ensures db.(sessions := db.sessions - {}) == db {
      assert db.sessions - {} == db.sessions;
    }
    var none: map<Uuid, map<string, string>> := map[];
    assert none.Keys == {};
  }

  lemma NoRouteWait()
    ensures EmitsRouteWaits([], map[])
  {
  }

  // ---- The whole transaction ----

  function RouterWait(name: string, router: Option<Router>): (ops: seq<Op>) {
    if router.Some? then [WaitRoutes(name, router.value.id, router.value.routes)] else []
  }

  function RouterEdit(name: string, removed: set<Uuid>, added: set<Uuid>): (ops: seq<Op>) {
    (if removed != {} then [RemoveRoutes(name, removed)] else []) + (if added != {} then [AddRoutes(name, added)] else [])
  }

  lemma RouterWaitRuns(db: Database, name: string, router: Option<Router>)
    ensures Run(db, RouterWait(name, router)) ==
      if router.Some? && !(name in db.routers && db.routers[name].id == router.value.id && db.routers[name].routes == router.value.routes)
      then None else Some(db)
  {
    if router.Some? {
      RunOne(db, WaitRoutes(name, router.value.id, router.value.routes));
    }
  }

  function RouterUpdated(db: Database, name: string, removed: set<Uuid>, added: set<Uuid>): (d: Database) {
    if name in db.routers then db.(routers := db.routers[name := db.routers[name].(routes := db.routers[name].routes - removed + added)]) else db
  }

  lemma RouterEditRuns(db: Database, name: string, removed: set<Uuid>, added: set<Uuid>)
    ensures Run(db, RouterEdit(name, removed, added)) == Some(RouterUpdated(db, name, removed, added))
  {
    var a := if removed != {} then [RemoveRoutes(name, removed)] else [];
    var b := if added != {} then [AddRoutes(name, added)] else [];
    RunAppend(db, a, b);
    RunOne(db, RemoveRoutes(name, removed));
    var mid := RouterUpdated(db, name, removed, {});
    NoRefs(db, name);
    NoRefs(mid, name);
    assert Run(db, a) == Some(mid);
    RunOne(mid, AddRoutes(name, added));
    assert Run(mid, b) == Some(RouterUpdated(mid, name, {}, added));
    if name in db.routers {
      assert db.routers[name].routes - removed + {} - {} + added == db.routers[name].routes - removed + added;
      assert mid.routers == db.routers[name := mid.routers[name]];
      var last := mid.routers[name].(routes := mid.routers[name].routes - {} + added);
      assert db.routers[name := mid.routers[name]][name := last] == db.routers[name := last];
    }
  }

  lemma NoRefs(db: Database, name: string)
    ensures RouterUpdated(db, name, {}, {}) == db
    ensures forall refs :: name in db.routers ==> db.routers[name].routes - refs + {} == db.routers[name].routes - refs
    ensures forall refs :: name in db.routers ==> db.routers[name].routes - {} + refs == db.routers[name].routes + refs
  {
    if name in db.routers {
      assert db.routers[name].routes - {} + {} == db.routers[name].routes;
      assert db.routers[name := db.routers[name]] == db.routers;
    }
  }

  lemma RetireAfterEdit(sessions: map<Uuid, Session>, e: SessionEdit, retired: map<Uuid, map<string, string>>)
    requires retired.Keys !! e.created.Keys
    ensures SessionIdsHold(Edited(sessions, e), retired) <==> SessionIdsHold(sessions, retired)
  {
    assert forall u :: u in retired ==> (u in Edited(sessions, e) <==> u in sessions);
    assert forall u :: u in retired && u in sessions ==> Edited(sessions, e)[u].ids == sessions[u].ids;
  }

  lemma FirstStages(db: Database, port: string, e: SessionEdit, removed: map<Uuid, map<string, string>>, added: map<Uuid, StaticRoute>,
                    edits: seq<Op>, waits: seq<Op>, inserts: seq<Op>)
    requires e.created.Keys !! db.sessions.Keys
    requires EmitsEdit(edits, port, e) && EmitsRouteWaits(waits, removed) && EmitsInserts(inserts, added)
    ensures Run(db, edits + (waits + inserts)) ==
      if EditHolds(db.sessions, port, e) && RouteIdsHold(db.routes, removed)
      then Some(db.(sessions := Edited(db.sessions, e), routes := db.routes + added)) else None
  {
    hide Edited, EditHolds, RouteIdsHold;
    RunAppend(db, edits, waits + inserts);
    if Run(db, edits).Some? {
      var d := db.(sessions := Edited(db.sessions, e));
      assert Run(db, edits) == Some(d);
      RunAppend(d, waits, inserts);
    }
  }

  /** The emitted sequence commits exactly when every wait holds, and then has exactly the named effect. */
  lemma TransactionRuns(db: Database, name: string, port: string, c: Change,
                        edits: seq<Op>, waits: seq<Op>, inserts: seq<Op>, retires: seq<Op>)
    requires Unused(db, c) && c.retired.Keys !! c.edit.created.Keys
    requires EmitsEdit(edits, port, c.edit) && EmitsRouteWaits(waits, c.removed)
    requires EmitsInserts(inserts, c.added) && EmitsRetirement(retires, c.retired)
    ensures Run(db, RouterWait(name, c.router) + ((edits + (waits + inserts)) + (RouterEdit(name, c.removed.Keys, c.added.Keys) + retires)))
            == if Holds(db, name, port, c) then Some(Effect(db, name, c)) else None
  {
    hide Edited, EditHolds, RouterWait, RouterEdit, EmitsEdit, EmitsInserts, EmitsRouteWaits;
    var edit := RouterEdit(name, c.removed.Keys, c.added.Keys);
    var front := edits + (waits + inserts);
    RunAppend(db, RouterWait(name, c.router), front + (edit + retires));
    RouterWaitRuns(db, name, c.router);
    RunAppend(db, front, edit + retires);
    FirstStages(db, port, c.edit, c.removed, c.added, edits, waits, inserts);
    if Run(db, front).Some? {
      var d := db.(sessions := Edited(db.sessions, c.edit), routes := db.routes + c.added);
      RunAppend(d, edit, retires);
      RouterEditRuns(d, name, c.removed.Keys, c.added.Keys);
    }
    RetireAfterEdit(db.sessions, c.edit, c.retired);
  }
}
