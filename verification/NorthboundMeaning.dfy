/** What one database operation requires and changes, what a commit leaves, and where traffic goes, in rows and columns
    (RFC 7047, section 5.2; integration/kube-ovn/overlay/pkg/ovs/ovn-nb-destination-route.go). */
module NorthboundMeaning {
  import opened Wrappers
  import opened Ipv4
  import opened Northbound
  import DestinationMeaning

  // ---- Operations ----

  predicate OnTuple(sessions: map<Uuid, Session>, u: Uuid, port: string, dst: string) {
    u in sessions && sessions[u].port == port && sessions[u].dst == dst
  }

  /** A wait holds exactly for a database of which it says the truth, and changes nothing. */
  lemma WaitsMean(db: Database, op: Op)
    requires op.IsWait()
    ensures var r := Step(db, op);
      && (r.Some? ==> r.value == db)
      && (r.Some? <==> match op
           case WaitRoutes(name, id, refs) => name in db.routers && db.routers[name].id == id && db.routers[name].routes == refs
           case WaitSessionAbsent(port, dst) => forall u :: !OnTuple(db.sessions, u, port, dst)
           case WaitSessionIs(port, dst, id, ids) =>
             OnTuple(db.sessions, id, port, dst) && db.sessions[id].ids == ids && forall u :: OnTuple(db.sessions, u, port, dst) ==> u == id
           case WaitSessionIds(id, ids) => id in db.sessions && db.sessions[id].ids == ids
           case WaitRouteIds(id, ids) => id in db.routes && db.routes[id].ids == ids
           case _ => false)
  {
    if op.WaitSessionAbsent? || op.WaitSessionIs? {
      TuplesMean(db.sessions, op.port, op.dst);
    }
  }

  /** Every operation waits or writes. */
  lemma KindsMean(op: Op)
    ensures op.IsWait() <==>
            !(op.InsertSession? || op.SetTimers? || op.DeleteSession? || op.InsertRoute? || op.AddRoutes? || op.RemoveRoutes?)
  {
  }

  lemma TuplesMean(sessions: map<Uuid, Session>, port: string, dst: string)
    ensures forall u :: OnTuple(sessions, u, port, dst) <==> u in sessions && sessions[u].port == port && sessions[u].dst == dst
  {
  }

  /** Writes to the BFD table: a session is inserted only where its tuple has none; the others always succeed. */
  lemma SessionWritesMean(db: Database, id: Uuid, row: Session, rx: int, tx: int, mult: int)
    ensures Step(db, InsertSession(id, row)) ==
            if exists u :: OnTuple(db.sessions, u, row.port, row.dst) then None
            else Some(Database(db.routers, db.routes, db.sessions[id := row], db.policies))
    ensures Step(db, SetTimers(id, rx, tx, mult)) ==
            Some(if id !in db.sessions then db
                 else
                   var s := db.sessions[id];
                   Database(db.routers, db.routes, db.sessions[id := Session(s.port, s.dst, Some(rx), Some(tx), Some(mult), s.ids)], db.policies))
    ensures Step(db, DeleteSession(id)) == Some(Database(db.routers, db.routes, db.sessions - {id}, db.policies))
  {
    if u :| OnTuple(db.sessions, u, row.port, row.dst) {
      assert !TupleAbsent(db.sessions, row.port, row.dst);
    }
    if !TupleAbsent(db.sessions, row.port, row.dst) {
      var u :| u in db.sessions && db.sessions[u].port == row.port && db.sessions[u].dst == row.dst;
      assert OnTuple(db.sessions, u, row.port, row.dst);
    }
  }

  /** Writes to routes and routers. */
  lemma RouteWritesMean(db: Database, id: Uuid, row: StaticRoute, name: string, refs: set<Uuid>)
    ensures Step(db, InsertRoute(id, row)) == Some(Database(db.routers, db.routes[id := row], db.sessions, db.policies))
    ensures var r := Step(db, AddRoutes(name, refs));
      r == Some(if name !in db.routers then db
                else Database(db.routers[name := Router(db.routers[name].id, db.routers[name].ports, db.routers[name].routes + refs)], db.routes, db.sessions, db.policies))
    ensures var r := Step(db, RemoveRoutes(name, refs));
      r == Some(if name !in db.routers then db
                else Database(db.routers[name := Router(db.routers[name].id, db.routers[name].ports, db.routers[name].routes - refs)], db.routes, db.sessions, db.policies))
  {
  }

  /** A transaction that fails leaves everything as it was; one that succeeds drops the routes no router refers to and the
      references to sessions that are gone. */
  lemma CommitMeans(db: Database, ops: seq<Op>)
    ensures var r, c := Run(db, ops), Commit(db, ops);
      && (r.None? ==> c == db)
      && (r.Some? ==>
            && c.routers == r.value.routers && c.sessions == r.value.sessions && c.policies.Keys == r.value.policies.Keys
            && (forall u :: u in c.routes <==> u in r.value.routes && exists n :: n in r.value.routers && u in r.value.routers[n].routes)
            && (forall u :: u in c.routes ==>
                  var row := r.value.routes[u];
                  c.routes[u] == StaticRoute(row.prefix, row.nexthop, row.table, row.policy, row.port,
                                             if row.bfd.Some? && row.bfd.value in r.value.sessions then row.bfd else None, row.ids, row.fields, row.options))
            && forall p, s :: p in c.policies ==> (s in c.policies[p] <==> s in r.value.policies[p] && s in r.value.sessions))
  {
    hide Step, Run;
  }

  // ---- Rows ----

  /** The rows of a router, and whose they are. */
  lemma RowsMean(db: Database, name: string, owner: string, u: Uuid)
    ensures var rows := Attached(db, name);
      && (u in rows <==> name in db.routers && u in db.routers[name].routes && u in db.routes)
      && (u in rows ==> rows[u] == db.routes[u])
      && (owner != "" ==> (u in OwnedBy(rows, owner) <==> u in rows && DestinationMeaning.Of(rows[u].ids, owner)))
      && (owner != "" ==> (u in ForeignTo(rows, owner) <==> u in rows && !DestinationMeaning.Of(rows[u].ids, owner)))
      && (u in OwnedBy(rows, owner) ==> OwnedBy(rows, owner)[u] == rows[u]) && (u in ForeignTo(rows, owner) ==> ForeignTo(rows, owner)[u] == rows[u])
  {
  }

  // ---- Forwarding ----

  /** The row takes traffic to the address: it is in the main table, routes by destination to a prefix around it, and has no
      session or one that is up. */
  ghost predicate Takes(row: StaticRoute, up: set<Uuid>, a: Addr, bits: int) {
    && row.table == "" && (row.policy.None? || row.policy == Some("dst-ip")) && (row.bfd.Some? ==> row.bfd.value in up)
    && exists p: Prefix :: DestinationMeaning.LeadsTo(row, p) && p.Contains(a) && p.bits == bits
  }

  lemma TakesMeans(row: StaticRoute, up: set<Uuid>, a: Addr, bits: int)
    ensures Takes(row, up, a, bits) <==> Matches(row, up, a) && Length(row) == bits
  {
    hide RoutePrefix, DestinationMeaning.LeadsTo;
    forall p: Prefix ensures DestinationMeaning.LeadsTo(row, p) <==> RoutePrefix(row) == Some(p) {
      DestinationMeaning.LeadsMeans(row, p);
    }
  }

  /** Traffic goes to the next hop of every row that takes it with the longest prefix. */
  lemma DecisionMeans(rows: map<Uuid, StaticRoute>, up: set<Uuid>, a: Addr, hop: string)
    ensures hop in Decision(rows, up, a) <==>
            exists u, n :: u in rows && rows[u].nexthop == hop && Takes(rows[u], up, a, n) && forall v, m :: v in rows && Takes(rows[v], up, a, m) ==> m <= n
  {
    hide Matches, Length, Takes;
    forall row, n ensures Takes(row, up, a, n) <==> Matches(row, up, a) && Length(row) == n {
      TakesMeans(row, up, a, n);
    }
    if hop in Decision(rows, up, a) {
      var u :| u in rows && rows[u].nexthop == hop && Matches(rows[u], up, a) && forall v :: v in rows && Matches(rows[v], up, a) ==> Length(rows[v]) <= Length(rows[u]);
      assert Takes(rows[u], up, a, Length(rows[u]));
    }
    if u, n :| u in rows && rows[u].nexthop == hop && Takes(rows[u], up, a, n) && forall v, m :: v in rows && Takes(rows[v], up, a, m) ==> m <= n {
      forall v | v in rows && Matches(rows[v], up, a) ensures Length(rows[v]) <= Length(rows[u]) {
        assert Takes(rows[v], up, a, Length(rows[v]));
      }
    }
  }
}
