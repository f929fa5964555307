/** The part of the OVN northbound database the destination-route controller reads and
    writes, the meaning of one OVSDB transaction over it (RFC 7047, section 5.2), and the
    forwarding decision its static routes stand for. */
module Northbound {
  import opened Wrappers
  import opened Ipv4

  type Uuid = nat

  const OWNER_KEY := "kube-ovn.io/destination-vpc-uid"

  datatype StaticRoute = StaticRoute(
    prefix: string, nexthop: string, table: string, policy: Option<string>, port: Option<string>,
    bfd: Option<Uuid>, ids: map<string, string>, fields: set<string>, options: map<string, string>)

  datatype Session = Session(
    port: string, dst: string, minRx: Option<int>, minTx: Option<int>, multiplier: Option<int>, ids: map<string, string>)

  datatype Port = Port(name: string, bfdOnly: bool, networks: seq<string>)

  datatype Router = Router(id: Uuid, ports: seq<Port>, routes: set<Uuid>)

  /** Policy rows are kept by the set of sessions each refers to. */
  datatype Database = Database(
    routers: map<string, Router>, routes: map<Uuid, StaticRoute>, sessions: map<Uuid, Session>, policies: map<Uuid, set<Uuid>>)

  function OwnerOf(ids: map<string, string>): (o: string) {
    if OWNER_KEY in ids then ids[OWNER_KEY] else ""
  }

  predicate SameTuple(s: Session, t: Session) {
    s.port == t.port && s.dst == t.dst
  }

  /** Every static route belongs to exactly one router, references to sessions are not dangling,
      and (logical_port, dst_ip) is a unique index of the BFD table. */
  ghost predicate ValidDatabase(db: Database) {
    && (forall n :: n in db.routers ==> db.routers[n].routes <= db.routes.Keys)
    && (forall u :: u in db.routes ==> exists n :: n in db.routers && u in db.routers[n].routes)
    && (forall m, n :: m in db.routers && n in db.routers && m != n ==> db.routers[m].routes !! db.routers[n].routes)
    && (forall u :: u in db.routes && db.routes[u].bfd.Some? ==> db.routes[u].bfd.value in db.sessions)
    && (forall p :: p in db.policies ==> db.policies[p] <= db.sessions.Keys)
    && (forall u, v | u in db.sessions && v in db.sessions && SameTuple(db.sessions[u], db.sessions[v]) :: u == v)
  }

  function Attached(db: Database, router: string): (rows: map<Uuid, StaticRoute>) {
    if router in db.routers then map u | u in db.routers[router].routes && u in db.routes :: db.routes[u] else map[]
  }

  function OwnedBy(rows: map<Uuid, StaticRoute>, owner: string): (r: map<Uuid, StaticRoute>) {
    map u | u in rows && OwnerOf(rows[u].ids) == owner :: rows[u]
  }

  function ForeignTo(rows: map<Uuid, StaticRoute>, owner: string): (r: map<Uuid, StaticRoute>) {
    map u | u in rows && OwnerOf(rows[u].ids) != owner :: rows[u]
  }

  // ---- Transactions ----

  datatype Op =
    | WaitRoutes(router: string, routerId: Uuid, refs: set<Uuid>)
    | WaitSessionAbsent(port: string, dst: string)
    | WaitSessionIs(port: string, dst: string, session: Uuid, ids: map<string, string>)
    | WaitSessionIds(session: Uuid, ids: map<string, string>)
    | WaitRouteIds(route: Uuid, ids: map<string, string>)
    | InsertSession(session: Uuid, sessionRow: Session)
    | SetTimers(session: Uuid, minRx: int, minTx: int, multiplier: int)
    | DeleteSession(session: Uuid)
    | InsertRoute(route: Uuid, routeRow: StaticRoute)
    | AddRoutes(router: string, refs: set<Uuid>)
    | RemoveRoutes(router: string, refs: set<Uuid>)
  {
    predicate IsWait() {
      WaitRoutes? || WaitSessionAbsent? || WaitSessionIs? || WaitSessionIds? || WaitRouteIds?
    }
  }

  predicate TupleAbsent(sessions: map<Uuid, Session>, port: string, dst: string) {
    forall u :: u in sessions ==> !(sessions[u].port == port && sessions[u].dst == dst)
  }

  predicate TupleIs(sessions: map<Uuid, Session>, port: string, dst: string, id: Uuid, ids: map<string, string>) {
    && id in sessions && sessions[id].port == port && sessions[id].dst == dst && sessions[id].ids == ids
    && forall u :: u in sessions && u != id ==> !(sessions[u].port == port && sessions[u].dst == dst)
  }

  function Retimed(s: Session, minRx: int, minTx: int, multiplier: int): (t: Session) {
    s.(minRx := Some(minRx), minTx := Some(minTx), multiplier := Some(multiplier))
  }

  /** One operation; None when a wait does not hold or the unique index is violated. */
  function Step(db: Database, op: Op): (r: Option<Database>) {
    match op
    case WaitRoutes(name, id, refs) =>
      if name in db.routers && db.routers[name].id == id && db.routers[name].routes == refs then Some(db) else None
    case WaitSessionAbsent(port, dst) =>
      if TupleAbsent(db.sessions, port, dst) then Some(db) else None
    case WaitSessionIs(port, dst, id, ids) =>
      if TupleIs(db.sessions, port, dst, id, ids) then Some(db) else None
    case WaitSessionIds(id, ids) =>
      if id in db.sessions && db.sessions[id].ids == ids then Some(db) else None
    case WaitRouteIds(id, ids) =>
      if id in db.routes && db.routes[id].ids == ids then Some(db) else None
    case InsertSession(id, row) =>
      if TupleAbsent(db.sessions, row.port, row.dst) then Some(db.(sessions := db.sessions[id := row])) else None
    case SetTimers(id, rx, tx, mult) =>
      Some(if id in db.sessions then db.(sessions := db.sessions[id := Retimed(db.sessions[id], rx, tx, mult)]) else db)
    case DeleteSession(id) =>
      Some(db.(sessions := db.sessions - {id}))
    case InsertRoute(id, row) =>
      Some(db.(routes := db.routes[id := row]))
    case AddRoutes(name, refs) =>
      Some(if name in db.routers
           then db.(routers := db.routers[name := db.routers[name].(routes := db.routers[name].routes + refs)]) else db)
    case RemoveRoutes(name, refs) =>
      Some(if name in db.routers
           then db.(routers := db.routers[name := db.routers[name].(routes := db.routers[name].routes - refs)]) else db)
  }

  function Run(db: Database, ops: seq<Op>): (r: Option<Database>) {
    if ops == [] then Some(db)
    else
      var before := Run(db, ops[..|ops| - 1]);
      if before.None? then None else Step(before.value, ops[|ops| - 1])
  }

  /** End of transaction: rows no router refers to vanish, and weak references to missing sessions are dropped. */
  function Collect(db: Database): (c: Database) {
    db.(
      routes := map u | u in db.routes && (exists n :: n in db.routers && u in db.routers[n].routes) ::
        if db.routes[u].bfd.Some? && db.routes[u].bfd.value !in db.sessions then db.routes[u].(bfd := None) else db.routes[u],
      policies := map p | p in db.policies :: set s | s in db.policies[p] && s in db.sessions)
  }

  /** All or nothing. */
  function Commit(db: Database, ops: seq<Op>): (c: Database) {
    var r := Run(db, ops);
    if r.Some? then Collect(r.value) else db
  }

  lemma {:induction false} RunAppend(db: Database, a: seq<Op>, b: seq<Op>)
    ensures Run(db, a + b) == var r := Run(db, a); if r.None? then None else Run(r.value, b)
  {
    if b == [] {
      assert a + b == a;
    } else {
      var front := b[..|b| - 1];
      assert (a + b)[..|a + b| - 1] == a + front;
      RunAppend(db, a, front);
    }
  }

  lemma RunOne(db: Database, op: Op)
    ensures Run(db, [op]) == Step(db, op)
  {
    assert [op][..0] == [];
    assert Run(db, []) == Some(db);
  }

  lemma {:induction false} WaitsChangeNothing(db: Database, ops: seq<Op>)
    requires forall i :: 0 <= i < |ops| ==> ops[i].IsWait()
    ensures Run(db, ops).Some? ==> Run(db, ops).value == db
  {
    if ops != [] {
      WaitsChangeNothing(db, ops[..|ops| - 1]);
    }
  }

  // ---- Forwarding ----

  /** Rows of the main table that route by destination. */
  predicate ByDestination(r: StaticRoute) {
    r.table == "" && (r.policy == None || r.policy == Some("dst-ip"))
  }

  /** The destination of a row: a prefix, or a bare host address. */
  function RoutePrefix(r: StaticRoute): (p: Option<Prefix>) {
    var p := ParsePrefix(r.prefix);
    if p.Some? then p
    else
      var host := ParseAddr(r.prefix);
      if host.Some? then Some(Prefix(host.value, 32)) else None
  }

  predicate Matches(r: StaticRoute, up: set<Uuid>, a: Addr) {
    && ByDestination(r)
    && RoutePrefix(r).Some? && RoutePrefix(r).value.Contains(a)
    && (r.bfd.Some? ==> r.bfd.value in up)
  }

  function Length(r: StaticRoute): (n: int) {
    if RoutePrefix(r).Some? then RoutePrefix(r).value.bits else 0
  }

  /** Longest-prefix match over the rows whose BFD session, if any, is up: the set of next hops
      traffic to this address is spread over; empty when no row matches. */
  ghost function Decision(rows: map<Uuid, StaticRoute>, up: set<Uuid>, a: Addr): (hops: set<string>) {
    set u | u in rows && Matches(rows[u], up, a)
            && (forall v :: v in rows && Matches(rows[v], up, a) ==> Length(rows[v]) <= Length(rows[u]))
          :: rows[u].nexthop
  }
}
