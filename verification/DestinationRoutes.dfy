/** ReconcileDestinationRoutes
    (integration/kube-ovn/overlay/pkg/ovs/ovn-nb-destination-route.go): compare the database with
    a plan, and commit the difference in one guarded transaction. */
module DestinationRoutes {
  import opened Wrappers
  import opened Ipv4
  import opened Ordering
  import opened DestinationPlan
  import opened Northbound
  import opened DestinationForwarding
  import opened DestinationChange
  import opened DestinationEmit
  import opened DestinationDiff

  datatype Refusal = OwnerMissing | RouterAbsent | BfdPortNotReady | GatewayUnreachable | OverlapsConnected
                   | ForeignRoute | SessionForeign | SessionInUse | TransactionFailed

  // ---- Preconditions read from the router ----

  /** Whether the last port of this name is dedicated to BFD. */
  function BfdReady(ports: seq<Port>, bfdPort: string): (ready: bool) {
    if ports == [] then false
    else
      var last := ports[|ports| - 1];
      if last.name == bfdPort then last.bfdOnly else BfdReady(ports[..|ports| - 1], bfdPort)
  }

  /** Networks of the ordinary ports. */
  function Connected(ports: seq<Port>, bfdPort: string): (networks: seq<string>) {
    if ports == [] then []
    else
      var last := ports[|ports| - 1];
      Connected(ports[..|ports| - 1], bfdPort) + if last.name == bfdPort || last.bfdOnly then [] else last.networks
  }

  method ReadPorts(ports: seq<Port>, bfdPort: string) returns (ready: bool, networks: seq<string>)
    ensures ready == BfdReady(ports, bfdPort) && networks == Connected(ports, bfdPort)
  {
    ready, networks := false, [];
    for i := 0 to |ports|
      invariant ready == BfdReady(ports[..i], bfdPort) && networks == Connected(ports[..i], bfdPort)
    {
      assert ports[..i + 1][..i] == ports[..i];
      if ports[i].name == bfdPort {
        ready := ports[i].bfdOnly;
        continue;
      }
      if !ports[i].bfdOnly {
        networks := networks + ports[i].networks;
      }
    }
    assert ports[..|ports|] == ports;
  }

  ghost predicate ClearOfNetworks(r: Intent, networks: seq<string>) {
    forall k :: 0 <= k < |networks| && ParsePrefix(networks[k]).Some? ==> !ParsePrefix(networks[k]).value.Overlaps(Destination(r.cidr))
  }

  method CheckConnected(r: Intent, networks: seq<string>) returns (clear: bool)
    ensures clear <==> ClearOfNetworks(r, networks)
  {
    hide ParsePrefix, Destination;
    var d := Destination(r.cidr);
    for k := 0 to |networks|
      invariant forall l :: 0 <= l < k && ParsePrefix(networks[l]).Some? ==> !ParsePrefix(networks[l]).value.Overlaps(d)
    {
      var p := ParsePrefix(networks[k]);
      if p.Some? && p.value.Overlaps(d) {
        return false;
      }
    }
    return true;
  }

  method CheckForeign(r: Intent, current: map<Uuid, StaticRoute>, owner: string) returns (clear: bool)
    ensures clear <==> forall u :: u in current && OwnerOf(current[u].ids) != owner ==> !Obstructs(current[u], Destination(r.cidr))
  {
    hide Destination, RoutePrefix, OwnerOf, Obstructs;
    var todo := current.Keys;
    while todo != {}
      invariant todo <= current.Keys
      invariant forall u :: u in current && u !in todo && OwnerOf(current[u].ids) != owner ==> !Obstructs(current[u], Destination(r.cidr))
    {
      var u :| u in todo;
      var mine := OwnerOf(current[u].ids) == owner;
      if !mine && Obstructs(current[u], Destination(r.cidr)) {
        return false;
      }
      todo := todo - {u};
    }
    return true;
  }

  /** All checks made before anything is planned. */
  ghost predicate Admissible(ports: seq<Port>, bfdPort: string, plan: Plan, current: map<Uuid, StaticRoute>, owner: string) {
    && BfdReady(ports, bfdPort)
    && (forall h :: h in plan.sessions ==> Reachable(h, Connected(ports, bfdPort)))
    && (forall r :: r in plan.routes ==> ClearOfNetworks(r, Connected(ports, bfdPort)))
    && Unobstructed(ForeignTo(current, owner), plan.routes)
  }

  method CheckPlan(ports: seq<Port>, bfdPort: string, plan: Plan, current: map<Uuid, StaticRoute>, owner: string)
    returns (refusal: Option<Refusal>)
    ensures refusal.None? <==> Admissible(ports, bfdPort, plan, current, owner)
    ensures refusal.Some? ==> refusal.value in {BfdPortNotReady, GatewayUnreachable, OverlapsConnected, ForeignRoute}
    ensures refusal == Some(BfdPortNotReady) <==> !BfdReady(ports, bfdPort)
  {
    hide Destination, Reachable, ClearOfNetworks, Obstructs, OwnerOf;
    var ready, networks := ReadPorts(ports, bfdPort);
    if !ready {
      return Some(BfdPortNotReady);
    }
    var hops := plan.sessions.Keys;
    while hops != {}
      invariant hops <= plan.sessions.Keys
      invariant forall h :: h in plan.sessions && h !in hops ==> Reachable(h, networks)
    {
      var h :| h in hops;
      var reachable := ReachableGateway(h, networks);
      if !reachable {
        return Some(GatewayUnreachable);
      }
      hops := hops - {h};
    }
    for i := 0 to |plan.routes|
      invariant forall k :: 0 <= k < i ==> ClearOfNetworks(plan.routes[k], networks)
      invariant forall k, u :: 0 <= k < i && u in current && OwnerOf(current[u].ids) != owner ==> !Obstructs(current[u], Destination(plan.routes[k].cidr))
    {
      assert plan.routes[i] in plan.routes;
      var clear := CheckConnected(plan.routes[i], networks);
      if !clear {
        return Some(OverlapsConnected);
      }
      var free := CheckForeign(plan.routes[i], current, owner);
      if !free {
        var u :| u in current && OwnerOf(current[u].ids) != owner && Obstructs(current[u], Destination(plan.routes[i].cidr));
        assert u in ForeignTo(current, owner);
        return Some(ForeignRoute);
      }
    }
    return None;
  }

  // ---- Sessions ----

  predicate Wants(s: Session, bfdPort: string, wanted: map<string, Timers>) {
    s.port == bfdPort && s.dst in wanted
  }

  /** Existing sessions of the wanted hops, by hop. */
  ghost predicate MatchedSessions(sessions: map<Uuid, Session>, seen: set<Uuid>, owner: string, bfdPort: string,
                                  wanted: map<string, Timers>, byHop: map<string, Uuid>) {
    && (forall u :: u in seen && u in sessions && Wants(sessions[u], bfdPort, wanted) ==>
          sessions[u].dst in byHop && byHop[sessions[u].dst] == u && OwnerOf(sessions[u].ids) == owner)
    && (forall h :: h in byHop ==> byHop[h] in seen && byHop[h] in sessions && Wants(sessions[byHop[h]], bfdPort, wanted) && sessions[byHop[h]].dst == h)
  }

  ghost predicate SessionsUsable(sessions: map<Uuid, Session>, owner: string, bfdPort: string, wanted: map<string, Timers>) {
    && (forall u :: u in sessions && Wants(sessions[u], bfdPort, wanted) ==> OwnerOf(sessions[u].ids) == owner)
    && (forall u, v :: u in sessions && v in sessions && Wants(sessions[u], bfdPort, wanted) && SameTuple(sessions[u], sessions[v]) ==> u == v)
  }

  method MatchSessions(sessions: map<Uuid, Session>, owner: string, bfdPort: string, wanted: map<string, Timers>)
    returns (byHop: Option<map<string, Uuid>>)
    ensures byHop.Some? <==> SessionsUsable(sessions, owner, bfdPort, wanted)
    ensures byHop.Some? ==> MatchedSessions(sessions, sessions.Keys, owner, bfdPort, wanted, byHop.value)
  {
    hide OwnerOf;
    var found: map<string, Uuid> := map[];
    var todo := sessions.Keys;
    ghost var seen: set<Uuid> := {};
    while todo != {}
      invariant todo <= sessions.Keys && seen == sessions.Keys - todo
      invariant MatchedSessions(sessions, seen, owner, bfdPort, wanted, found)
    {
      var u :| u in todo;
      var s := sessions[u];
      todo := todo - {u};
      if Wants(s, bfdPort, wanted) {
        if OwnerOf(s.ids) != owner || s.dst in found {
          assert s.dst in found ==> SameTuple(sessions[found[s.dst]], s) && found[s.dst] != u;
          return None;
        }
        found := found[s.dst := u];
      }
      seen := seen + {u};
    }
    assert seen == sessions.Keys;
    return Some(found);
  }

  /** Progress of the session edit over the hops already handled. */
  ghost predicate EditProgress(view: Database, owner: string, port: string, wanted: map<string, Timers>, floor: Uuid, next: Uuid,
                               done: set<string>, e: SessionEdit, hops: map<string, Uuid>) {
    && hops.Keys == done && done <= wanted.Keys
    && HopsHandled(view, owner, port, wanted, floor, e, hops)
    && EditFrame(view, floor, next, e, hops)
  }

  ghost predicate HopsHandled(view: Database, owner: string, port: string, wanted: map<string, Timers>, floor: Uuid,
                              e: SessionEdit, hops: map<string, Uuid>) {
    && (forall h, i :: h in hops && i in hops && hops[h] == hops[i] ==> h == i)
    && (forall h :: h in hops ==> h in wanted && HopHandled(view, owner, port, wanted[h], floor, e, h, hops[h]))
  }

  ghost predicate EditFrame(view: Database, floor: Uuid, next: Uuid, e: SessionEdit, hops: map<string, Uuid>) {
    && floor <= next
    && (forall u :: u in e.created ==> floor <= u < next && e.created[u].dst in hops && hops[e.created[u].dst] == u)
    && (forall h :: h in e.kept ==> h in hops && hops[h] == e.kept[h].id && e.kept[h].id in view.sessions)
    && (forall u :: u in e.retimed ==> RetimedKept(view, e, u))
  }

  /** One edit differs from another at most in one hop and its session. */
  ghost predicate Extends(e: SessionEdit, f: SessionEdit, h: string, id: Uuid) {
    && (forall l :: l != h ==> (l in f.kept <==> l in e.kept) && (l in e.kept ==> f.kept[l] == e.kept[l]))
    && (forall u :: u != id ==> (u in f.created <==> u in e.created) && (u in e.created ==> f.created[u] == e.created[u]))
    && (forall u :: u != id ==> (u in f.retimed <==> u in e.retimed) && (u in e.retimed ==> f.retimed[u] == e.retimed[u]))
  }

  lemma HandledId(view: Database, owner: string, port: string, t: Timers, floor: Uuid, e: SessionEdit, h: string, id: Uuid)
    requires HopHandled(view, owner, port, t, floor, e, h, id)
    ensures id in view.sessions ==> view.sessions[id].dst == h
    ensures id !in view.sessions ==> id in e.created && id >= floor
  {
    hide TupleAbsent, OwnerOf, HasTimers;
  }

  /** A hop already handled stays handled when another hop gets its session. */
  lemma OtherStays(view: Database, owner: string, port: string, t: Timers, floor: Uuid, e: SessionEdit, f: SessionEdit, k: string, i: Uuid,
                   h: string, id: Uuid)
    requires HopHandled(view, owner, port, t, floor, e, k, i) && k != h && id !in e.created && Extends(e, f, h, id)
    requires id in view.sessions ==> view.sessions[id].dst == h
    ensures i != id && HopHandled(view, owner, port, t, floor, f, k, i)
  {
    hide TupleAbsent, TupleIs, OwnerOf, HasTimers;
    HandledId(view, owner, port, t, floor, e, k, i);
  }

  lemma HandlesOneMore(view: Database, owner: string, port: string, wanted: map<string, Timers>, floor: Uuid,
                       e: SessionEdit, f: SessionEdit, hops: map<string, Uuid>, h: string, id: Uuid)
    requires HopsHandled(view, owner, port, wanted, floor, e, hops) && Extends(e, f, h, id) && h !in hops && h in wanted
    requires id !in e.created && (id in view.sessions ==> view.sessions[id].dst == h)
    requires HopHandled(view, owner, port, wanted[h], floor, f, h, id)
    ensures HopsHandled(view, owner, port, wanted, floor, f, hops[h := id])
  {
    hide Extends, HopHandled;
    forall k | k in hops ensures hops[k] != id && HopHandled(view, owner, port, wanted[k], floor, f, k, hops[k]) {
      OtherStays(view, owner, port, wanted[k], floor, e, f, k, hops[k], h, id);
    }
  }

  lemma CreatedFrame(view: Database, floor: Uuid, next: Uuid, e: SessionEdit, hops: map<string, Uuid>, h: string, row: Session)
    requires EditFrame(view, floor, next, e, hops) && h !in hops && row.dst == h
    ensures EditFrame(view, floor, next + 1, e.(created := e.created[next := row]), hops[h := next])
    ensures Extends(e, e.(created := e.created[next := row]), h, next)
    ensures next !in e.created && h !in e.kept && forall u :: u in e.created ==> e.created[u].dst != h
  {
    assert forall u :: u in e.retimed ==> RetimedKept(view, e, u);
  }

  lemma NewHandled(view: Database, owner: string, port: string, t: Timers, floor: Uuid, next: Uuid, e: SessionEdit, hops: map<string, Uuid>, h: string)
    requires NamesBelow(view, floor) && EditFrame(view, floor, next, e, hops) && h !in hops && TupleAbsent(view.sessions, port, h)
    ensures next !in e.retimed && next !in view.sessions
    ensures HopHandled(view, owner, port, t, floor, e.(created := e.created[next := NewSession(port, h, owner, t)]), h, next)
  {
    hide OwnerOf, HasTimers, TupleAbsent, TupleIs, NewSession;
    assert next in e.retimed ==> RetimedKept(view, e, next);
  }

  lemma CreateProgress(view: Database, owner: string, port: string, wanted: map<string, Timers>, floor: Uuid, next: Uuid,
                       done: set<string>, e: SessionEdit, hops: map<string, Uuid>, h: string)
    requires NamesBelow(view, floor) && EditProgress(view, owner, port, wanted, floor, next, done, e, hops)
    requires h in wanted && h !in done && TupleAbsent(view.sessions, port, h)
    ensures next !in e.created && next !in e.retimed && forall u :: u in e.created ==> e.created[u].dst != h
    ensures EditProgress(view, owner, port, wanted, floor, next + 1, done + {h},
                         e.(created := e.created[next := NewSession(port, h, owner, wanted[h])]), hops[h := next])
  {
    hide EditFrame, HopHandled, HopsHandled, TupleAbsent, NamesBelow, Extends;
    var row := NewSession(port, h, owner, wanted[h]);
    CreatedFrame(view, floor, next, e, hops, h, row);
    NewHandled(view, owner, port, wanted[h], floor, next, e, hops, h);
    HandlesOneMore(view, owner, port, wanted, floor, e, e.(created := e.created[next := row]), hops, h, next);
  }

  /** Keeping a session, and giving it new timers when they differ. */
  function KeepEdit(e: SessionEdit, h: string, id: Uuid, row: Session, t: Timers): (f: SessionEdit) {
    e.(kept := e.kept[h := Receipt(id, row.ids)], retimed := if HasTimers(row, t) then e.retimed else e.retimed[id := t])
  }

  lemma KeptFrame(view: Database, floor: Uuid, next: Uuid, e: SessionEdit, hops: map<string, Uuid>, h: string, id: Uuid, t: Timers)
    requires NamesBelow(view, floor) && EditFrame(view, floor, next, e, hops) && h !in hops && id in view.sessions && view.sessions[id].dst == h
    ensures EditFrame(view, floor, next, KeepEdit(e, h, id, view.sessions[id], t), hops[h := id])
    ensures Extends(e, KeepEdit(e, h, id, view.sessions[id], t), h, id)
    ensures h !in e.kept && id !in e.created && id !in e.retimed && forall u :: u in e.created ==> e.created[u].dst != h
  {
    hide HasTimers;
    assert forall u :: u in e.retimed ==> RetimedKept(view, e, u);
  }

  lemma KeptHandled(view: Database, owner: string, port: string, t: Timers, floor: Uuid, e: SessionEdit, h: string, id: Uuid)
    requires id in view.sessions && OwnerOf(view.sessions[id].ids) == owner && TupleIs(view.sessions, port, h, id, view.sessions[id].ids)
    requires h !in e.kept && id !in e.created && id !in e.retimed
    ensures view.sessions[id].dst == h && HopHandled(view, owner, port, t, floor, KeepEdit(e, h, id, view.sessions[id], t), h, id)
  {
    hide OwnerOf, HasTimers;
  }

  lemma KeepProgress(view: Database, owner: string, port: string, wanted: map<string, Timers>, floor: Uuid, next: Uuid,
                     done: set<string>, e: SessionEdit, hops: map<string, Uuid>, h: string, id: Uuid)
    requires NamesBelow(view, floor) && EditProgress(view, owner, port, wanted, floor, next, done, e, hops)
    requires h in wanted && h !in done && id in view.sessions && OwnerOf(view.sessions[id].ids) == owner
    requires TupleIs(view.sessions, port, h, id, view.sessions[id].ids)
    ensures h !in e.kept && id !in e.created && id !in e.retimed && forall u :: u in e.created ==> e.created[u].dst != h
    ensures EditProgress(view, owner, port, wanted, floor, next, done + {h}, KeepEdit(e, h, id, view.sessions[id], wanted[h]), hops[h := id])
  {
    assert view.sessions[id].dst == h;
    hide EditFrame, HopHandled, HopsHandled, TupleIs, NamesBelow, Extends, OwnerOf, KeepEdit;
    KeptFrame(view, floor, next, e, hops, h, id, wanted[h]);
    KeptHandled(view, owner, port, wanted[h], floor, e, h, id);
    HandlesOneMore(view, owner, port, wanted, floor, e, KeepEdit(e, h, id, view.sessions[id], wanted[h]), hops, h, id);
  }

  ghost predicate AllWaits(ops: seq<Op>) {
    forall i :: 0 <= i < |ops| ==> ops[i].IsWait()
  }

  lemma AllWaitsAppend(a: seq<Op>, b: seq<Op>)
    ensures AllWaits(a + b) <==> AllWaits(a) && AllWaits(b)
  {
    if AllWaits(a + b) {
      assert forall i :: 0 <= i < |a| ==> a[i] == (a + b)[i];
      assert forall i :: 0 <= i < |b| ==> b[i] == (a + b)[|a| + i];
    }
  }

  ghost predicate SessionsUnwritten(e: SessionEdit) {
    e.created == map[] && e.retimed == map[]
  }

  /** A hop without a session gets a new one, guarded by the absence of its tuple. */
  method CreateHop(view: Database, owner: string, port: string, wanted: map<string, Timers>, floor: Uuid,
                   ops: seq<Op>, hops: map<string, Uuid>, next: Uuid, h: string,
                   ghost done: set<string>, ghost e: SessionEdit) returns (more: seq<Op>, ghost f: SessionEdit)
    requires NamesBelow(view, floor) && EditProgress(view, owner, port, wanted, floor, next, done, e, hops)
    requires h in wanted && h !in done && TupleAbsent(view.sessions, port, h) && EmitsEdit(ops, port, e)
    ensures EditProgress(view, owner, port, wanted, floor, next + 1, done + {h}, f, hops[h := next]) && EmitsEdit(more, port, f)
    ensures !AllWaits(more) && !SessionsUnwritten(f)
  {
    hide EmitsEdit, TupleAbsent, HopHandled, NamesBelow, EditProgress;
    var row := NewSession(port, h, owner, wanted[h]);
    CreateProgress(view, owner, port, wanted, floor, next, done, e, hops, h);
    EmitCreate(ops, port, e, next, row);
    more := ops + [WaitSessionAbsent(port, h), InsertSession(next, row)];
    f := e.(created := e.created[next := row]);
    assert more[|more| - 1].InsertSession? && next in f.created;
  }

  /** A hop with a session keeps it, guarded by its identity, with new timers when they differ. */
  method KeepHop(view: Database, owner: string, port: string, wanted: map<string, Timers>, floor: Uuid,
                 ops: seq<Op>, hops: map<string, Uuid>, next: Uuid, h: string, id: Uuid,
                 ghost done: set<string>, ghost e: SessionEdit) returns (more: seq<Op>, ghost f: SessionEdit)
    requires NamesBelow(view, floor) && EditProgress(view, owner, port, wanted, floor, next, done, e, hops)
    requires h in wanted && h !in done && id in view.sessions && OwnerOf(view.sessions[id].ids) == owner
    requires TupleIs(view.sessions, port, h, id, view.sessions[id].ids) && EmitsEdit(ops, port, e)
    ensures EditProgress(view, owner, port, wanted, floor, next, done + {h}, f, hops[h := id]) && EmitsEdit(more, port, f)
    ensures (AllWaits(ops) <==> SessionsUnwritten(e)) ==> (AllWaits(more) <==> SessionsUnwritten(f))
  {
    hide EmitsEdit, TupleIs, HopHandled, NamesBelow, EditProgress, OwnerOf;
    var row, t := view.sessions[id], wanted[h];
    var same := HasTimers(row, t);
    KeepProgress(view, owner, port, wanted, floor, next, done, e, hops, h, id);
    EmitKeep(ops, port, e, h, Receipt(id, row.ids));
    AllWaitsAppend(ops, [WaitSessionIs(port, h, id, row.ids)]);
    more := ops + [WaitSessionIs(port, h, id, row.ids)];
    f := e.(kept := e.kept[h := Receipt(id, row.ids)]);
    if !same {
      EmitRetime(more, port, f, h, t);
      more := more + [WaitSessionIds(id, row.ids), SetTimers(id, t.minRx, t.minTx, t.multiplier)];
      f := f.(retimed := f.retimed[id := t]);
      assert more[|more| - 1].SetTimers? && id in f.retimed;
    }
  }

  lemma EditComplete(view: Database, owner: string, port: string, wanted: map<string, Timers>, floor: Uuid, next: Uuid,
                     e: SessionEdit, hops: map<string, Uuid>)
    requires EditProgress(view, owner, port, wanted, floor, next, wanted.Keys, e, hops)
    ensures SessionsFor(view, owner, port, wanted, floor, e, hops)
    ensures next >= floor && forall u :: u in e.created ==> u < next
  {
    hide HopHandled, RetimedKept;
  }

  lemma EditStart(view: Database, owner: string, port: string, wanted: map<string, Timers>, floor: Uuid)
    ensures EditProgress(view, owner, port, wanted, floor, floor, {}, SessionEdit(map[], map[], map[]), map[])
    ensures EmitsEdit([], port, SessionEdit(map[], map[], map[]))
    ensures AllWaits([]) && SessionsUnwritten(SessionEdit(map[], map[], map[]))
  {
    NoEdit(port);
  }

  /** The operations that give every hop its session. */
  method EditSessions(view: Database, owner: string, port: string, wanted: map<string, Timers>, byHop: map<string, Uuid>, floor: Uuid)
    returns (ops: seq<Op>, hops: map<string, Uuid>, next: Uuid, ghost e: SessionEdit)
    requires NamesBelow(view, floor) && MatchedSessions(view.sessions, view.sessions.Keys, owner, port, wanted, byHop)
    ensures SessionsFor(view, owner, port, wanted, floor, e, hops) && EmitsEdit(ops, port, e)
    ensures next >= floor && forall u :: u in e.created ==> u < next
    ensures AllWaits(ops) <==> SessionsUnwritten(e)
  {
    hide EmitsEdit, TupleAbsent, TupleIs, OwnerOf, HopHandled, MatchedSessions, NamesBelow, EditProgress, AllWaits, SessionsUnwritten, SessionsFor;
    ops, hops, next, e := [], map[], floor, SessionEdit(map[], map[], map[]);
    EditStart(view, owner, port, wanted, floor);
    var todo := wanted.Keys;
    ghost var done: set<string> := {};
    while todo != {}
      invariant todo <= wanted.Keys && done == wanted.Keys - todo
      invariant EditProgress(view, owner, port, wanted, floor, next, done, e, hops)
      invariant EmitsEdit(ops, port, e)
      invariant AllWaits(ops) <==> SessionsUnwritten(e)
    {
      var h :| h in todo;
      if h !in byHop {
        UnmatchedAbsent(view, owner, port, wanted, byHop, h);
        ops, e := CreateHop(view, owner, port, wanted, floor, ops, hops, next, h, done, e);
        hops, next := hops[h := next], next + 1;
      } else {
        MatchedIs(view, owner, port, wanted, byHop, h);
        ops, e := KeepHop(view, owner, port, wanted, floor, ops, hops, next, h, byHop[h], done, e);
        hops := hops[h := byHop[h]];
      }
      done := done + {h};
      todo := todo - {h};
    }
    assert done == wanted.Keys;
    EditComplete(view, owner, port, wanted, floor, next, e, hops);
  }

  lemma UnmatchedAbsent(view: Database, owner: string, port: string, wanted: map<string, Timers>, byHop: map<string, Uuid>, h: string)
    requires MatchedSessions(view.sessions, view.sessions.Keys, owner, port, wanted, byHop) && h in wanted && h !in byHop
    ensures TupleAbsent(view.sessions, port, h)
  {
  }

  lemma MatchedIs(view: Database, owner: string, port: string, wanted: map<string, Timers>, byHop: map<string, Uuid>, h: string)
    requires MatchedSessions(view.sessions, view.sessions.Keys, owner, port, wanted, byHop) && h in byHop
    ensures byHop[h] in view.sessions && OwnerOf(view.sessions[byHop[h]].ids) == owner
    ensures TupleIs(view.sessions, port, h, byHop[h], view.sessions[byHop[h]].ids)
  {
  }

  // ---- Obsolete sessions ----

  predicate InUse(view: Database, u: Uuid, removed: set<Uuid>) {
    || (exists r :: r in view.routes && view.routes[r].bfd == Some(u) && r !in removed)
    || (exists p :: p in view.policies && u in view.policies[p])
  }

  predicate Leftover(view: Database, owner: string, wanted: set<Uuid>, u: Uuid) {
    u in view.sessions && OwnerOf(view.sessions[u].ids) == owner && u !in wanted
  }

  ghost predicate RetiresSeen(view: Database, owner: string, wanted: set<Uuid>, removed: set<Uuid>, seen: set<Uuid>,
                              retired: map<Uuid, map<string, string>>) {
    && (forall u :: u in retired <==> u in seen && Leftover(view, owner, wanted, u))
    && (forall u :: u in retired ==> retired[u] == view.sessions[u].ids && !InUse(view, u, removed))
  }

  /** Deletes the owner's sessions no hop uses, unless another consumer refers to one of them. */
  method RetireSessions(view: Database, owner: string, wanted: set<Uuid>, removed: set<Uuid>)
    returns (ops: Option<seq<Op>>, ghost retired: map<Uuid, map<string, string>>)
    ensures ops.Some? <==> forall u :: Leftover(view, owner, wanted, u) ==> !InUse(view, u, removed)
    ensures ops.Some? ==> RetiresSeen(view, owner, wanted, removed, view.sessions.Keys, retired)
    ensures ops.Some? ==> EmitsRetirement(ops.value, retired) && (AllWaits(ops.value) <==> retired == map[])
  {
    var out: seq<Op> := [];
    retired := map[];
    NoRetirement();
    hide EmitsRetirement, InUse, OwnerOf;
    var todo := view.sessions.Keys;
    ghost var seen: set<Uuid> := {};
    while todo != {}
      invariant todo <= view.sessions.Keys && seen == view.sessions.Keys - todo
      invariant RetiresSeen(view, owner, wanted, removed, seen, retired)
      invariant EmitsRetirement(out, retired) && (AllWaits(out) <==> retired == map[])
    {
      var u :| u in todo;
      todo := todo - {u};
      var ids := view.sessions[u].ids;
      if OwnerOf(ids) == owner && u !in wanted {
        var used := InUse(view, u, removed);
        if used {
          assert Leftover(view, owner, wanted, u);
          return None, retired;
        }
        EmitRetire(out, retired, u, ids);
        out := out + [WaitSessionIds(u, ids), DeleteSession(u)];
        retired := retired[u := ids];
        assert u in retired && out[|out| - 1].DeleteSession?;
      }
      seen := seen + {u};
    }
    assert seen == view.sessions.Keys;
    return Some(out), retired;
  }

  // ---- When a plan is carried out ----

  /** A session of this owner that no hop of the plan uses. */
  predicate Obsolete(s: Session, owner: string, port: string, wanted: map<string, Timers>) {
    OwnerOf(s.ids) == owner && !Wants(s, port, wanted)
  }

  /** Some row other than the owner's rows on this router, or some policy, refers to the session. */
  ghost predicate Consumed(view: Database, name: string, owner: string, u: Uuid) {
    InUse(view, u, OwnedBy(Attached(view, name), owner).Keys)
  }

  /** Exactly the databases and plans the controller acts on. */
  ghost predicate Accepts(view: Database, name: string, owner: string, port: string, plan: Plan) {
    && owner != ""
    && (plan.routes != [] ==> name in view.routers && Admissible(view.routers[name].ports, port, plan, Attached(view, name), owner))
    && SessionsUsable(view.sessions, owner, port, plan.sessions)
    && forall u :: u in view.sessions && Obsolete(view.sessions[u], owner, port, plan.sessions) ==> !Consumed(view, name, owner, u)
  }

  /** Each refusal names a condition that really fails, in the order they are checked. */
  ghost predicate Explains(refusal: Refusal, view: Database, name: string, owner: string, port: string, plan: Plan) {
    match refusal
    case OwnerMissing => owner == ""
    case RouterAbsent => owner != "" && name !in view.routers && plan.routes != []
    case SessionForeign => owner != "" && !SessionsUsable(view.sessions, owner, port, plan.sessions)
    case SessionInUse =>
      && SessionsUsable(view.sessions, owner, port, plan.sessions)
      && exists u :: u in view.sessions && Obsolete(view.sessions[u], owner, port, plan.sessions) && Consumed(view, name, owner, u)
    case TransactionFailed => false
    case _ =>
      owner != "" && name in view.routers && !Admissible(view.routers[name].ports, port, plan, Attached(view, name), owner)
  }

  /** The sessions not chosen for any hop are the obsolete ones. */
  lemma LeftoverIsObsolete(view: Database, owner: string, port: string, wanted: map<string, Timers>, floor: Uuid, e: SessionEdit,
                           hops: map<string, Uuid>, u: Uuid)
    requires NamesBelow(view, floor) && SessionsUsable(view.sessions, owner, port, wanted)
    requires SessionsFor(view, owner, port, wanted, floor, e, hops) && u in view.sessions
    ensures Leftover(view, owner, hops.Values, u) <==> Obsolete(view.sessions[u], owner, port, wanted)
  {
    hide OwnerOf, HasTimers;
    var h := view.sessions[u].dst;
    assert h in hops ==> HopHandled(view, owner, port, wanted[h], floor, e, h, hops[h]);
    if u in hops.Values {
      var g :| g in hops && hops[g] == u;
      assert HopHandled(view, owner, port, wanted[g], floor, e, g, u);
    }
  }

  /** A row that refers to an unchosen session is not a desired one, so the owner's such rows are all removed. */
  lemma StaleRowsRemoved(view: Database, name: string, owner: string, plan: Plan, hops: map<string, Uuid>, floor: Uuid,
                         removed: map<Uuid, map<string, string>>, added: map<Uuid, StaticRoute>, u: Uuid)
    requires ValidPlan(plan) && hops.Keys == plan.sessions.Keys && u !in hops.Values && NamesBelow(view, floor)
    requires RoutesFor(OwnedBy(Attached(view, name), owner), Desired(plan.routes, owner, hops), floor, removed, added)
    ensures InUse(view, u, removed.Keys) <==> Consumed(view, name, owner, u)
  {
    hide Desired, ValidPlan, OwnerOf;
    var owned := OwnedBy(Attached(view, name), owner);
    var after := Updated(owned, removed.Keys, added);
    forall r | r in owned && owned[r].bfd == Some(u) ensures r in removed {
      if r !in removed {
        assert after[r] == owned[r] && after[r] in after.Values;
        DesiredSession(plan, owner, hops, owned[r]);
      }
    }
    assert forall r :: r in removed ==> r in owned;
    assert forall r :: r in owned ==> r in view.routes && owned[r] == view.routes[r];
  }

  // ---- The transaction ----

  /** What planning returns: operations whose effect on every database is the change's. */
  ghost predicate Carries(ops: seq<Op>, name: string, port: string, c: Change) {
    && (forall db: Database | Unused(db, c) :: Run(db, ops) == if Holds(db, name, port, c) then Some(Effect(db, name, c)) else None)
    && (AllWaits(ops) <==> Writeless(c))
  }

  lemma Assemble(name: string, port: string, c: Change, edits: seq<Op>, waits: seq<Op>, inserts: seq<Op>, retires: seq<Op>)
    requires c.retired.Keys !! c.edit.created.Keys
    requires EmitsEdit(edits, port, c.edit) && (AllWaits(edits) <==> SessionsUnwritten(c.edit))
    requires EmitsRouteWaits(waits, c.removed) && AllWaits(waits)
    requires EmitsInserts(inserts, c.added) && (AllWaits(inserts) <==> c.added == map[])
    requires EmitsRetirement(retires, c.retired) && (AllWaits(retires) <==> c.retired == map[])
    ensures Carries(RouterWait(name, c.router) + ((edits + (waits + inserts)) + (RouterEdit(name, c.removed.Keys, c.added.Keys) + retires)),
                    name, port, c)
  {
    hide EmitsEdit, EmitsRouteWaits, EmitsInserts, EmitsRetirement, Effect, Holds, AllWaits;
    var edit := RouterEdit(name, c.removed.Keys, c.added.Keys);
    forall db: Database | Unused(db, c)
      ensures Run(db, RouterWait(name, c.router) + ((edits + (waits + inserts)) + (edit + retires)))
              == if Holds(db, name, port, c) then Some(Effect(db, name, c)) else None
    {
      TransactionRuns(db, name, port, c, edits, waits, inserts, retires);
    }
    AllWaitsAppend(RouterWait(name, c.router), (edits + (waits + inserts)) + (edit + retires));
    AllWaitsAppend(edits + (waits + inserts), edit + retires);
    AllWaitsAppend(edits, waits + inserts);
    AllWaitsAppend(waits, inserts);
    AllWaitsAppend(edit, retires);
    EditWaitsOnly(name, c.router, c.removed.Keys, c.added.Keys);
    assert c.removed.Keys == {} <==> c.removed == map[];
    assert c.added.Keys == {} <==> c.added == map[];
  }

  lemma EditWaitsOnly(name: string, router: Option<Router>, removed: set<Uuid>, added: set<Uuid>)
    ensures AllWaits(RouterWait(name, router))
    ensures AllWaits(RouterEdit(name, removed, added)) <==> removed == {} && added == {}
  {
    var ops := RouterEdit(name, removed, added);
    if ops != [] {
      assert !ops[0].IsWait();
    }
  }

  lemma LaterFloor(owned: map<Uuid, StaticRoute>, desired: set<StaticRoute>, floor: Uuid, next: Uuid,
                   removed: map<Uuid, map<string, string>>, added: map<Uuid, StaticRoute>)
    requires RoutesFor(owned, desired, next, removed, added) && floor <= next
    ensures RoutesFor(owned, desired, floor, removed, added)
  {
    hide Realizes, Updated;
  }

  /** The route part of the transaction: waits for the rows that go, inserts for the rows that are missing. */
  method PlanRoutes(view: Database, name: string, owner: string, plan: Plan, hops: map<string, Uuid>, floor: Uuid, next: Uuid)
    returns (waits: seq<Op>, inserts: seq<Op>, removed: map<Uuid, map<string, string>>, added: map<Uuid, StaticRoute>)
    requires NamesBelow(view, floor) && floor <= next && ValidPlan(plan)
    ensures RoutesFor(OwnedBy(Attached(view, name), owner), Desired(plan.routes, owner, hops), floor, removed, added)
    ensures EmitsRouteWaits(waits, removed) && AllWaits(waits)
    ensures EmitsInserts(inserts, added) && (AllWaits(inserts) <==> added == map[])
  {
    hide EmitsRouteWaits, EmitsInserts, Realizes, OwnerOf, Desired, RoutesFor, Key, InsertProgress;
    ghost var owned := OwnedBy(Attached(view, name), owner);
    ghost var desired := Desired(plan.routes, owner, hops);
    var table := BuildDesired(plan.routes, owner, hops);
    var missing;
    ghost var stays, names, last;
    waits, removed, missing, stays := DiffRoutes(Attached(view, name), owner, table, desired);
    inserts, added, names, last := InsertRoutes(missing, next);
    DiffReconciles(owned, desired, table, Attached(view, name).Keys, next, last, removed, missing, stays, added, names);
    LaterFloor(owned, desired, floor, next, removed, added);
    assert inserts != [] ==> !inserts[0].IsWait();
  }

  lemma RetiresAll(view: Database, name: string, owner: string, port: string, plan: Plan, floor: Uuid, c: Change)
    requires ValidPlan(plan) && NamesBelow(view, floor) && SessionsUsable(view.sessions, owner, port, plan.sessions)
    requires SessionsFor(view, owner, port, plan.sessions, floor, c.edit, c.hops)
    requires RoutesFor(OwnedBy(Attached(view, name), owner), Desired(plan.routes, owner, c.hops), floor, c.removed, c.added)
    ensures (forall u :: Leftover(view, owner, c.hops.Values, u) ==> !InUse(view, u, c.removed.Keys)) <==>
            forall u :: u in view.sessions && Obsolete(view.sessions[u], owner, port, plan.sessions) ==> !Consumed(view, name, owner, u)
  {
    hide Obsolete, Consumed, InUse, SessionsUsable, SessionsFor, RoutesFor, ValidPlan, NamesBelow, Desired, OwnedBy, Attached;
    SessionsForHops(view, owner, port, plan.sessions, floor, c.edit, c.hops);
    forall u | u in view.sessions
      ensures Leftover(view, owner, c.hops.Values, u) <==> Obsolete(view.sessions[u], owner, port, plan.sessions)
      ensures Leftover(view, owner, c.hops.Values, u) ==> (InUse(view, u, c.removed.Keys) <==> Consumed(view, name, owner, u))
    {
      LeftoverIsObsolete(view, owner, port, plan.sessions, floor, c.edit, c.hops, u);
      if Leftover(view, owner, c.hops.Values, u) {
        StaleRowsRemoved(view, name, owner, plan, c.hops, floor, c.removed, c.added, u);
      }
    }
  }

  lemma RetiresSeenAll(view: Database, owner: string, hops: map<string, Uuid>, removed: set<Uuid>, retired: map<Uuid, map<string, string>>)
    requires RetiresSeen(view, owner, hops.Values, removed, view.sessions.Keys, retired)
    ensures RetiredFor(view, owner, hops, removed, retired) && retired.Keys <= view.sessions.Keys
  {
  }

  lemma CreatedIsNew(view: Database, owner: string, port: string, wanted: map<string, Timers>, floor: Uuid, e: SessionEdit, hops: map<string, Uuid>)
    requires SessionsFor(view, owner, port, wanted, floor, e, hops)
    ensures forall u :: u in e.created ==> u !in view.sessions
  {
    hide SessionsFor;
    forall u | u in e.created ensures u !in view.sessions {
      EditOwned(view, owner, port, wanted, floor, e, hops, u);
    }
  }

  lemma NoRoutesNoRouter(view: Database, name: string, owner: string, plan: Plan, hops: map<string, Uuid>, floor: Uuid,
                         removed: map<Uuid, map<string, string>>, added: map<Uuid, StaticRoute>)
    requires name !in view.routers && plan.routes == []
    requires RoutesFor(OwnedBy(Attached(view, name), owner), Desired(plan.routes, owner, hops), floor, removed, added)
    ensures removed == map[] && added == map[]
  {
    assert OwnedBy(Attached(view, name), owner) == map[];
    assert Desired([], owner, hops) == {};
    assert Realizes(map[], {});
  }

  /** Computes the guarded transaction for a plan from one reading of the database. */
  method PlanTransaction(view: Database, name: string, owner: string, port: string, plan: Plan, floor: Uuid)
    returns (result: Result<seq<Op>, Refusal>, ghost c: Change)
    requires NamesBelow(view, floor) && ValidPlan(plan)
    ensures result.Ok? <==> Accepts(view, name, owner, port, plan)
    ensures result.Err? ==> Explains(result.error, view, name, owner, port, plan)
    ensures result.Ok? ==> ChangeFor(view, name, owner, port, plan, floor, c) && Carries(result.value, name, port, c)
  {
    c := Change(None, SessionEdit(map[], map[], map[]), map[], map[], map[], map[]);
    hide EmitsEdit, EmitsRouteWaits, EmitsInserts, EmitsRetirement, Realizes, OwnerOf, OwnedBy, Desired, RoutesFor, SessionsFor,
      NamesBelow, ValidPlan, Admissible, SessionsUsable, MatchedSessions, Consumed, Obsolete, InUse, Leftover,
      RetiresSeen, RetiredFor, AllWaits, Carries, SessionsUnwritten;
    if owner == "" {
      return Err(OwnerMissing), c;
    }
    var router := if name in view.routers then Some(view.routers[name]) else None;
    if router.None? && plan.routes != [] {
      return Err(RouterAbsent), c;
    }
    if router.Some? && plan.routes != [] {
      var refusal := CheckPlan(router.value.ports, port, plan, Attached(view, name), owner);
      if refusal.Some? {
        return Err(refusal.value), c;
      }
    }
    var byHop := MatchSessions(view.sessions, owner, port, plan.sessions);
    if byHop.None? {
      return Err(SessionForeign), c;
    }
    var edits, hops, next;
    ghost var e;
    edits, hops, next, e := EditSessions(view, owner, port, plan.sessions, byHop.value, floor);
    var waits, inserts, removed, added := PlanRoutes(view, name, owner, plan, hops, floor, next);
    var retires;
    ghost var retired;
    retires, retired := RetireSessions(view, owner, hops.Values, removed.Keys);
    c := Change(router, e, hops, removed, added, retired);
    RetiresAll(view, name, owner, port, plan, floor, c);
    if retires.None? {
      return Err(SessionInUse), c;
    }
    var ops := RouterWait(name, router) + ((edits + (waits + inserts)) + (RouterEdit(name, removed.Keys, added.Keys) + retires.value));
    RetiresSeenAll(view, owner, hops, removed.Keys, retired);
    if router.None? {
      NoRoutesNoRouter(view, name, owner, plan, hops, floor, removed, added);
    }
    assert c.retired.Keys !! c.edit.created.Keys by {
      CreatedIsNew(view, owner, port, plan.sessions, floor, e, hops);
    }
    Assemble(name, port, c, edits, waits, inserts, retires.value);
    return Ok(ops), c;
  }
}
