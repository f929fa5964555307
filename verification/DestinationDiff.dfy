/** Building the desired rows of a plan, comparing them with the rows present, and emitting the
    difference (integration/kube-ovn/overlay/pkg/ovs/ovn-nb-destination-route.go). */
module DestinationDiff {
  import opened Wrappers
  import opened Ipv4
  import opened Ordering
  import opened DestinationPlan
  import opened Northbound
  import opened DestinationForwarding
  import opened DestinationChange
  import opened DestinationEmit

  /** The key rows are compared under. */
  function Key(row: StaticRoute): (key: string) {
    row.prefix + ("|" + row.nexthop)
  }

  ghost predicate KeyedApart(rows: set<StaticRoute>) {
    forall x, y :: x in rows && y in rows && Key(x) == Key(y) ==> x == y
  }

  lemma NoBar(p: Prefix)
    ensures '|' !in PrefixText(p)
  {
    hide Octet;
  }

  /** The one intent a desired row serves, and how much longer than its destination it is. */
  ghost predicate Serving(row: StaticRoute, r: Intent, owner: string, sessions: map<string, Uuid>, extra: int) {
    && ParsePrefix(row.prefix).Some? && ParsePrefix(row.prefix).value.bits == Destination(r.cidr).bits + extra
    && Destination(r.cidr).Contains(ParsePrefix(row.prefix).value.addr)
    && row == if extra == 0 then Guard(r, owner) else Child(r, row.prefix, row.nexthop, owner, SessionOf(sessions, row.nexthop))
  }

  lemma GuardServes(r: Intent, owner: string, sessions: map<string, Uuid>)
    requires GoodDestination(r.cidr)
    ensures Serving(Guard(r, owner), r, owner, sessions, 0)
  {
    hide ParsePrefix;
  }

  lemma ChildServes(r: Intent, t: string, h: string, owner: string, sessions: map<string, Uuid>)
    requires GoodDestination(r.cidr) && t in ChildTexts(r.cidr)
    ensures Serving(Child(r, t, h, owner, SessionOf(sessions, h)), r, owner, sessions, 1)
  {
    hide ParsePrefix, Destination, GoodDestination, ChildTexts, SessionOf;
    var row := Child(r, t, h, owner, SessionOf(sessions, h));
    ChildPrefix(r, h, owner, SessionOf(sessions, h), 0);
    ChildPrefix(r, h, owner, SessionOf(sessions, h), ParsePrefix(t).value.addr);
    assert row.prefix == t && row.nexthop == h;
  }

  lemma DesiredServes(routes: seq<Intent>, owner: string, sessions: map<string, Uuid>, row: StaticRoute)
    returns (r: Intent, extra: int)
    requires Acceptable(routes) && row in Desired(routes, owner, sessions)
    ensures r in routes && 0 <= extra <= 1 && Serving(row, r, owner, sessions, extra)
  {
    AllDestinationsGood(routes);
    hide GoodIntent, Acceptable, GoodDestination, Destination, ParsePrefix, ChildTexts, Serving, Guard, Child, SessionOf;
    if r0 :| r0 in routes && row == Guard(r0, owner) {
      r, extra := r0, 0;
      GuardServes(r, owner, sessions);
    } else {
      var r1, t, h :| r1 in routes && t in ChildTexts(r1.cidr) && h in r1.nextHops && row == Child(r1, t, h, owner, SessionOf(sessions, h));
      r, extra := r1, 1;
      ChildServes(r, t, h, owner, sessions);
    }
  }

  /** The key identifies a desired row, so filling a table by key loses none. */
  lemma KeyIdentifies(routes: seq<Intent>, owner: string, sessions: map<string, Uuid>)
    requires Acceptable(routes)
    ensures KeyedApart(Desired(routes, owner, sessions))
  {
    hide Acceptable, Desired, Destination, ParsePrefix;
    forall x, y | x in Desired(routes, owner, sessions) && y in Desired(routes, owner, sessions) && Key(x) == Key(y)
      ensures x == y
    {
      var r, m := DesiredServes(routes, owner, sessions, x);
      var s, n := DesiredServes(routes, owner, sessions, y);
      NoBar(ParsePrefix(x.prefix).value);
      NoBar(ParsePrefix(y.prefix).value);
      SplitInjective(x.prefix, x.nexthop, y.prefix, y.nexthop, '|');
      OneDestination(routes, r, s, ParsePrefix(x.prefix).value.addr);
    }
  }

  // ---- The table of desired rows ----

  ghost predicate Tabulates(table: map<string, StaticRoute>, rows: set<StaticRoute>) {
    && (forall k :: k in table ==> table[k] in rows && Key(table[k]) == k)
    && (forall row :: row in rows ==> Key(row) in table && table[Key(row)] == row)
  }

  lemma TabulateOne(table: map<string, StaticRoute>, rows: set<StaticRoute>, row: StaticRoute, all: set<StaticRoute>)
    requires Tabulates(table, rows) && rows <= all && row in all && KeyedApart(all)
    ensures Tabulates(table[Key(row) := row], rows + {row})
  {
    hide Key;
  }

  ghost predicate HasChildren(rows: set<StaticRoute>, r: Intent, texts: seq<string>, hops: seq<string>, owner: string, sessions: map<string, Uuid>) {
    forall t, h :: t in texts && h in hops ==> Child(r, t, h, owner, SessionOf(sessions, h)) in rows
  }

  ghost predicate Complete(rows: set<StaticRoute>, r: Intent, owner: string, sessions: map<string, Uuid>) {
    Guard(r, owner) in rows && HasChildren(rows, r, ChildTexts(r.cidr), r.nextHops, owner, sessions)
  }

  lemma CompleteIsDesired(rows: set<StaticRoute>, routes: seq<Intent>, owner: string, sessions: map<string, Uuid>)
    requires rows <= Desired(routes, owner, sessions)
    requires forall k :: 0 <= k < |routes| ==> Complete(rows, routes[k], owner, sessions)
    ensures rows == Desired(routes, owner, sessions)
  {
    hide ChildTexts;
    forall row | row in Desired(routes, owner, sessions) ensures row in rows {
      if r :| r in routes && row == Guard(r, owner) {
        assert Complete(rows, r, owner, sessions);
      } else {
        var r, t, h :| r in routes && t in ChildTexts(r.cidr) && h in r.nextHops && row == Child(r, t, h, owner, SessionOf(sessions, h));
        assert Complete(rows, r, owner, sessions);
      }
    }
  }

  lemma CompleteGrows(rows: set<StaticRoute>, more: set<StaticRoute>, r: Intent, owner: string, sessions: map<string, Uuid>)
    requires Complete(rows, r, owner, sessions) && rows <= more
    ensures Complete(more, r, owner, sessions)
  {
    hide ChildTexts;
  }

  /** The rows of one child prefix, one per hop. */
  method AddChildRows(r: Intent, text: string, owner: string, sessions: map<string, Uuid>,
                      table: map<string, StaticRoute>, ghost rows: set<StaticRoute>, ghost all: set<StaticRoute>)
    returns (filled: map<string, StaticRoute>, ghost more: set<StaticRoute>)
    requires KeyedApart(all) && HasChildren(all, r, [text], r.nextHops, owner, sessions)
    requires Tabulates(table, rows) && rows <= all
    ensures Tabulates(filled, more) && rows <= more <= all && HasChildren(more, r, [text], r.nextHops, owner, sessions)
  {
    filled, more := table, rows;
    hide Tabulates, KeyedApart, Child;
    for l := 0 to |r.nextHops|
      invariant Tabulates(filled, more) && rows <= more <= all
      invariant forall k :: 0 <= k < l ==> Child(r, text, r.nextHops[k], owner, SessionOf(sessions, r.nextHops[k])) in more
    {
      var row := Child(r, text, r.nextHops[l], owner, SessionOf(sessions, r.nextHops[l]));
      assert text in [text] && r.nextHops[l] in r.nextHops;
      TabulateOne(filled, more, row, all);
      filled, more := filled[Key(row) := row], more + {row};
    }
  }

  /** Guard and children of one intent. */
  method AddIntentRows(r: Intent, owner: string, sessions: map<string, Uuid>,
                       table: map<string, StaticRoute>, ghost rows: set<StaticRoute>, ghost all: set<StaticRoute>)
    returns (filled: map<string, StaticRoute>, ghost more: set<StaticRoute>)
    requires KeyedApart(all) && Complete(all, r, owner, sessions)
    requires Tabulates(table, rows) && rows <= all
    ensures Tabulates(filled, more) && rows <= more <= all && Complete(more, r, owner, sessions)
  {
    hide Tabulates, KeyedApart, ChildTexts, Child;
    var guard := Guard(r, owner);
    TabulateOne(table, rows, guard, all);
    filled, more := table[Key(guard) := guard], rows + {guard};
    var texts := ChildTexts(r.cidr);
    for j := 0 to |texts|
      invariant Tabulates(filled, more) && rows <= more <= all && guard in more
      invariant HasChildren(more, r, texts[..j], r.nextHops, owner, sessions)
    {
      assert texts[j] in texts && forall t :: t in [texts[j]] ==> t in texts;
      filled, more := AddChildRows(r, texts[j], owner, sessions, filled, more, all);
      assert texts[..j + 1] == texts[..j] + [texts[j]];
    }
    assert texts[..|texts|] == texts;
  }

  method BuildDesired(routes: seq<Intent>, owner: string, sessions: map<string, Uuid>) returns (table: map<string, StaticRoute>)
    requires Acceptable(routes)
    ensures Tabulates(table, Desired(routes, owner, sessions))
  {
    ghost var all := Desired(routes, owner, sessions);
    KeyIdentifies(routes, owner, sessions);
    table := map[];
    ghost var rows: set<StaticRoute> := {};
    hide Tabulates, KeyedApart, Complete, Acceptable;
    assert Tabulates(table, rows) by { NothingTabulated(); }
    for i := 0 to |routes|
      invariant Tabulates(table, rows) && rows <= all
      invariant forall k :: 0 <= k < i ==> Complete(rows, routes[k], owner, sessions)
    {
      ghost var before := rows;
      IntentInDesired(routes, owner, sessions, routes[i]);
      table, rows := AddIntentRows(routes[i], owner, sessions, table, rows, all);
      forall k | 0 <= k < i ensures Complete(rows, routes[k], owner, sessions) {
        CompleteGrows(before, rows, routes[k], owner, sessions);
      }
    }
    CompleteIsDesired(rows, routes, owner, sessions);
  }

  lemma NothingTabulated()
    ensures Tabulates(map[], {})
  {
  }

  lemma IntentInDesired(routes: seq<Intent>, owner: string, sessions: map<string, Uuid>, r: Intent)
    requires r in routes
    ensures Complete(Desired(routes, owner, sessions), r, owner, sessions)
  {
    hide ChildTexts;
  }

  // ---- Comparison with the rows present ----

  /** After comparing some of the owned rows: which of them stay, under which key, and which keys are still missing. */
  ghost predicate DiffProgress(owned: map<Uuid, StaticRoute>, table: map<string, StaticRoute>, seen: set<Uuid>,
                               removed: map<Uuid, map<string, string>>, missing: map<string, StaticRoute>, stays: map<string, Uuid>) {
    && (forall u :: u in removed ==> u in owned && u in seen && removed[u] == owned[u].ids)
    && (forall u :: u in owned && u in seen && u !in removed ==> Key(owned[u]) in stays && stays[Key(owned[u])] == u)
    && (forall k :: k in stays ==> Stays(owned, table, seen, removed, k, stays[k]))
    && (forall k :: k in table ==> k in missing || k in stays)
    && (forall k :: k in missing ==> k in table && k !in stays && missing[k] == table[k])
  }

  ghost predicate Stays(owned: map<Uuid, StaticRoute>, table: map<string, StaticRoute>, seen: set<Uuid>,
                        removed: map<Uuid, map<string, string>>, k: string, u: Uuid) {
    u in owned && u in seen && u !in removed && k in table && table[k] == owned[u] && Key(owned[u]) == k
  }

  lemma NoneRemoved(owned: map<Uuid, StaticRoute>, desired: set<StaticRoute>, table: map<string, StaticRoute>, seen: set<Uuid>,
                    removed: map<Uuid, map<string, string>>, missing: map<string, StaticRoute>, stays: map<string, Uuid>, u: Uuid)
    requires DiffProgress(owned, table, seen, removed, missing, stays) && Tabulates(table, desired)
    requires u in owned && u !in seen && Realizes(owned, desired)
    ensures Key(owned[u]) in missing && missing[Key(owned[u])] == owned[u]
  {
    hide Key;
    var k := Key(owned[u]);
    assert owned[u] in owned.Values;
    assert k in table && table[k] == owned[u];
    assert k in stays ==> Stays(owned, table, seen, removed, k, stays[k]);
  }

  lemma StayProgress(owned: map<Uuid, StaticRoute>, table: map<string, StaticRoute>, seen: set<Uuid>,
                     removed: map<Uuid, map<string, string>>, missing: map<string, StaticRoute>, stays: map<string, Uuid>, u: Uuid)
    requires DiffProgress(owned, table, seen, removed, missing, stays) && u in owned && u !in seen
    requires Key(owned[u]) in missing && missing[Key(owned[u])] == owned[u]
    ensures DiffProgress(owned, table, seen + {u}, removed, missing - {Key(owned[u])}, stays[Key(owned[u]) := u])
  {
    hide Key;
    var more := stays[Key(owned[u]) := u];
    forall k | k in more ensures Stays(owned, table, seen + {u}, removed, k, more[k]) {
      assert k in stays ==> Stays(owned, table, seen, removed, k, stays[k]);
    }
  }

  lemma StaysKept(owned: map<Uuid, StaticRoute>, table: map<string, StaticRoute>, seen: set<Uuid>,
                  removed: map<Uuid, map<string, string>>, k: string, v: Uuid, u: Uuid, ids: map<string, string>)
    requires Stays(owned, table, seen, removed, k, v) && u !in seen
    ensures Stays(owned, table, seen + {u}, removed, k, v) && Stays(owned, table, seen + {u}, removed[u := ids], k, v)
  {
    hide Key;
  }

  lemma RemoveProgress(owned: map<Uuid, StaticRoute>, table: map<string, StaticRoute>, seen: set<Uuid>,
                       removed: map<Uuid, map<string, string>>, missing: map<string, StaticRoute>, stays: map<string, Uuid>, u: Uuid)
    requires DiffProgress(owned, table, seen, removed, missing, stays) && u !in seen && u in owned
    ensures u !in removed
    ensures DiffProgress(owned, table, seen + {u}, removed[u := owned[u].ids], missing, stays)
  {
    hide Key, Stays;
    forall k | k in stays ensures Stays(owned, table, seen + {u}, removed[u := owned[u].ids], k, stays[k]) {
      StaysKept(owned, table, seen, removed, k, stays[k], u, owned[u].ids);
    }
  }

  lemma SkipProgress(owned: map<Uuid, StaticRoute>, table: map<string, StaticRoute>, seen: set<Uuid>,
                     removed: map<Uuid, map<string, string>>, missing: map<string, StaticRoute>, stays: map<string, Uuid>, u: Uuid)
    requires DiffProgress(owned, table, seen, removed, missing, stays) && u !in seen && u !in owned
    ensures DiffProgress(owned, table, seen + {u}, removed, missing, stays)
  {
    hide Key, Stays;
    forall k | k in stays ensures Stays(owned, table, seen + {u}, removed, k, stays[k]) {
      StaysKept(owned, table, seen, removed, k, stays[k], u, map[]);
    }
  }

  /** Compares every row of the owner with the desired one under its key. */
  method DiffRoutes(current: map<Uuid, StaticRoute>, owner: string, table: map<string, StaticRoute>, ghost desired: set<StaticRoute>)
    returns (ops: seq<Op>, removed: map<Uuid, map<string, string>>, missing: map<string, StaticRoute>, ghost stays: map<string, Uuid>)
    requires Tabulates(table, desired)
    ensures DiffProgress(OwnedBy(current, owner), table, current.Keys, removed, missing, stays)
    ensures EmitsRouteWaits(ops, removed) && forall i :: 0 <= i < |ops| ==> ops[i].IsWait()
    ensures Realizes(OwnedBy(current, owner), desired) ==> removed == map[]
  {
    ghost var owned := OwnedBy(current, owner);
    ops, removed, missing, stays := [], map[], table, map[];
    NoRouteWait();
    assert DiffProgress(owned, table, {}, removed, missing, stays);
    hide Key, EmitsRouteWaits, Tabulates, Realizes, OwnerOf, DiffProgress;
    var todo := current.Keys;
    ghost var seen: set<Uuid> := {};
    while todo != {}
      invariant todo <= current.Keys && seen == current.Keys - todo
      invariant DiffProgress(owned, table, seen, removed, missing, stays)
      invariant EmitsRouteWaits(ops, removed) && forall i :: 0 <= i < |ops| ==> ops[i].IsWait()
      invariant Realizes(owned, desired) ==> removed == map[]
    {
      var u :| u in todo;
      todo := todo - {u};
      var row := current[u];
      if OwnerOf(row.ids) == owner {
        if Realizes(owned, desired) {
          NoneRemoved(owned, desired, table, seen, removed, missing, stays, u);
        }
        var key := Key(row);
        assert owned[u] == row;
        if key in missing && row == missing[key] {
          StayProgress(owned, table, seen, removed, missing, stays, u);
          missing, stays := missing - {key}, stays[key := u];
        } else {
          RemoveProgress(owned, table, seen, removed, missing, stays, u);
          EmitRouteWait(ops, removed, u, row.ids);
          ops := ops + [WaitRouteIds(u, row.ids)];
          removed := removed[u := row.ids];
        }
      } else {
        SkipProgress(owned, table, seen, removed, missing, stays, u);
      }
      seen := seen + {u};
    }
    assert seen == current.Keys;
  }

  /** Rows inserted so far: one per desired row that was missing. */
  ghost predicate InsertProgress(missing: map<string, StaticRoute>, todo: set<string>, floor: Uuid, next: Uuid,
                                 added: map<Uuid, StaticRoute>, names: map<string, Uuid>) {
    && floor <= next && todo <= missing.Keys && names.Keys == missing.Keys - todo
    && (forall u :: u in added ==> floor <= u < next && Key(added[u]) in names && names[Key(added[u])] == u)
    && (forall k :: k in names ==> names[k] in added && added[names[k]] == missing[k])
  }

  lemma InsertOne(missing: map<string, StaticRoute>, todo: set<string>, floor: Uuid, next: Uuid,
                  added: map<Uuid, StaticRoute>, names: map<string, Uuid>, k: string)
    requires InsertProgress(missing, todo, floor, next, added, names) && k in todo && Key(missing[k]) == k
    ensures next !in added
    ensures InsertProgress(missing, todo - {k}, floor, next + 1, added[next := missing[k]], names[k := next])
  {
    hide Key;
  }

  method InsertRoutes(missing: map<string, StaticRoute>, floor: Uuid)
    returns (ops: seq<Op>, added: map<Uuid, StaticRoute>, ghost names: map<string, Uuid>, ghost next: Uuid)
    requires forall k :: k in missing ==> Key(missing[k]) == k
    ensures InsertProgress(missing, {}, floor, next, added, names) && EmitsInserts(ops, added)
    ensures (added == map[] <==> ops == []) && forall i :: 0 <= i < |ops| ==> !ops[i].IsWait()
  {
    ops, added, names := [], map[], map[];
    var name := floor;
    NoInsert();
    assert InsertProgress(missing, missing.Keys, floor, name, added, names);
    hide Key, EmitsInserts, InsertProgress;
    var todo := missing.Keys;
    while todo != {}
      invariant todo <= missing.Keys && InsertProgress(missing, todo, floor, name, added, names) && EmitsInserts(ops, added)
      invariant (added == map[] <==> ops == []) && forall i :: 0 <= i < |ops| ==> !ops[i].IsWait()
    {
      var k :| k in todo;
      InsertOne(missing, todo, floor, name, added, names, k);
      EmitInsert(ops, added, name, missing[k]);
      ops := ops + [InsertRoute(name, missing[k])];
      added, names := added[name := missing[k]], names[k := name];
      assert name in added;
      name, todo := name + 1, todo - {k};
    }
    next := name;
  }

  lemma AfterDesired(owned: map<Uuid, StaticRoute>, desired: set<StaticRoute>, table: map<string, StaticRoute>, seen: set<Uuid>, floor: Uuid, next: Uuid,
                     removed: map<Uuid, map<string, string>>, missing: map<string, StaticRoute>, stays: map<string, Uuid>,
                     added: map<Uuid, StaticRoute>, names: map<string, Uuid>, u: Uuid)
    requires Tabulates(table, desired) && owned.Keys <= seen && (forall u :: u in owned ==> u < floor)
    requires DiffProgress(owned, table, seen, removed, missing, stays) && InsertProgress(missing, {}, floor, next, added, names)
    requires u in Updated(owned, removed.Keys, added)
    ensures var row := Updated(owned, removed.Keys, added)[u];
      && row in desired
      && u == if Key(row) in stays then stays[Key(row)] else if Key(row) in names then names[Key(row)] else 0
  {
    hide Key;
    var k := Key(Updated(owned, removed.Keys, added)[u]);
    if u in added {
      assert k in missing && k !in stays;
    } else {
      assert Stays(owned, table, seen, removed, k, stays[k]);
    }
  }

  lemma DesiredAfter(owned: map<Uuid, StaticRoute>, desired: set<StaticRoute>, table: map<string, StaticRoute>, seen: set<Uuid>, floor: Uuid, next: Uuid,
                     removed: map<Uuid, map<string, string>>, missing: map<string, StaticRoute>, stays: map<string, Uuid>,
                     added: map<Uuid, StaticRoute>, names: map<string, Uuid>, row: StaticRoute)
    requires Tabulates(table, desired) && (forall u :: u in owned ==> u < floor)
    requires DiffProgress(owned, table, seen, removed, missing, stays) && InsertProgress(missing, {}, floor, next, added, names)
    requires row in desired
    ensures row in Updated(owned, removed.Keys, added).Values
  {
    hide Key;
    var after, k := Updated(owned, removed.Keys, added), Key(row);
    if k in stays {
      assert Stays(owned, table, seen, removed, k, stays[k]);
      assert after[stays[k]] == row;
    } else {
      assert after[names[k]] == row;
    }
  }

  lemma NothingMissing(owned: map<Uuid, StaticRoute>, desired: set<StaticRoute>, table: map<string, StaticRoute>, seen: set<Uuid>,
                       missing: map<string, StaticRoute>, stays: map<string, Uuid>)
    requires Tabulates(table, desired) && owned.Keys <= seen && Realizes(owned, desired)
    requires DiffProgress(owned, table, seen, map[], missing, stays)
    ensures missing == map[]
  {
    hide Key;
    forall k | k in table ensures k in stays {
      assert table[k] in owned.Values;
    }
  }

  /** The rows that stay and the rows inserted are together the desired ones, each once. */
  lemma DiffReconciles(owned: map<Uuid, StaticRoute>, desired: set<StaticRoute>, table: map<string, StaticRoute>, seen: set<Uuid>, floor: Uuid, next: Uuid,
                       removed: map<Uuid, map<string, string>>, missing: map<string, StaticRoute>, stays: map<string, Uuid>,
                       added: map<Uuid, StaticRoute>, names: map<string, Uuid>)
    requires Tabulates(table, desired) && owned.Keys <= seen && (forall u :: u in owned ==> u < floor)
    requires DiffProgress(owned, table, seen, removed, missing, stays)
    requires InsertProgress(missing, {}, floor, next, added, names)
    requires Realizes(owned, desired) ==> removed == map[]
    ensures RoutesFor(owned, desired, floor, removed, added)
    ensures added == map[] <==> missing == map[]
  {
    hide Key, Tabulates, Updated;
    var after := Updated(owned, removed.Keys, added);
    forall u | u in after
      ensures after[u] in desired
      ensures u == if Key(after[u]) in stays then stays[Key(after[u])] else if Key(after[u]) in names then names[Key(after[u])] else 0
    {
      AfterDesired(owned, desired, table, seen, floor, next, removed, missing, stays, added, names, u);
    }
    forall row | row in desired ensures row in after.Values {
      DesiredAfter(owned, desired, table, seen, floor, next, removed, missing, stays, added, names, row);
    }
    hide DiffProgress;
    if Realizes(owned, desired) {
      NothingMissing(owned, desired, table, seen, missing, stays);
    }
  }
}
