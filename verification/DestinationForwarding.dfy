/** The rows a destination plan stands for, and what they forward
    (integration/kube-ovn/overlay/pkg/ovs/ovn-nb-destination-route.go). */
module DestinationForwarding {
  import opened Wrappers
  import opened Ipv4
  import opened Ordering
  import opened DestinationPlan
  import opened Northbound

  const VENDOR := "kube-ovn"
  const ROUTE_KEY := "kube-ovn.io/destination-route"
  const BFD_ECMP := "bfd-ecmp"

  /** What Compile produces. */
  ghost predicate ValidPlan(plan: Plan) {
    Acceptable(plan.routes) && plan == CanonicalPlan(plan.routes)
  }

  function Labels(owner: string, cidr: string): (ids: map<string, string>) {
    map["vendor" := VENDOR, OWNER_KEY := owner, ROUTE_KEY := cidr]
  }

  /** The texts of both halves of a destination. */
  function ChildTexts(cidr: string): (texts: seq<string>)
    ensures |texts| == 2
  {
    var p := Destination(cidr);
    if GoodDestination(cidr) then
      var (low, high) := Children(p);
      [PrefixText(low), PrefixText(high)]
    else
      ["", ""]
  }

  function Guard(r: Intent, owner: string): (row: StaticRoute) {
    StaticRoute(r.cidr, "discard", "", Some("dst-ip"), None, None, Labels(owner, r.cidr), {}, map[])
  }

  function Child(r: Intent, text: string, hop: string, owner: string, session: Uuid): (row: StaticRoute) {
    StaticRoute(text, hop, "", Some("dst-ip"), None, Some(session), Labels(owner, r.cidr),
                set f | f in r.fields, map[BFD_ECMP := "true"])
  }

  function SessionOf(sessions: map<string, Uuid>, hop: string): (u: Uuid) {
    if hop in sessions then sessions[hop] else 0
  }

  /** One guard per destination, and one row per child and hop. */
  ghost function Desired(routes: seq<Intent>, owner: string, sessions: map<string, Uuid>): (rows: set<StaticRoute>) {
    (set r | r in routes :: Guard(r, owner)) +
    (set r, t, h | r in routes && t in ChildTexts(r.cidr) && h in r.nextHops :: Child(r, t, h, owner, SessionOf(sessions, h)))
  }

  /** Each desired row is present exactly once. */
  ghost predicate Realizes(rows: map<Uuid, StaticRoute>, desired: set<StaticRoute>) {
    && rows.Values == desired
    && forall u, v :: u in rows && v in rows && rows[u] == rows[v] ==> u == v
  }

  /** No foreign row lies at or within a destination. */
  ghost predicate Unobstructed(foreign: map<Uuid, StaticRoute>, routes: seq<Intent>) {
    forall u, r :: u in foreign && r in routes ==> !Obstructs(foreign[u], Destination(r.cidr))
  }

  predicate Obstructs(row: StaticRoute, d: Prefix) {
    && ByDestination(row) && RoutePrefix(row).Some?
    && d.Overlaps(RoutePrefix(row).value) && RoutePrefix(row).value.bits >= d.bits
  }

  // ---- What one desired row matches ----

  lemma GuardPrefix(r: Intent, owner: string)
    requires GoodDestination(r.cidr)
    ensures RoutePrefix(Guard(r, owner)) == Some(Destination(r.cidr))
  {
  }

  /** A child row covers half of its destination, one bit longer; the halves partition it. */
  lemma ChildPrefix(r: Intent, hop: string, owner: string, session: Uuid, a: Addr)
    requires GoodDestination(r.cidr)
    ensures forall t :: t in ChildTexts(r.cidr) ==>
              RoutePrefix(Child(r, t, hop, owner, session)) == ParsePrefix(t) && ParsePrefix(t).Some?
              && ParsePrefix(t).value.bits == Destination(r.cidr).bits + 1
    ensures Destination(r.cidr).Contains(a) <==> exists t :: t in ChildTexts(r.cidr) && ParsePrefix(t).Some? && ParsePrefix(t).value.Contains(a)
  {
    hide ParsePrefix, PrefixText;
    var (low, high) := Children(Destination(r.cidr));
    ParsePrinted(low);
    ParsePrinted(high);
    ChildrenPartition(Destination(r.cidr), a);
    assert ChildTexts(r.cidr) == [PrefixText(low), PrefixText(high)];
    assert PrefixText(low) in ChildTexts(r.cidr) && PrefixText(high) in ChildTexts(r.cidr);
  }

  lemma OneDestination(routes: seq<Intent>, r: Intent, s: Intent, a: Addr)
    requires Acceptable(routes) && r in routes && s in routes
    requires Destination(r.cidr).Contains(a) && Destination(s.cidr).Contains(a)
    ensures r == s
  {
    hide Destination, GoodIntent;
    CompatibleSeparates();
    PairwiseAsSet(routes, Compatible);
    SharedOverlap(Destination(r.cidr), Destination(s.cidr), a);
  }

  /** A desired row that matches an address belongs to the one intent covering it: its guard, or a
      child one bit longer whose session is up. */
  lemma DesiredMatch(routes: seq<Intent>, owner: string, sessions: map<string, Uuid>, row: StaticRoute, up: set<Uuid>, a: Addr)
    requires Acceptable(routes) && row in Desired(routes, owner, sessions) && Matches(row, up, a)
    ensures exists r :: r in routes && Destination(r.cidr).Contains(a)
              && (|| (row == Guard(r, owner) && Length(row) == Destination(r.cidr).bits)
                  || (row.nexthop in r.nextHops && SessionOf(sessions, row.nexthop) in up && Length(row) == Destination(r.cidr).bits + 1))
  {
    hide GoodIntent, Destination, ParsePrefix, ChildTexts;
    assert forall r :: r in routes ==> GoodDestination(r.cidr) by { AllDestinationsGood(routes); }
    if r :| r in routes && row == Guard(r, owner) {
      GuardPrefix(r, owner);
      assert Destination(r.cidr).Contains(a);
    } else {
      var r, t, h :| r in routes && t in ChildTexts(r.cidr) && h in r.nextHops && row == Child(r, t, h, owner, SessionOf(sessions, h));
      ChildPrefix(r, h, owner, SessionOf(sessions, h), a);
      assert Destination(r.cidr).Contains(a);
    }
  }

  lemma AllDestinationsGood(routes: seq<Intent>)
    requires Acceptable(routes)
    ensures forall r :: r in routes ==> GoodDestination(r.cidr)
  {
  }

  /** The hops of an intent whose sessions are up. */
  function LiveHops(r: Intent, sessions: map<string, Uuid>, up: set<Uuid>): (hops: set<string>) {
    set h | h in r.nextHops && SessionOf(sessions, h) in up
  }

  function Verdict(r: Intent, sessions: map<string, Uuid>, up: set<Uuid>): (hops: set<string>) {
    if LiveHops(r, sessions, up) == {} then {"discard"} else LiveHops(r, sessions, up)
  }

  ghost predicate IsBest(rows: map<Uuid, StaticRoute>, up: set<Uuid>, a: Addr, u: Uuid) {
    && u in rows && Matches(rows[u], up, a)
    && forall v :: v in rows && Matches(rows[v], up, a) ==> Length(rows[v]) <= Length(rows[u])
  }

  ghost predicate Mixed(rows: map<Uuid, StaticRoute>, foreign: map<Uuid, StaticRoute>, owned: map<Uuid, StaticRoute>) {
    && (forall u :: u in rows <==> u in foreign || u in owned)
    && (forall u :: u in foreign ==> u !in owned && rows[u] == foreign[u])
    && (forall u :: u in owned ==> rows[u] == owned[u])
  }

  /** Inside a destination, every matching row but its live children is no longer than the guard. */
  lemma MatchInside(routes: seq<Intent>, owner: string, sessions: map<string, Uuid>,
                    rows: map<Uuid, StaticRoute>, foreign: map<Uuid, StaticRoute>, owned: map<Uuid, StaticRoute>,
                    up: set<Uuid>, a: Addr, r: Intent, v: Uuid)
    requires Acceptable(routes) && Unobstructed(foreign, routes) && Realizes(owned, Desired(routes, owner, sessions))
    requires Mixed(rows, foreign, owned)
    requires r in routes && Destination(r.cidr).Contains(a) && v in rows && Matches(rows[v], up, a)
    ensures || (v in foreign && Length(rows[v]) < Destination(r.cidr).bits)
            || (rows[v] == Guard(r, owner) && Length(rows[v]) == Destination(r.cidr).bits)
            || (rows[v].nexthop in LiveHops(r, sessions, up) && Length(rows[v]) == Destination(r.cidr).bits + 1)
  {
    hide Acceptable, Destination, ParsePrefix, Desired, RoutePrefix;
    if v in foreign {
      SharedOverlap(Destination(r.cidr), RoutePrefix(foreign[v]).value, a);
      assert !Obstructs(foreign[v], Destination(r.cidr));
    } else {
      assert owned[v] in owned.Values;
      DesiredMatch(routes, owner, sessions, rows[v], up, a);
      var s :| s in routes && Destination(s.cidr).Contains(a)
               && (|| (rows[v] == Guard(s, owner) && Length(rows[v]) == Destination(s.cidr).bits)
                   || (rows[v].nexthop in s.nextHops && SessionOf(sessions, rows[v].nexthop) in up && Length(rows[v]) == Destination(s.cidr).bits + 1));
      OneDestination(routes, r, s, a);
    }
  }

  lemma GuardPresent(routes: seq<Intent>, owner: string, sessions: map<string, Uuid>, owned: map<Uuid, StaticRoute>,
                     up: set<Uuid>, a: Addr, r: Intent) returns (u: Uuid)
    requires Acceptable(routes) && owned.Values == Desired(routes, owner, sessions)
    requires r in routes && Destination(r.cidr).Contains(a)
    ensures u in owned && owned[u] == Guard(r, owner) && Matches(owned[u], up, a) && Length(owned[u]) == Destination(r.cidr).bits
  {
    hide GoodIntent, Destination, ParsePrefix;
    AllDestinationsGood(routes);
    assert Guard(r, owner) in Desired(routes, owner, sessions);
    u :| u in owned && owned[u] == Guard(r, owner);
    GuardPrefix(r, owner);
  }

  lemma ChildPresent(routes: seq<Intent>, owner: string, sessions: map<string, Uuid>, owned: map<Uuid, StaticRoute>,
                     up: set<Uuid>, a: Addr, r: Intent, h: string) returns (u: Uuid)
    requires Acceptable(routes) && owned.Values == Desired(routes, owner, sessions)
    requires r in routes && Destination(r.cidr).Contains(a) && h in LiveHops(r, sessions, up)
    ensures u in owned && owned[u].nexthop == h && Matches(owned[u], up, a) && Length(owned[u]) == Destination(r.cidr).bits + 1
  {
    hide GoodIntent, Destination, ParsePrefix, ChildTexts;
    AllDestinationsGood(routes);
    ChildPrefix(r, h, owner, SessionOf(sessions, h), a);
    var t :| t in ChildTexts(r.cidr) && ParsePrefix(t).Some? && ParsePrefix(t).value.Contains(a);
    var row := Child(r, t, h, owner, SessionOf(sessions, h));
    assert row in Desired(routes, owner, sessions);
    u :| u in owned && owned[u] == row;
  }

  lemma DecisionIsBest(rows: map<Uuid, StaticRoute>, up: set<Uuid>, a: Addr, h: string)
    ensures h in Decision(rows, up, a) <==> exists u :: IsBest(rows, up, a, u) && rows[u].nexthop == h
  {
    hide Matches, Length;
    forall u | IsBest(rows, up, a, u) && rows[u].nexthop == h ensures h in Decision(rows, up, a) {
    }
  }

  /** Every address of a destination goes to exactly its live hops, or is discarded when none is live. */
  lemma ForwardsInside(routes: seq<Intent>, owner: string, sessions: map<string, Uuid>,
                       rows: map<Uuid, StaticRoute>, foreign: map<Uuid, StaticRoute>, owned: map<Uuid, StaticRoute>,
                       up: set<Uuid>, a: Addr, r: Intent)
    requires Acceptable(routes) && Unobstructed(foreign, routes) && Realizes(owned, Desired(routes, owner, sessions))
    requires Mixed(rows, foreign, owned)
    requires r in routes && Destination(r.cidr).Contains(a)
    ensures Decision(rows, up, a) == Verdict(r, sessions, up)
  {
    hide Acceptable, Destination, Matches, Length, Desired, Decision, Unobstructed;
    var live := LiveHops(r, sessions, up);
    var bits: int := Destination(r.cidr).bits;
    forall v | v in rows && Matches(rows[v], up, a)
      ensures || (v in foreign && Length(rows[v]) < bits)
              || (rows[v].nexthop == "discard" && Length(rows[v]) == bits)
              || (rows[v].nexthop in live && Length(rows[v]) == bits + 1)
    {
      MatchInside(routes, owner, sessions, rows, foreign, owned, up, a, r, v);
    }
    var g := GuardPresent(routes, owner, sessions, owned, up, a, r);
    forall h ensures h in Decision(rows, up, a) <==> h in Verdict(r, sessions, up) {
      DecisionIsBest(rows, up, a, h);
      if h in live {
        var u := ChildPresent(routes, owner, sessions, owned, up, a, r, h);
        assert IsBest(rows, up, a, u);
      } else if live == {} {
        assert IsBest(rows, up, a, g);
      } else {
        var other :| other in live;
        var u := ChildPresent(routes, owner, sessions, owned, up, a, r, other);
        assert IsBest(rows, up, a, u);
      }
    }
  }

  /** Rows that do not match an address have no part in its decision. */
  lemma UnmatchedRowsDrop(rows: map<Uuid, StaticRoute>, foreign: map<Uuid, StaticRoute>, owned: map<Uuid, StaticRoute>, up: set<Uuid>, a: Addr)
    requires Mixed(rows, foreign, owned) && forall v :: v in owned ==> !Matches(owned[v], up, a)
    ensures Decision(rows, up, a) == Decision(foreign, up, a)
  {
    hide Matches, Length, Decision;
    forall u ensures IsBest(rows, up, a, u) <==> IsBest(foreign, up, a, u) {
    }
    forall h ensures h in Decision(rows, up, a) <==> h in Decision(foreign, up, a) {
      DecisionIsBest(rows, up, a, h);
      DecisionIsBest(foreign, up, a, h);
    }
  }

  /** Outside every destination the decision is the one the other owners' rows make. */
  lemma ForwardsOutside(routes: seq<Intent>, owner: string, sessions: map<string, Uuid>,
                        rows: map<Uuid, StaticRoute>, foreign: map<Uuid, StaticRoute>, owned: map<Uuid, StaticRoute>,
                        up: set<Uuid>, a: Addr)
    requires Acceptable(routes) && Realizes(owned, Desired(routes, owner, sessions)) && Mixed(rows, foreign, owned)
    requires forall r :: r in routes ==> !Destination(r.cidr).Contains(a)
    ensures Decision(rows, up, a) == Decision(foreign, up, a)
  {
    hide Acceptable, Destination, Matches, Length, Desired, Decision;
    forall v | v in owned ensures !Matches(owned[v], up, a) {
      if Matches(owned[v], up, a) {
        assert owned[v] in owned.Values;
        DesiredMatch(routes, owner, sessions, owned[v], up, a);
      }
    }
    UnmatchedRowsDrop(rows, foreign, owned, up, a);
  }
}
