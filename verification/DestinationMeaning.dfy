/** What accepting and carrying out a plan of destination routes means in the database's own columns
    (integration/kube-ovn/overlay/pkg/ovs/ovn-nb-destination-route.go, integration/kube-ovn/destinationroute/plan.go). */
module DestinationMeaning {
  import opened Wrappers
  import opened Ipv4
  import opened Ordering
  import opened DestinationPlan
  import opened Northbound
  import opened DestinationForwarding
  import opened DestinationChange
  import opened DestinationRoutes
  import opened DestinationReconcile

  // ---- What a list of intents must be ----

  /** A canonical unicast prefix of length 1 to 31, as printed. */
  ghost predicate PlainDestination(cidr: string, d: Prefix) {
    cidr == PrefixText(d) && 1 <= d.bits <= 31 && d.addr % Size(d.bits) == 0 && GlobalUnicast(d.addr)
  }

  /** A printed unicast address outside the destination. */
  ghost predicate PlainHop(hop: string, d: Prefix) {
    exists a: Addr :: hop == AddrText(a) && GlobalUnicast(a) && !d.Contains(a)
  }

  ghost predicate PlainIntent(r: Intent) {
    && (exists d: Prefix :: PlainDestination(r.cidr, d) && forall h :: h in r.nextHops ==> PlainHop(h, d))
    && 2 <= |r.nextHops| <= 64 && (forall i, j :: 0 <= i < j < |r.nextHops| ==> r.nextHops[i] != r.nextHops[j])
    && 1 <= r.timers.minRx <= 3600000 && 1 <= r.timers.minTx <= 3600000 && 1 <= r.timers.multiplier <= 255
    && 1 <= |r.fields| <= 7 && (forall i, j :: 0 <= i < j < |r.fields| ==> r.fields[i] != r.fields[j])
    && forall f :: f in r.fields ==> f in {"eth_src", "eth_dst", "ip_proto", "ip_src", "ip_dst", "tp_src", "tp_dst"}
  }

  /** Two intents share neither an address nor, with different timers, a hop. */
  ghost predicate PlainlyApart(r: Intent, s: Intent) {
    && (forall d: Prefix, e: Prefix, a: Addr :: r.cidr == PrefixText(d) && s.cidr == PrefixText(e) ==> !(d.Contains(a) && e.Contains(a)))
    && forall h :: h in r.nextHops && h in s.nextHops ==> r.timers == s.timers
  }

  lemma PlainNetwork(d: Prefix)
    ensures d.Network() == d.addr <==> d.addr % Size(d.bits) == 0
  {
    PrefixRange(d, d.addr);
  }

  lemma DestinationMeans(cidr: string, d: Prefix)
    ensures PlainDestination(cidr, d) <==> GoodDestination(cidr) && Destination(cidr) == d
  {
    hide PrefixText, ParsePrefix, GlobalUnicast;
    ParsePrinted(d);
    PlainNetwork(d);
    if GoodDestination(cidr) && Destination(cidr) == d {
      PrefixTextInjective(d, Prefix(d.Network(), d.bits));
    }
  }

  lemma HopMeans(hop: string, cidr: string, d: Prefix)
    requires cidr == PrefixText(d)
    ensures PlainHop(hop, d) <==> GoodHop(hop, cidr)
  {
    hide PrefixText, AddrText, GlobalUnicast;
    ParsePrinted(d);
    forall a: Addr | hop == AddrText(a) ensures ParseAddr(hop) == Some(a) {
      ParsePrinted(Prefix(a, 32));
    }
  }

  lemma IntentMeans(r: Intent)
    ensures GoodIntent(r) <==> PlainIntent(r)
  {
    hide GoodDestination, GoodHop, PlainHop, PlainDestination, Destination;
    forall d: Prefix | PlainDestination(r.cidr, d)
      ensures GoodDestination(r.cidr) && forall h :: GoodHop(h, r.cidr) <==> PlainHop(h, d)
    {
      DestinationMeans(r.cidr, d);
      PlainText(r.cidr, d);
      forall h ensures GoodHop(h, r.cidr) <==> PlainHop(h, d) {
        HopMeans(h, r.cidr, d);
      }
    }
    if GoodDestination(r.cidr) {
      DestinationMeans(r.cidr, Destination(r.cidr));
    }
  }

  lemma PlainText(cidr: string, d: Prefix)
    requires PlainDestination(cidr, d)
    ensures cidr == PrefixText(d)
  {
  }

  lemma ApartMeans(r: Intent, s: Intent)
    requires GoodDestination(r.cidr) && GoodDestination(s.cidr)
    ensures Compatible(r, s) <==> PlainlyApart(r, s)
  {
    hide PrefixText, ParsePrefix, GoodDestination;
    var d, e := Destination(r.cidr), Destination(s.cidr);
    ParsePrinted(d);
    ParsePrinted(e);
    OverlapsIffShared(d, e);
    forall p: Prefix ensures (r.cidr == PrefixText(p) <==> p == d) && (s.cidr == PrefixText(p) <==> p == e) {
      ParsePrinted(p);
    }
  }

  /** The lists of intents that are accepted. */
  lemma AcceptableMeans(input: seq<Intent>)
    ensures Acceptable(input) <==>
            && |input| <= 256 && (forall k :: 0 <= k < |input| ==> PlainIntent(input[k]))
            && forall i, j :: 0 <= i < j < |input| ==> PlainlyApart(input[i], input[j])
  {
    hide GoodIntent, PlainIntent, Compatible, PlainlyApart, GoodDestination;
    forall k | 0 <= k < |input| ensures GoodIntent(input[k]) <==> PlainIntent(input[k]) {
      IntentMeans(input[k]);
    }
    if AllGood(input) {
      forall i, j | 0 <= i < j < |input| ensures Compatible(input[i], input[j]) <==> PlainlyApart(input[i], input[j]) {
        GoodMeans(input[i]);
        GoodMeans(input[j]);
        ApartMeans(input[i], input[j]);
      }
    }
  }

  lemma GoodMeans(r: Intent)
    requires GoodIntent(r)
    ensures GoodDestination(r.cidr)
  {
  }

  /** No text is before one that stands before it. */
  ghost predicate InOrder(texts: seq<string>) {
    forall i, j :: 0 <= i < j < |texts| ==> !Below(texts[j], texts[i])
  }

  ghost predicate Reordered(r: Intent, s: Intent) {
    r.cidr == s.cidr && r.timers == s.timers && multiset(r.nextHops) == multiset(s.nextHops) && multiset(r.fields) == multiset(s.fields)
  }

  lemma NormalReorders(r: Intent)
    ensures Reordered(Normal(r), r) && InOrder(Normal(r).nextHops) && InOrder(Normal(r).fields)
  {
    hide Below;
  }

  /** The routes of a plan: the intents in the order of their destinations, each with its hops and fields in order. */
  lemma RoutesMean(input: seq<Intent>)
    ensures var p := CanonicalPlan(input);
      && |p.routes| == |input| && p.hash == Sha256(p.routes)
      && (forall i, j :: 0 <= i < j < |p.routes| ==> !Below(p.routes[j].cidr, p.routes[i].cidr))
      && (forall r :: r in p.routes ==> InOrder(r.nextHops) && InOrder(r.fields) && exists s :: s in input && Reordered(r, s))
      && (forall s :: s in input ==> exists r :: r in p.routes && Reordered(r, s))
  {
    hide CanonicalPlan, Below, Reordered, InOrder;
    var p := CanonicalPlan(input);
    PlanIs(input);
    InCidrOrder(p.routes);
    NormalMembers(input, p.routes);
  }

  lemma PlanIs(input: seq<Intent>)
    ensures var p := CanonicalPlan(input);
      SortedBy(p.routes, Cidr) && multiset(p.routes) == multiset(Normals(input)) && |p.routes| == |input| && p.hash == Sha256(p.routes)
  {
    hide Sessions, Normal;
  }

  lemma InCidrOrder(routes: seq<Intent>)
    requires SortedBy(routes, Cidr)
    ensures forall i, j :: 0 <= i < j < |routes| ==> !Below(routes[j].cidr, routes[i].cidr)
  {
    hide Below;
    forall i, j | 0 <= i < j < |routes| ensures !Below(routes[j].cidr, routes[i].cidr) {
      assert !Below(Cidr(routes[j]), Cidr(routes[i]));
    }
  }

  lemma NormalMembers(input: seq<Intent>, routes: seq<Intent>)
    requires multiset(routes) == multiset(Normals(input))
    ensures forall r :: r in routes ==> InOrder(r.nextHops) && InOrder(r.fields) && exists s :: s in input && Reordered(r, s)
    ensures forall s :: s in input ==> exists r :: r in routes && Reordered(r, s)
  {
    hide Below, Normal, Reordered, InOrder;
    SameMembers(routes, Normals(input));
    forall i | 0 <= i < |input|
      ensures Normals(input)[i] in routes && Reordered(Normals(input)[i], input[i]) && InOrder(Normals(input)[i].nextHops) && InOrder(Normals(input)[i].fields)
    {
      NormalReorders(input[i]);
      assert Normals(input)[i] in Normals(input);
    }
    forall r | r in routes ensures InOrder(r.nextHops) && InOrder(r.fields) && exists s :: s in input && Reordered(r, s) {
      var i :| 0 <= i < |input| && Normals(input)[i] == r;
      assert input[i] in input;
    }
    forall s | s in input ensures exists r :: r in routes && Reordered(r, s) {
      var i :| 0 <= i < |input| && input[i] == s;
    }
  }

  // ---- What the router must be like ----

  /** An ordinary host of a network: not the port's own address, not the network address, not a broadcast address. */
  predicate PlainHost(a: Addr, p: Prefix) {
    var first := p.addr - p.addr % Size(p.bits);
    first < a < first + Size(p.bits) && a != p.addr && (p.bits < 31 ==> a < first + Size(p.bits) - 1)
  }

  /** A network of a port that is neither dedicated to BFD nor the BFD port itself. */
  ghost predicate OrdinaryNetwork(ports: seq<Port>, bfdPort: string, p: Prefix) {
    exists q :: q in ports && q.name != bfdPort && !q.bfdOnly && PrefixText(p) in q.networks
  }

  /** The last port of this name is dedicated to BFD. */
  ghost predicate Dedicated(ports: seq<Port>, bfdPort: string) {
    exists i :: 0 <= i < |ports| && ports[i].name == bfdPort && ports[i].bfdOnly && forall j :: i < j < |ports| ==> ports[j].name != bfdPort
  }

  /** Where a row of the database leads: a prefix, or a bare host address. */
  ghost predicate LeadsTo(row: StaticRoute, p: Prefix) {
    row.prefix == PrefixText(p) || (p.bits == 32 && row.prefix == AddrText(p.addr))
  }

  /** A row of the main table that routes by destination to a prefix sharing an address with this one and no shorter. */
  ghost predicate Hindrance(row: StaticRoute, d: Prefix, p: Prefix, a: Addr) {
    && row.table == "" && (row.policy.None? || row.policy == Some("dst-ip"))
    && LeadsTo(row, p) && p.Contains(a) && d.Contains(a) && p.bits >= d.bits
  }

  lemma LeadsMeans(row: StaticRoute, p: Prefix)
    ensures LeadsTo(row, p) <==> RoutePrefix(row) == Some(p)
  {
    hide ParsePrefix, ParseAddr, PrefixText, AddrText;
    ParsePrinted(p);
    if RoutePrefix(row).Some? {
      ParsePrinted(RoutePrefix(row).value);
    }
    if p.bits == 32 && row.prefix == AddrText(p.addr) {
      NoSlash(p.addr);
    }
  }

  /** No address is spelled like a prefix. */
  lemma NoSlash(a: Addr)
    ensures ParsePrefix(AddrText(a)).None?
  {
    hide ParsePrefix;
    AddrTextChars(a);
  }

  /** Exactly the rows at or within a destination obstruct it; covering default and aggregate routes do not. */
  lemma ObstructsMeans(row: StaticRoute, d: Prefix)
    ensures Obstructs(row, d) <==> exists p: Prefix, a: Addr :: Hindrance(row, d, p, a)
  {
    hide RoutePrefix, LeadsTo;
    forall p: Prefix ensures LeadsTo(row, p) <==> RoutePrefix(row) == Some(p) {
      LeadsMeans(row, p);
    }
    if RoutePrefix(row).Some? {
      OverlapsIffShared(d, RoutePrefix(row).value);
      if Obstructs(row, d) {
        var a: Addr :| d.Contains(a) && RoutePrefix(row).value.Contains(a);
        assert Hindrance(row, d, RoutePrefix(row).value, a);
      }
    }
  }

  lemma {:induction false} ReadyMeans(ports: seq<Port>, bfdPort: string)
    ensures BfdReady(ports, bfdPort) <==> Dedicated(ports, bfdPort)
  {
    if ports != [] {
      var last := |ports| - 1;
      ReadyMeans(ports[..last], bfdPort);
      if ports[last].name != bfdPort && Dedicated(ports[..last], bfdPort) {
        var i :| 0 <= i < last && ports[..last][i].name == bfdPort && ports[..last][i].bfdOnly && forall j :: i < j < last ==> ports[..last][j].name != bfdPort;
        assert forall j :: i < j < last ==> ports[..last][j] == ports[j];
        assert ports[i].name == bfdPort && forall j :: i < j < |ports| ==> ports[j].name != bfdPort;
      }
    }
  }

  lemma {:induction false} ConnectedMeans(ports: seq<Port>, bfdPort: string, n: string)
    ensures n in Connected(ports, bfdPort) <==> exists q :: q in ports && q.name != bfdPort && !q.bfdOnly && n in q.networks
  {
    if ports != [] {
      ConnectedMeans(ports[..|ports| - 1], bfdPort, n);
      assert ports == ports[..|ports| - 1] + [ports[|ports| - 1]];
    }
  }

  lemma HostMeans(a: Addr, p: Prefix)
    ensures GatewayOn(a, p) <==> PlainHost(a, p)
  {
    hide Size;
    PrefixRange(p, a);
  }

  /** A hop is a host of an ordinary network. */
  lemma ReachableMeans(hop: string, ports: seq<Port>, bfdPort: string)
    ensures Reachable(hop, Connected(ports, bfdPort)) <==>
            exists a: Addr, p: Prefix :: hop == AddrText(a) && OrdinaryNetwork(ports, bfdPort, p) && PlainHost(a, p)
  {
    hide ParsePrefix, ParseAddr, PrefixText, AddrText, GatewayOn, PlainHost, Connected;
    var networks := Connected(ports, bfdPort);
    if Reachable(hop, networks) {
      var i :| 0 <= i < |networks| && ParsePrefix(networks[i]).Some? && GatewayOn(ParseAddr(hop).value, ParsePrefix(networks[i]).value);
      ConnectedMeans(ports, bfdPort, networks[i]);
      HostMeans(ParseAddr(hop).value, ParsePrefix(networks[i]).value);
      assert OrdinaryNetwork(ports, bfdPort, ParsePrefix(networks[i]).value);
    }
    if a: Addr, p: Prefix :| hop == AddrText(a) && OrdinaryNetwork(ports, bfdPort, p) && PlainHost(a, p) {
      ConnectedMeans(ports, bfdPort, PrefixText(p));
      ParsePrinted(p);
      ParsePrinted(Prefix(a, 32));
      HostMeans(a, p);
      var i :| 0 <= i < |networks| && networks[i] == PrefixText(p);
    }
  }

  /** No network of an ordinary port shares an address with the destination. */
  lemma ClearMeans(r: Intent, ports: seq<Port>, bfdPort: string)
    ensures ClearOfNetworks(r, Connected(ports, bfdPort)) <==>
            forall p: Prefix, a: Addr :: OrdinaryNetwork(ports, bfdPort, p) ==> !(p.Contains(a) && Destination(r.cidr).Contains(a))
  {
    hide ParsePrefix, PrefixText, Connected, Destination;
    var networks := Connected(ports, bfdPort);
    forall p: Prefix ensures OrdinaryNetwork(ports, bfdPort, p) <==> exists k :: 0 <= k < |networks| && ParsePrefix(networks[k]) == Some(p) {
      ConnectedMeans(ports, bfdPort, PrefixText(p));
      ParsePrinted(p);
      if OrdinaryNetwork(ports, bfdPort, p) {
        var k :| 0 <= k < |networks| && networks[k] == PrefixText(p);
      }
    }
    forall p: Prefix ensures p.Overlaps(Destination(r.cidr)) <==> exists a: Addr :: p.Contains(a) && Destination(r.cidr).Contains(a) {
      OverlapsIffShared(p, Destination(r.cidr));
    }
  }

  // ---- What is accepted ----

  /** Whose row or session it is, by its external ids; nobody's when they do not say. */
  predicate Of(ids: map<string, string>, owner: string) {
    "kube-ovn.io/destination-vpc-uid" in ids && ids["kube-ovn.io/destination-vpc-uid"] == owner
  }

  /** The router of a plan: its BFD port is ready, every hop is a host of an ordinary network, and no destination shares an
      address with an ordinary network or is hindered by a row of another owner. */
  ghost predicate RouterFits(router: Router, current: map<Uuid, StaticRoute>, owner: string, port: string, plan: Plan) {
    && Dedicated(router.ports, port)
    && (forall h :: h in plan.sessions ==>
          exists a: Addr, p: Prefix :: h == AddrText(a) && OrdinaryNetwork(router.ports, port, p) && PlainHost(a, p))
    && (forall r, p: Prefix, a: Addr :: r in plan.routes && OrdinaryNetwork(router.ports, port, p) ==> !(p.Contains(a) && Destination(r.cidr).Contains(a)))
    && forall u, r, p: Prefix, a: Addr :: u in current && !Of(current[u].ids, owner) && r in plan.routes ==> !Hindrance(current[u], Destination(r.cidr), p, a)
  }

  /** Sessions on the BFD port to a hop of the plan are this owner's, and one per hop. */
  ghost predicate TuplesFree(sessions: map<Uuid, Session>, owner: string, port: string, plan: Plan) {
    forall u :: u in sessions && sessions[u].port == port && sessions[u].dst in plan.sessions ==>
      Of(sessions[u].ids, owner) && forall v :: v in sessions && sessions[v].port == port && sessions[v].dst == sessions[u].dst ==> v == u
  }

  /** A session of this owner that the plan does not want is referred to by the owner's rows of this router alone. */
  ghost predicate NoConsumers(view: Database, name: string, owner: string, port: string, plan: Plan) {
    forall u :: u in view.sessions && Of(view.sessions[u].ids, owner) && !(view.sessions[u].port == port && view.sessions[u].dst in plan.sessions) ==>
      && (forall r :: r in view.routes && view.routes[r].bfd == Some(u) ==> name in view.routers && r in view.routers[name].routes && Of(view.routes[r].ids, owner))
      && forall p :: p in view.policies ==> u !in view.policies[p]
  }

  lemma OwnerMeans(ids: map<string, string>, owner: string)
    requires owner != ""
    ensures OwnerOf(ids) == owner <==> Of(ids, owner)
  {
  }

  lemma FitsMeans(router: Router, current: map<Uuid, StaticRoute>, owner: string, port: string, plan: Plan)
    requires owner != ""
    ensures Admissible(router.ports, port, plan, current, owner) <==> RouterFits(router, current, owner, port, plan)
  {
    hide BfdReady, Connected, Reachable, ClearOfNetworks, Obstructs, Destination, OrdinaryNetwork, PlainHost, Dedicated, Hindrance, OwnerOf, Of, AddrText;
    ReadyMeans(router.ports, port);
    forall h ensures Reachable(h, Connected(router.ports, port)) <==>
                     exists a: Addr, p: Prefix :: h == AddrText(a) && OrdinaryNetwork(router.ports, port, p) && PlainHost(a, p) {
      ReachableMeans(h, router.ports, port);
    }
    forall r ensures ClearOfNetworks(r, Connected(router.ports, port)) <==>
                     forall p: Prefix, a: Addr :: OrdinaryNetwork(router.ports, port, p) ==> !(p.Contains(a) && Destination(r.cidr).Contains(a)) {
      ClearMeans(r, router.ports, port);
    }
    forall row, d ensures Obstructs(row, d) <==> exists p: Prefix, a: Addr :: Hindrance(row, d, p, a) {
      ObstructsMeans(row, d);
    }
    forall u | u in current ensures OwnerOf(current[u].ids) == owner <==> Of(current[u].ids, owner) {
      OwnerMeans(current[u].ids, owner);
    }
    UnobstructedMeans(current, owner, plan.routes);
  }

  lemma UnobstructedMeans(current: map<Uuid, StaticRoute>, owner: string, routes: seq<Intent>)
    ensures Unobstructed(ForeignTo(current, owner), routes) <==>
            forall u, r :: u in current && OwnerOf(current[u].ids) != owner && r in routes ==> !Obstructs(current[u], Destination(r.cidr))
  {
    hide Obstructs, Destination, OwnerOf;
    var foreign := ForeignTo(current, owner);
    assert forall u :: u in foreign <==> u in current && OwnerOf(current[u].ids) != owner;
  }

  lemma UsableMeans(sessions: map<Uuid, Session>, owner: string, port: string, plan: Plan)
    requires owner != ""
    ensures SessionsUsable(sessions, owner, port, plan.sessions) <==> TuplesFree(sessions, owner, port, plan)
  {
  }

  lemma ConsumedMeans(view: Database, name: string, owner: string, port: string, plan: Plan)
    requires owner != ""
    ensures (forall u :: u in view.sessions && Obsolete(view.sessions[u], owner, port, plan.sessions) ==> !Consumed(view, name, owner, u)) <==>
            NoConsumers(view, name, owner, port, plan)
  {
    hide OwnerOf, Of;
    forall ids: map<string, string> ensures OwnerOf(ids) == owner <==> Of(ids, owner) {
      OwnerMeans(ids, owner);
    }
    var mine := OwnedBy(Attached(view, name), owner);
    assert forall r :: r in mine <==> name in view.routers && r in view.routers[name].routes && r in view.routes && Of(view.routes[r].ids, owner);
  }

  /** Exactly these databases and plans are accepted. */
  lemma AcceptsMeans(view: Database, name: string, owner: string, port: string, plan: Plan)
    ensures Accepts(view, name, owner, port, plan) <==>
            && owner != ""
            && (plan.routes != [] ==> name in view.routers && RouterFits(view.routers[name], Attached(view, name), owner, port, plan))
            && TuplesFree(view.sessions, owner, port, plan) && NoConsumers(view, name, owner, port, plan)
  {
    hide Admissible, RouterFits, TuplesFree, NoConsumers, SessionsUsable, Obsolete, Consumed, Attached;
    if owner != "" {
      if name in view.routers {
        FitsMeans(view.routers[name], Attached(view, name), owner, port, plan);
      }
      UsableMeans(view.sessions, owner, port, plan);
      ConsumedMeans(view, name, owner, port, plan);
    }
  }

  /** Beside rows of other owners that cover whole destinations, or lead elsewhere, a plan that is otherwise in order is accepted. */
  lemma CoveringRowsPermitted(view: Database, name: string, owner: string, port: string, plan: Plan)
    requires owner != "" && name in view.routers && TuplesFree(view.sessions, owner, port, plan) && NoConsumers(view, name, owner, port, plan)
    requires RouterFits(view.routers[name], map[], owner, port, plan)
    requires forall u, r, p: Prefix :: u in Attached(view, name) && !Of(Attached(view, name)[u].ids, owner) && r in plan.routes && LeadsTo(Attached(view, name)[u], p) ==>
               p.bits < Destination(r.cidr).bits || forall a: Addr :: !(p.Contains(a) && Destination(r.cidr).Contains(a))
    ensures Accepts(view, name, owner, port, plan)
  {
    hide TuplesFree, NoConsumers, Dedicated, OrdinaryNetwork, PlainHost, Destination, LeadsTo, Attached, Of, Accepts;
    AcceptsMeans(view, name, owner, port, plan);
  }

  // ---- What is left behind ----

  /** The labels every owned row carries. */
  function Marks(owner: string, cidr: string): (ids: map<string, string>) {
    map["vendor" := "kube-ovn", "kube-ovn.io/destination-vpc-uid" := owner, "kube-ovn.io/destination-route" := cidr]
  }

  /** The guard of a destination: discards, has no session, no fields and no options. */
  predicate GuardRow(row: StaticRoute, owner: string, r: Intent) {
    row == StaticRoute(r.cidr, "discard", "", Some("dst-ip"), None, None, Marks(owner, r.cidr), {}, map[])
  }

  /** One of the two halves of a destination. */
  ghost predicate Half(text: string, d: Prefix) {
    && d.bits < 32 && d.addr + Size(d.bits) / 2 < SPACE
    && (text == PrefixText(Prefix(d.addr, d.bits + 1)) || text == PrefixText(Prefix(d.addr + Size(d.bits) / 2, d.bits + 1)))
  }

  /** The row of a half and a hop: routed over a session of that hop, spread by the intent's fields, marked for BFD ECMP. */
  ghost predicate HopRow(row: StaticRoute, sessions: map<Uuid, Session>, owner: string, port: string, r: Intent, half: string, hop: string) {
    && row.prefix == half && row.nexthop == hop && row.table == "" && row.policy == Some("dst-ip") && row.port.None?
    && row.bfd.Some? && row.bfd.value in sessions && SessionFor(sessions[row.bfd.value], owner, port, hop, r.timers)
    && row.ids == Marks(owner, r.cidr) && (forall f :: f in row.fields <==> f in r.fields) && row.options == map["bfd-ecmp" := "true"]
  }

  predicate SessionFor(s: Session, owner: string, port: string, hop: string, t: Timers) {
    && s.port == port && s.dst == hop && OwnerOf(s.ids) == owner
    && s.minRx == Some(t.minRx) && s.minTx == Some(t.minTx) && s.multiplier == Some(t.multiplier)
  }

  lemma HalvesMean(cidr: string, text: string)
    requires GoodDestination(cidr)
    ensures text in ChildTexts(cidr) <==> Half(text, Destination(cidr))
  {
    hide PrefixText, ParsePrefix;
    var d := Destination(cidr);
    BitInSpace(d);
    var (low, high) := Children(d);
    assert ChildTexts(cidr) == [PrefixText(low), PrefixText(high)];
  }

  lemma SessionsServe(before: Database, after: Database, name: string, owner: string, port: string, plan: Plan, hops: map<string, Uuid>, r: Intent, h: string)
    requires ValidPlan(plan) && Reconciled(before, after, name, owner, port, plan, hops) && r in plan.routes && h in r.nextHops
    ensures h in hops && SessionOf(hops, h) == hops[h] && hops[h] in after.sessions && SessionFor(after.sessions[hops[h]], owner, port, h, r.timers)
  {
    hide Realizes, Desired, ValidDatabase, Attached, OwnedBy, ForeignTo, OwnerOf, Acceptable, CanonicalPlan;
    PlanTimers(plan, r, h);
    assert Serves(after.sessions[hops[h]], owner, port, h, plan.sessions[h]);
  }

  lemma PlanTimers(plan: Plan, r: Intent, h: string)
    requires ValidPlan(plan) && r in plan.routes && h in r.nextHops
    ensures h in plan.sessions && plan.sessions[h] == r.timers
  {
    hide GoodIntent, Compatible, Normals, Sort;
    CompileIsIdempotent(plan.routes);
    var i :| 0 <= i < |plan.routes| && plan.routes[i] == r;
    SessionAgrees(plan.routes, i);
  }

  /** After a reconciliation every row of the owner on the router is the guard of a destination, or routes one half of it
      over one of its hops; every destination has its guard, and every half one row per hop; none occurs twice. */
  lemma RowsMean(before: Database, after: Database, name: string, owner: string, port: string, plan: Plan, hops: map<string, Uuid>)
    requires ValidPlan(plan) && Reconciled(before, after, name, owner, port, plan, hops)
    ensures var rows := OwnedBy(Attached(after, name), owner);
      && (forall u :: u in rows ==>
            exists r :: r in plan.routes && (GuardRow(rows[u], owner, r) || RoutesHalf(rows[u], after.sessions, owner, port, r)))
      && (forall r :: r in plan.routes ==> exists u :: u in rows && GuardRow(rows[u], owner, r))
      && (forall r, half, h :: r in plan.routes && Half(half, Destination(r.cidr)) && h in r.nextHops ==>
            exists u :: u in rows && HopRow(rows[u], after.sessions, owner, port, r, half, h))
      && forall u, v :: u in rows && v in rows && rows[u] == rows[v] ==> u == v
  {
    hide Reconciled, Acceptable, CanonicalPlan, ValidPlan, GuardRow, HopRow, Half, Destination, ChildTexts, OwnedBy, Attached, SessionOf, Guard, Child, RoutesHalf;
    var rows := OwnedBy(Attached(after, name), owner);
    RowsRealize(before, after, name, owner, port, plan, hops);
    forall u | u in rows ensures exists r :: r in plan.routes && (GuardRow(rows[u], owner, r) || RoutesHalf(rows[u], after.sessions, owner, port, r)) {
      assert rows[u] in rows.Values;
      RowMeans(before, after, name, owner, port, plan, hops, rows[u]);
    }
    forall r | r in plan.routes ensures exists u :: u in rows && GuardRow(rows[u], owner, r) {
      GuardMeans(owner, r);
      assert Guard(r, owner) in rows.Values;
    }
    forall r, half, h | r in plan.routes && Half(half, Destination(r.cidr)) && h in r.nextHops
      ensures exists u :: u in rows && HopRow(rows[u], after.sessions, owner, port, r, half, h)
    {
      PlanGood(plan, r);
      HalvesMean(r.cidr, half);
      ChildMeans(before, after, name, owner, port, plan, hops, r, half, h);
      assert Child(r, half, h, owner, SessionOf(hops, h)) in rows.Values;
    }
  }

  ghost predicate RoutesHalf(row: StaticRoute, sessions: map<Uuid, Session>, owner: string, port: string, r: Intent) {
    Half(row.prefix, Destination(r.cidr)) && row.nexthop in r.nextHops && HopRow(row, sessions, owner, port, r, row.prefix, row.nexthop)
  }

  lemma RowsRealize(before: Database, after: Database, name: string, owner: string, port: string, plan: Plan, hops: map<string, Uuid>)
    requires Reconciled(before, after, name, owner, port, plan, hops)
    ensures Realizes(OwnedBy(Attached(after, name), owner), Desired(plan.routes, owner, hops))
  {
  }

  lemma PlanGood(plan: Plan, r: Intent)
    requires ValidPlan(plan) && r in plan.routes
    ensures GoodDestination(r.cidr)
  {
    hide GoodDestination;
    AllDestinationsGood(plan.routes);
  }

  lemma GuardMeans(owner: string, r: Intent)
    ensures GuardRow(Guard(r, owner), owner, r)
  {
  }

  lemma ChildMeans(before: Database, after: Database, name: string, owner: string, port: string, plan: Plan, hops: map<string, Uuid>,
                   r: Intent, half: string, h: string)
    requires ValidPlan(plan) && Reconciled(before, after, name, owner, port, plan, hops) && r in plan.routes && h in r.nextHops
    ensures HopRow(Child(r, half, h, owner, SessionOf(hops, h)), after.sessions, owner, port, r, half, h)
  {
    hide Reconciled, ValidPlan, SessionFor;
    SessionsServe(before, after, name, owner, port, plan, hops, r, h);
  }

  lemma RowMeans(before: Database, after: Database, name: string, owner: string, port: string, plan: Plan, hops: map<string, Uuid>, row: StaticRoute)
    requires ValidPlan(plan) && Reconciled(before, after, name, owner, port, plan, hops) && row in Desired(plan.routes, owner, hops)
    ensures exists r :: r in plan.routes && (GuardRow(row, owner, r) || RoutesHalf(row, after.sessions, owner, port, r))
  {
    hide Reconciled, ValidPlan, GuardRow, HopRow, Half, Destination, ChildTexts, SessionOf;
    if r :| r in plan.routes && row == Guard(r, owner) {
      GuardMeans(owner, r);
    } else {
      var r, t, h :| r in plan.routes && t in ChildTexts(r.cidr) && h in r.nextHops && row == Child(r, t, h, owner, SessionOf(hops, h));
      PlanGood(plan, r);
      HalvesMean(r.cidr, t);
      ChildMeans(before, after, name, owner, port, plan, hops, r, t, h);
    }
  }

  /** And the sessions of the owner are exactly one per hop of the plan, on its port, with the timers of every intent naming
      it; sessions of others are as before. */
  lemma SessionsMean(before: Database, after: Database, name: string, owner: string, port: string, plan: Plan, hops: map<string, Uuid>)
    requires ValidPlan(plan) && Reconciled(before, after, name, owner, port, plan, hops)
    ensures forall r, h :: r in plan.routes && h in r.nextHops ==>
              exists u :: u in after.sessions && SessionFor(after.sessions[u], owner, port, h, r.timers)
                          && forall v :: v in after.sessions && OwnerOf(after.sessions[v].ids) == owner && after.sessions[v].dst == h ==> v == u
    ensures forall u :: u in after.sessions && OwnerOf(after.sessions[u].ids) == owner ==>
              exists r :: r in plan.routes && after.sessions[u].dst in r.nextHops
    ensures forall u :: u in before.sessions && OwnerOf(before.sessions[u].ids) != owner ==> u in after.sessions && after.sessions[u] == before.sessions[u]
    ensures forall u :: u in after.sessions && OwnerOf(after.sessions[u].ids) != owner ==> u in before.sessions
  {
    hide Realizes, Desired, ValidDatabase, Attached, OwnedBy, ForeignTo, OwnerOf, Acceptable, CanonicalPlan, ValidPlan;
    forall r, h | r in plan.routes && h in r.nextHops
      ensures exists u :: u in after.sessions && SessionFor(after.sessions[u], owner, port, h, r.timers)
                          && forall v :: v in after.sessions && OwnerOf(after.sessions[v].ids) == owner && after.sessions[v].dst == h ==> v == u
    {
      SessionsServe(before, after, name, owner, port, plan, hops, r, h);
      forall v | v in after.sessions && OwnerOf(after.sessions[v].ids) == owner && after.sessions[v].dst == h ensures v == hops[h] {
        var k :| k in hops && hops[k] == v;
        assert Serves(after.sessions[hops[k]], owner, port, k, plan.sessions[k]);
      }
    }
    forall u | u in after.sessions && OwnerOf(after.sessions[u].ids) == owner ensures exists r :: r in plan.routes && after.sessions[u].dst in r.nextHops {
      var k :| k in hops && hops[k] == u;
      assert Serves(after.sessions[hops[k]], owner, port, k, plan.sessions[k]);
      PlanNames(plan, k);
    }
  }

  predicate HasTuple(sessions: map<Uuid, Session>, u: Uuid, port: string, hop: string) {
    u in sessions && sessions[u].port == port && sessions[u].dst == hop
  }

  /** What a change does about one hop: the session of its tuple, which is the owner's, is kept under its labels and retimed only
      when its timers differ; without one a session is created with the plan's timers and the owner's labels. */
  lemma EditsMean(view: Database, name: string, owner: string, port: string, plan: Plan, floor: Uuid, c: Change, h: string)
    requires ChangeFor(view, name, owner, port, plan, floor, c) && h in plan.sessions
    ensures h in c.hops
    ensures var t, u, e := plan.sessions[h], c.hops[h], c.edit;
      if exists v :: HasTuple(view.sessions, v, port, h) then
        && HasTuple(view.sessions, u, port, h) && (forall v :: HasTuple(view.sessions, v, port, h) ==> v == u)
        && OwnerOf(view.sessions[u].ids) == owner && u !in e.created && h in e.kept && e.kept[h] == Receipt(u, view.sessions[u].ids)
        && (if view.sessions[u].minRx == Some(t.minRx) && view.sessions[u].minTx == Some(t.minTx) && view.sessions[u].multiplier == Some(t.multiplier)
            then u !in e.retimed else u in e.retimed && e.retimed[u] == t)
      else
        && u in e.created && h !in e.kept
        && e.created[u] == Session(port, h, Some(t.minRx), Some(t.minTx), Some(t.multiplier),
                                   map["vendor" := "kube-ovn", "kube-ovn.io/destination-vpc-uid" := owner])
  {
    hide RoutesFor, RetiredFor, OwnerOf;
    var u := c.hops[h];
    assert HopHandled(view, owner, port, plan.sessions[h], floor, c.edit, h, u);
    assert u in view.sessions ==> HasTuple(view.sessions, u, port, h);
  }

  /** A change without effect neither creates, retimes or retires a session nor adds or removes a row. */
  lemma WritelessMeans(c: Change)
    ensures Writeless(c) <==>
            && (forall u :: u !in c.edit.created && u !in c.edit.retimed && u !in c.retired)
            && forall u :: u !in c.removed && u !in c.added
  {
  }

  /** Everything else stays: the routers and their ports, the rows of every other router, and the rows of others on this one. */
  lemma RestMeans(before: Database, after: Database, name: string, owner: string, port: string, plan: Plan, hops: map<string, Uuid>, m: string, u: Uuid)
    requires owner != "" && Reconciled(before, after, name, owner, port, plan, hops)
    ensures m in after.routers <==> m in before.routers
    ensures m in before.routers ==> after.routers[m].id == before.routers[m].id && after.routers[m].ports == before.routers[m].ports
    ensures m in before.routers && m != name ==>
              var was, now := Attached(before, m), Attached(after, m); (u in now <==> u in was) && (u in was ==> now[u] == was[u])
    ensures var was, now := Attached(before, name), Attached(after, name);
      && (u in was && !Of(was[u].ids, owner) ==> u in now && now[u] == was[u])
      && (u in now && !Of(now[u].ids, owner) ==> u in was)
  {
    hide Realizes, Desired, SessionsSettled, ValidDatabase, Attached, OwnerOf, Of;
    var was, now := Attached(before, name), Attached(after, name);
    if u in was {
      OwnerMeans(was[u].ids, owner);
      assert u in ForeignTo(was, owner) <==> OwnerOf(was[u].ids) != owner;
    }
    if u in now {
      OwnerMeans(now[u].ids, owner);
      assert u in ForeignTo(now, owner) <==> OwnerOf(now[u].ids) != owner;
    }
  }

  lemma PlanNames(plan: Plan, h: string)
    requires ValidPlan(plan) && h in plan.sessions
    ensures exists r :: r in plan.routes && h in r.nextHops
  {
    hide Acceptable, Sort;
    SessionsMeaning(plan.routes, h);
    var i :| 0 <= i < |plan.routes| && h in plan.routes[i].nextHops;
    assert plan.routes[i] in plan.routes;
  }
}
