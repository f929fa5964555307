/** When there is a snapshot and what it holds, in the fields of subnets and bindings (internal/platformplan/plan.go). */
module SnapshotMeaning {
  import opened Wrappers
  import opened Ipv4
  import opened Ordering
  import SiteConfig
  import opened Snapshot

  // ---- When there is one ----

  /** A canonical network of length 8 to 30, as printed, that starts and ends with unicast addresses. */
  ghost predicate PlainNetwork(raw: string, p: Prefix) {
    && raw == PrefixText(p) && 8 <= p.bits <= 30 && p.addr % Size(p.bits) == 0
    && GlobalUnicast(p.addr) && p.addr + Size(p.bits) - 1 < SPACE && GlobalUnicast(p.addr + Size(p.bits) - 1)
  }

  lemma NetworkMeans(raw: string, p: Prefix)
    ensures SiteConfig.Network(raw) == Some(p) <==> PlainNetwork(raw, p)
  {
    hide PrefixText, ParsePrefix, GlobalUnicast;
    ParsePrinted(p);
    PrefixRange(p, p.addr);
    if p.Canonical() {
      SiteConfig.CanonicalIsNetwork(p);
      assert p.Last() == p.addr + Size(p.bits) - 1;
    }
    if PlainNetwork(raw, p) {
      assert SiteConfig.GoodNetwork(p);
      if SiteConfig.Network(raw).Some? {
        ParsePrinted(SiteConfig.Network(raw).value);
      }
    }
  }

  lemma NetworkExists(raw: string)
    ensures SiteConfig.Network(raw).Some? <==> exists p: Prefix :: PlainNetwork(raw, p)
  {
    hide PlainNetwork, SiteConfig.Network;
    if SiteConfig.Network(raw).Some? {
      NetworkMeans(raw, SiteConfig.Network(raw).value);
    }
    forall p: Prefix | PlainNetwork(raw, p) ensures SiteConfig.Network(raw).Some? {
      NetworkMeans(raw, p);
    }
  }

  /** The VPC has a subnet at the location. */
  ghost predicate Placed(v: Vpc, subnets: seq<Subnet>, location: string) {
    exists s :: s in subnets && s.vpcUid == v.uid && s.location == location
  }

  ghost predicate Named(v: Vpc, subnets: seq<Subnet>, existing: seq<Binding>, location: string) {
    (exists b :: b in existing && b.spec.content.location == location) || Placed(v, subnets, location)
  }

  /** There is another location. */
  ghost predicate Beside(v: Vpc, subnets: seq<Subnet>, existing: seq<Binding>, b: Binding) {
    exists n :: n != b.spec.content.location && Named(v, subnets, existing, n)
  }

  ghost predicate PlainGateway(g: Gateway) {
    && (exists a: Addr :: g.endpointIp == AddrText(a) && GlobalUnicast(a)) && (exists t: Addr :: g.transitIp == AddrText(t))
    && g.id != "" && g.nodeUid != "" && g.nodeName != ""
  }

  ghost predicate PlainInventory(gateways: seq<Gateway>) {
    && (forall g :: g in gateways ==> PlainGateway(g))
    && forall i, j :: 0 <= i < j < |gateways| ==> gateways[i].id != gateways[j].id && gateways[i].nodeUid != gateways[j].nodeUid
  }

  lemma GatewayMeans(g: Gateway)
    ensures ValidGateway(g) <==> PlainGateway(g)
  {
    hide AddrText, GlobalUnicast;
    forall a: Addr ensures ParseAddr(AddrText(a)) == Some(a) {
      ParsePrinted(Prefix(a, 32));
    }
  }

  lemma InventoryMeans(gateways: seq<Gateway>)
    ensures ValidInventory(gateways) <==> PlainInventory(gateways)
  {
    hide ValidGateway, PlainGateway;
    forall g ensures ValidGateway(g) <==> PlainGateway(g) {
      GatewayMeans(g);
    }
  }

  /** The inputs a plan is compiled from: a known class, permitted locations, legal prefixes, the VPC's own bindings, and
      well-formed gateways wherever another location sees them. */
  lemma BuildableMeans(v: Vpc, subnets: seq<Subnet>, existing: seq<Binding>, cfg: Config)
    ensures Buildable(v, subnets, existing, cfg) <==>
            && (if v.classRef == "" then "default" else v.classRef) in cfg.classes
            && (forall s :: s in subnets && s.vpcUid == v.uid ==> s.location in cfg.locations && exists p: Prefix :: PlainNetwork(s.cidr, p))
            && (forall b :: b in existing ==> b.vpcUid == v.uid && b.namespace == v.namespace)
            && forall b :: b in existing && Placed(v, subnets, b.spec.content.location) && Beside(v, subnets, existing, b) ==> PlainInventory(b.gateways)
  {
    hide PlainNetwork, SiteConfig.Network, ValidInventory, PlainInventory, Locals, NameSet, Named;
    forall s: Subnet ensures SiteConfig.Network(s.cidr).Some? <==> exists p: Prefix :: PlainNetwork(s.cidr, p) {
      NetworkExists(s.cidr);
    }
    forall b: Binding ensures ValidInventory(b.gateways) <==> PlainInventory(b.gateways) {
      InventoryMeans(b.gateways);
    }
    forall b: Binding ensures Placed(v, subnets, b.spec.content.location) <==> Locals(v, subnets, b.spec.content.location) != [] {
      HasLocalMeans(v, subnets, b.spec.content.location);
    }
    NamesMean(v, subnets, existing);
  }

  lemma NamesMean(v: Vpc, subnets: seq<Subnet>, existing: seq<Binding>)
    ensures forall n :: n in NameSet(v, subnets, existing) <==> Named(v, subnets, existing, n)
  {
  }

  // ---- What it holds ----

  /** The entry of a subnet: its own fields, and the address after the first of its prefix as gateway. */
  ghost predicate EntryOf(s: Subnet, b: BindingSubnet) {
    && b.name == s.name && b.uid == s.uid && b.cidr == s.cidr && b.deleting == s.deleting
    && exists p: Prefix :: s.cidr == PrefixText(p) && p.addr + 1 < SPACE && b.gateway == AddrText(p.addr + 1)
  }

  lemma EntryMeans(s: Subnet, b: BindingSubnet)
    requires exists p: Prefix :: PlainNetwork(s.cidr, p)
    ensures b == Bound(s) <==> EntryOf(s, b)
  {
    hide PrefixText, AddrText, GlobalUnicast, SiteConfig.Network;
    var p: Prefix :| PlainNetwork(s.cidr, p);
    NetworkMeans(s.cidr, p);
    forall q: Prefix | s.cidr == PrefixText(q) ensures q == p {
      ParsePrinted(p);
      ParsePrinted(q);
    }
    assert Size(p.bits) > 1 by { Sizes(); }
  }

  predicate Applied(b: Binding, location: string) {
    b.spec.content.location == location && b.applied == b.spec.revision
  }

  /** The first binding at the location that has applied its own snapshot. */
  ghost predicate Decides(bindings: seq<Binding>, location: string, i: nat) {
    i < |bindings| && Applied(bindings[i], location) && forall j :: 0 <= j < i ==> !Applied(bindings[j], location)
  }

  /** That binding no longer lists the native subnet. */
  ghost predicate GoneAt(bindings: seq<Binding>, location: string, name: string) {
    exists i: nat :: Decides(bindings, location, i) && name !in bindings[i].resources
  }

  lemma DecidesLater(bindings: seq<Binding>, location: string, i: nat)
    requires bindings != [] && !Applied(bindings[0], location)
    ensures Decides(bindings, location, i + 1) <==> Decides(bindings[1..], location, i)
    ensures !Decides(bindings, location, 0)
  {
    hide Applied;
    var rest := bindings[1..];
    assert forall k :: 0 <= k < |rest| ==> rest[k] == bindings[k + 1];
    assert forall k :: 0 < k < |bindings| ==> bindings[k] == rest[k - 1];
  }

  lemma {:induction false} GoneMeans(bindings: seq<Binding>, location: string, name: string)
    ensures Withdrawn(bindings, location, name) <==> GoneAt(bindings, location, name)
  {
    if bindings == [] {
    } else if Applied(bindings[0], location) {
      assert Decides(bindings, location, 0);
      assert forall i: nat :: Decides(bindings, location, i) ==> i == 0;
    } else {
      GoneMeans(bindings[1..], location, name);
      GoneLater(bindings, location, name);
    }
  }

  lemma GoneLater(bindings: seq<Binding>, location: string, name: string)
    requires bindings != [] && !Applied(bindings[0], location)
    ensures GoneAt(bindings, location, name) <==> GoneAt(bindings[1..], location, name)
  {
    hide Decides, Applied;
    DecidesBound(bindings, location);
    DecidesBound(bindings[1..], location);
    forall i: nat ensures (Decides(bindings, location, i + 1) <==> Decides(bindings[1..], location, i)) && !Decides(bindings, location, 0) {
      DecidesLater(bindings, location, i);
    }
    if i: nat :| Decides(bindings, location, i) && name !in bindings[i].resources {
      assert i > 0 by { DecidesLater(bindings, location, i); }
      assert Decides(bindings[1..], location, i - 1) && bindings[1..][i - 1] == bindings[i];
    }
    if i: nat :| Decides(bindings[1..], location, i) && name !in bindings[1..][i].resources {
      assert Decides(bindings, location, i + 1) && bindings[1..][i] == bindings[i + 1];
    }
  }

  lemma DecidesBound(bindings: seq<Binding>, location: string)
    ensures forall i: nat :: Decides(bindings, location, i) ==> i < |bindings|
  {
  }

  /** Seen from elsewhere: the subnet is not going away, or its location has not yet acknowledged that it is gone. */
  ghost predicate SeenElsewhere(v: Vpc, existing: seq<Binding>, s: Subnet) {
    s.vpcUid == v.uid && (s.deleting ==> !GoneAt(existing, s.location, "ps-" + s.uid))
  }

  /** The gateway as another location sees it: not ready, with exactly the links that end there, otherwise as it is. */
  ghost predicate SeenFrom(g: Gateway, location: string, h: Gateway) {
    && h.id == g.id && h.nodeName == g.nodeName && h.nodeUid == g.nodeUid && h.endpointIp == g.endpointIp && h.transitIp == g.transitIp && h.keys == g.keys
    && !h.ready && forall l :: multiset(h.links)[l] == if location + "/" <= l.peerId then multiset(g.links)[l] else 0
  }

  lemma ShownMeans(g: Gateway, location: string)
    ensures SeenFrom(g, location, Shown(g, location))
  {
    forall l ensures multiset(LinksTo(g.links, location))[l] == if location + "/" <= l.peerId then multiset(g.links)[l] else 0 {
      LinksShown(g.links, location, l);
    }
  }

  /** A snapshot names its VPC and location, is sealed by its own digest, and is a tombstone exactly without subnets. */
  lemma HeaderMeans(v: Vpc, subnets: seq<Subnet>, existing: seq<Binding>, names: seq<string>, profile: string, i: int)
    requires 0 <= i < |names|
    ensures var c := PlanFor(v, subnets, existing, names, profile)[i].content;
      && c.vpcUid == v.uid && c.vpcName == v.name && c.namespace == v.namespace && c.location == names[i] && c.profile == profile
      && c.network == (if v.classRef == "" then "default" else v.classRef)
      && (c.deleting <==> !Placed(v, subnets, names[i])) && (c.deleting <==> c.subnets == [])
  {
    hide Remotes, Peers, Populated, Locals;
    HasLocalMeans(v, subnets, names[i]);
  }

  lemma SealMeans(v: Vpc, subnets: seq<Subnet>, existing: seq<Binding>, names: seq<string>, profile: string, i: int)
    requires 0 <= i < |names|
    ensures var s := PlanFor(v, subnets, existing, names, profile)[i]; s.revision == Sha256(s.content)
  {
    hide Remotes, Populated, Locals, Shown;
    var s := PlanFor(v, subnets, existing, names, profile)[i];
    PeersMembers(v, subnets, existing, names[i]);
    SameMembers(s.content.peers, Peers(v, subnets, existing, names[i]));
    forall k | 0 <= k < |s.content.peers| ensures Unready(s.content.peers[k]) == s.content.peers[k] {
      assert s.content.peers[k] in PeerSet(v, subnets, existing, names[i]);
      var g :| s.content.peers[k].endpoint == Shown(g, names[i]);
      ShownMeans(g, names[i]);
    }
    assert UnreadyAll(s.content.peers) == s.content.peers;
  }

  lemma SubnetsMean(v: Vpc, subnets: seq<Subnet>, existing: seq<Binding>, cfg: Config, names: seq<string>, profile: string, i: int)
    requires DistinctUids(v, subnets) && Buildable(v, subnets, existing, cfg) && 0 <= i < |names|
    ensures var own := PlanFor(v, subnets, existing, names, profile)[i].content.subnets;
      && (forall b :: b in own <==> exists s :: s in subnets && s.vpcUid == v.uid && s.location == names[i] && EntryOf(s, b))
      && forall j, k :: 0 <= j < k < |own| ==> Below(own[j].uid, own[k].uid)
  {
    hide Remotes, Peers, Populated, Locals, EntryOf, Bound, BindingsFit, SiteConfig.Network, PlainNetwork;
    LocalsListed(v, subnets, names[i]);
    var own := Sorted(v, subnets, names[i]);
    forall s | s in subnets && s.vpcUid == v.uid ensures forall b :: b == Bound(s) <==> EntryOf(s, b) {
      assert Placeable(s, cfg);
      NetworkExists(s.cidr);
      forall b ensures b == Bound(s) <==> EntryOf(s, b) {
        EntryMeans(s, b);
      }
    }
    forall b ensures b in own <==> exists s :: s in subnets && s.vpcUid == v.uid && s.location == names[i] && EntryOf(s, b) {
      assert b in own <==> b in LocalSet(v, subnets, names[i]);
    }
    LocalKeyed(v, subnets, names[i]);
    forall j, k | 0 <= j < k < |own| ensures Below(own[j].uid, own[k].uid) {
      assert own[j] in own && own[k] in own && own[j] != own[k];
      BelowTotal(own[j].uid, own[k].uid);
      assert !Below(UidKey(own[k]), UidKey(own[j])) && UidKey(own[j]) != UidKey(own[k]);
    }
  }

  lemma RemotesMean(v: Vpc, subnets: seq<Subnet>, existing: seq<Binding>, names: seq<string>, profile: string, i: int)
    requires Admitted(v, subnets) && Listing(names, NameSet(v, subnets, existing), Self) && 0 <= i < |names|
    ensures var far := PlanFor(v, subnets, existing, names, profile)[i].content.remotes;
      && (forall r :: r in far <==> exists s :: s in subnets && SeenElsewhere(v, existing, s) && s.location != names[i] && r.location == s.location && r.cidr == s.cidr)
      && (forall j, k :: 0 <= j < k < |far| ==> far[j] != far[k] && !Below(far[k].location + ("/" + far[k].cidr), far[j].location + ("/" + far[j].cidr)))
  {
    hide Remotes, Peers, Populated, Locals, Withdrawn, GoneAt, Admitted, NameSet;
    RemotesListed(v, subnets, existing, names, names[i]);
    var far := Sort(Remotes(v, subnets, existing, names, names[i]), RemoteKey);
    forall s: Subnet ensures s.vpcUid == v.uid && Exported(existing, s.location, Bound(s)) <==> SeenElsewhere(v, existing, s) {
      GoneMeans(existing, s.location, "ps-" + s.uid);
    }
    forall r ensures r in far <==> exists s :: s in subnets && SeenElsewhere(v, existing, s) && s.location != names[i] && r.location == s.location && r.cidr == s.cidr {
      assert r in far <==> r in RemoteSet(v, subnets, existing, names[i]);
    }
    forall j, k | 0 <= j < k < |far| ensures !Below(far[k].location + ("/" + far[k].cidr), far[j].location + ("/" + far[j].cidr)) {
      assert !Below(RemoteKey(far[k]), RemoteKey(far[j]));
    }
  }

  /** A gateway of another location where the VPC has a subnet, as this location sees it. */
  ghost predicate PeerFrom(v: Vpc, subnets: seq<Subnet>, existing: seq<Binding>, location: string, p: Peer) {
    && p.location != location && Placed(v, subnets, p.location)
    && exists b, g :: b in existing && b.spec.content.location == p.location && g in b.gateways && SeenFrom(g, location, p.endpoint)
  }

  /** Every peer is such a gateway, and every such gateway is a peer. */
  lemma PeersMean(v: Vpc, subnets: seq<Subnet>, existing: seq<Binding>, names: seq<string>, profile: string, i: int)
    requires 0 <= i < |names|
    ensures var peers := PlanFor(v, subnets, existing, names, profile)[i].content.peers;
      && (forall p :: p in peers ==> PeerFrom(v, subnets, existing, names[i], p))
      && (forall b, g :: b in existing && b.spec.content.location != names[i] && Placed(v, subnets, b.spec.content.location) && g in b.gateways ==>
            exists p :: p in peers && p.location == b.spec.content.location && SeenFrom(g, names[i], p.endpoint))
      && forall j, k :: 0 <= j < k < |peers| ==> !Below(peers[k].location + ("/" + peers[k].endpoint.id), peers[j].location + ("/" + peers[j].endpoint.id))
  {
    hide *;
    var peers := Sort(Peers(v, subnets, existing, names[i]), PeerKey);
    PeersListed(v, subnets, existing, names, profile, i);
    PeerMembers(v, subnets, existing, names[i], peers);
    PeersInOrder(peers);
  }

  lemma PeersListed(v: Vpc, subnets: seq<Subnet>, existing: seq<Binding>, names: seq<string>, profile: string, i: int)
    requires 0 <= i < |names|
    ensures PlanFor(v, subnets, existing, names, profile)[i].content.peers == Sort(Peers(v, subnets, existing, names[i]), PeerKey)
  {
    hide Remotes, Peers, Populated, Locals;
  }

  lemma PeersInOrder(peers: seq<Peer>)
    requires SortedBy(peers, PeerKey)
    ensures forall j, k :: 0 <= j < k < |peers| ==> !Below(peers[k].location + ("/" + peers[k].endpoint.id), peers[j].location + ("/" + peers[j].endpoint.id))
  {
    forall j, k | 0 <= j < k < |peers| ensures !Below(peers[k].location + ("/" + peers[k].endpoint.id), peers[j].location + ("/" + peers[j].endpoint.id)) {
      assert !Below(PeerKey(peers[k]), PeerKey(peers[j]));
    }
  }

  lemma PeerMembers(v: Vpc, subnets: seq<Subnet>, existing: seq<Binding>, location: string, peers: seq<Peer>)
    requires multiset(peers) == multiset(Peers(v, subnets, existing, location))
    ensures forall p :: p in peers ==> PeerFrom(v, subnets, existing, location, p)
    ensures forall b, g :: b in existing && b.spec.content.location != location && Placed(v, subnets, b.spec.content.location) && g in b.gateways ==>
              exists p :: p in peers && p.location == b.spec.content.location && SeenFrom(g, location, p.endpoint)
  {
    hide Peers, Shown, SeenFrom, HasLocal, Placed;
    PeersMembers(v, subnets, existing, location);
    SameMembers(peers, Peers(v, subnets, existing, location));
    forall g ensures SeenFrom(g, location, Shown(g, location)) {
      ShownMeans(g, location);
    }
    forall n ensures HasLocal(v, subnets, n) <==> Placed(v, subnets, n) {
      PlacedMeans(v, subnets, n);
    }
    forall p | p in peers ensures PeerFrom(v, subnets, existing, location, p) {
      assert p in PeerSet(v, subnets, existing, location);
    }
    forall b, g | b in existing && b.spec.content.location != location && Placed(v, subnets, b.spec.content.location) && g in b.gateways
      ensures exists p :: p in peers && p.location == b.spec.content.location && SeenFrom(g, location, p.endpoint)
    {
      assert Peer(b.spec.content.location, Shown(g, location)) in PeerSet(v, subnets, existing, location);
    }
  }

  lemma PlacedMeans(v: Vpc, subnets: seq<Subnet>, location: string)
    ensures HasLocal(v, subnets, location) <==> Placed(v, subnets, location)
  {
  }

  /** The authorized locations of a snapshot, and the locations there are snapshots for, in ascending order. */
  lemma LocationsMean(v: Vpc, subnets: seq<Subnet>, existing: seq<Binding>, names: seq<string>, profile: string, i: int)
    requires Listing(names, NameSet(v, subnets, existing), Self) && 0 <= i < |names|
    ensures forall n :: n in names <==> Named(v, subnets, existing, n)
    ensures forall j, k :: 0 <= j < k < |names| ==> Below(names[j], names[k])
    ensures var open := PlanFor(v, subnets, existing, names, profile)[i].content.authorized;
      (forall n :: n in open <==> Placed(v, subnets, n)) && forall j, k :: 0 <= j < k < |open| ==> Below(open[j], open[k])
  {
    hide Remotes, Peers, Locals;
    NamesMean(v, subnets, existing);
    ListingMembers(names, NameSet(v, subnets, existing));
    PopulatedListed(v, subnets, names);
    Ascending(names);
    Ascending(Populated(v, subnets, names));
  }

  lemma Ascending(s: seq<string>)
    requires SortedBy(s, Self) && Distinct(s)
    ensures forall j, k :: 0 <= j < k < |s| ==> Below(s[j], s[k])
  {
    forall j, k | 0 <= j < k < |s| ensures Below(s[j], s[k]) {
      BelowTotal(s[j], s[k]);
      assert !Below(Self(s[k]), Self(s[j]));
    }
  }
}
