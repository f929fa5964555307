/** The per-location snapshots the authority compiles from one VPC's subnets
    (internal/platformplan/plan.go). */
module Snapshot {
  import opened Wrappers
  import opened Ipv4
  import opened Ordering
  import SiteConfig

  datatype Vpc = Vpc(uid: string, name: string, namespace: string, classRef: string)

  datatype Subnet = Subnet(name: string, uid: string, cidr: string, location: string, vpcUid: string, deleting: bool)

  /** One link receipt of a gateway; the receipt's other fields are carried unread. */
  datatype Link = Link(peerId: string, receipt: string)

  datatype Gateway = Gateway(
    id: string, nodeName: string, nodeUid: string, endpointIp: string, transitIp: string, keys: string, links: seq<Link>, ready: bool)

  datatype BindingSubnet = BindingSubnet(name: string, uid: string, cidr: string, gateway: string, deleting: bool)

  datatype Remote = Remote(location: string, cidr: string)

  datatype Peer = Peer(location: string, endpoint: Gateway)

  datatype Content = Content(
    vpcUid: string, vpcName: string, namespace: string, location: string, network: string, profile: string, subnets: seq<BindingSubnet>,
    authorized: seq<string>, remotes: seq<Remote>, peers: seq<Peer>, deleting: bool)

  /** The digest is injective in what it is computed over. */
  datatype Revision = Unset | Sha256(content: Content)

  datatype Spec = Spec(content: Content, revision: Revision)

  /** A stored binding: the names of the native subnets its status still lists stand for its resources. */
  datatype Binding = Binding(vpcUid: string, namespace: string, spec: Spec, applied: Revision, resources: set<string>, gateways: seq<Gateway>)

  /** What the configuration says about one project: its classes with their profiles, and its locations. */
  datatype Config = Config(classes: map<string, string>, locations: set<string>)

  datatype Problem = ClassUnknown | BindingForeign | LocationRefused | PrefixInvalid | GatewayInvalid

  // ---- Names and revisions ----

  /** Short digests are taken to be injective. */
  function NativeName(uid: string): (n: string) {
    "ps-" + uid
  }

  function Unready(p: Peer): (q: Peer) {
    p.(endpoint := p.endpoint.(ready := false))
  }

  function UnreadyAll(peers: seq<Peer>): (q: seq<Peer>)
    ensures |q| == |peers| && forall i :: 0 <= i < |q| ==> q[i] == Unready(peers[i])
  {
    seq(|peers|, i requires 0 <= i < |peers| => Unready(peers[i]))
  }

  function RevisionOf(c: Content): (r: Revision) {
    Sha256(c.(peers := UnreadyAll(c.peers)))
  }

  function Sealed(c: Content): (s: Spec) {
    Spec(c, RevisionOf(c))
  }

  function ClassOf(v: Vpc): (c: string) {
    if v.classRef == "" then "default" else v.classRef
  }

  // ---- What goes into one snapshot ----

  predicate Belongs(v: Vpc, s: Subnet) {
    s.vpcUid == v.uid
  }

  function FirstHost(cidr: string): (a: string) {
    var p := SiteConfig.Network(cidr);
    if p.Some? && p.value.addr + 1 < SPACE then AddrText(p.value.addr + 1) else ""
  }

  function Bound(s: Subnet): (b: BindingSubnet) {
    BindingSubnet(s.name, s.uid, s.cidr, FirstHost(s.cidr), s.deleting)
  }

  /** The VPC's subnets at one location, in input order. */
  function Locals(v: Vpc, subnets: seq<Subnet>, location: string): (r: seq<BindingSubnet>) {
    if subnets == [] then []
    else
      var last := subnets[|subnets| - 1];
      Locals(v, subnets[..|subnets| - 1], location) + if Belongs(v, last) && last.location == location then [Bound(last)] else []
  }

  /** The first binding at the location that has applied its own snapshot decides. */
  function Withdrawn(bindings: seq<Binding>, location: string, name: string): (w: bool) {
    if bindings == [] then false
    else if bindings[0].spec.content.location != location || bindings[0].applied != bindings[0].spec.revision then
      Withdrawn(bindings[1..], location, name)
    else name !in bindings[0].resources
  }

  predicate Exported(existing: seq<Binding>, location: string, b: BindingSubnet) {
    !b.deleting || !Withdrawn(existing, location, NativeName(b.uid))
  }

  function Exports(existing: seq<Binding>, location: string, locals: seq<BindingSubnet>): (r: seq<Remote>) {
    if locals == [] then []
    else
      var last := locals[|locals| - 1];
      Exports(existing, location, locals[..|locals| - 1]) + if Exported(existing, location, last) then [Remote(location, last.cidr)] else []
  }

  function UidKey(b: BindingSubnet): (k: string) {
    b.uid
  }

  function RemoteKey(r: Remote): (k: string) {
    r.location + ("/" + r.cidr)
  }

  function PeerKey(p: Peer): (k: string) {
    p.location + ("/" + p.endpoint.id)
  }

  function Sorted(v: Vpc, subnets: seq<Subnet>, location: string): (r: seq<BindingSubnet>) {
    Sort(Locals(v, subnets, location), UidKey)
  }

  /** Exports of every location but one, in the order of the names. */
  function Remotes(v: Vpc, subnets: seq<Subnet>, existing: seq<Binding>, names: seq<string>, location: string): (r: seq<Remote>) {
    if names == [] then []
    else
      var last := names[|names| - 1];
      Remotes(v, subnets, existing, names[..|names| - 1], location) +
      if last == location then [] else Exports(existing, last, Locals(v, subnets, last))
  }

  function LinksTo(links: seq<Link>, location: string): (r: seq<Link>) {
    if links == [] then []
    else
      var last := links[|links| - 1];
      LinksTo(links[..|links| - 1], location) + if location + "/" <= last.peerId then [last] else []
  }

  /** A gateway as another location sees it: only the links that end there, and never its readiness. */
  function Shown(g: Gateway, location: string): (h: Gateway) {
    g.(ready := false, links := LinksTo(g.links, location))
  }

  function PeersAt(gateways: seq<Gateway>, from: string, location: string): (r: seq<Peer>) {
    if gateways == [] then []
    else PeersAt(gateways[..|gateways| - 1], from, location) + [Peer(from, Shown(gateways[|gateways| - 1], location))]
  }

  function Peers(v: Vpc, subnets: seq<Subnet>, existing: seq<Binding>, location: string): (r: seq<Peer>) {
    if existing == [] then []
    else
      var last := existing[|existing| - 1];
      var from := last.spec.content.location;
      Peers(v, subnets, existing[..|existing| - 1], location) +
      if from == location || Locals(v, subnets, from) == [] then [] else PeersAt(last.gateways, from, location)
  }

  /** Locations with at least one subnet. */
  function Populated(v: Vpc, subnets: seq<Subnet>, names: seq<string>): (r: seq<string>) {
    if names == [] then []
    else
      var last := names[|names| - 1];
      Populated(v, subnets, names[..|names| - 1]) + if Locals(v, subnets, last) != [] then [last] else []
  }

  function ContentFor(v: Vpc, subnets: seq<Subnet>, existing: seq<Binding>, names: seq<string>, profile: string, location: string): (c: Content) {
    Content(v.uid, v.name, v.namespace, location, ClassOf(v), profile, Sorted(v, subnets, location), Populated(v, subnets, names),
            Sort(Remotes(v, subnets, existing, names, location), RemoteKey), Sort(Peers(v, subnets, existing, location), PeerKey),
            Locals(v, subnets, location) == [])
  }

  function PlanFor(v: Vpc, subnets: seq<Subnet>, existing: seq<Binding>, names: seq<string>, profile: string): (p: seq<Spec>) {
    seq(|names|, i requires 0 <= i < |names| => Sealed(ContentFor(v, subnets, existing, names, profile, names[i])))
  }

  // ---- What is accepted ----

  predicate ValidGateway(g: Gateway) {
    var ip := ParseAddr(g.endpointIp);
    ip.Some? && GlobalUnicast(ip.value) && ParseAddr(g.transitIp).Some? && g.id != "" && g.nodeUid != "" && g.nodeName != ""
  }

  ghost predicate ValidInventory(gateways: seq<Gateway>) {
    && (forall i :: 0 <= i < |gateways| ==> ValidGateway(gateways[i]))
    && (forall i, j :: 0 <= i < j < |gateways| ==> gateways[i].id != gateways[j].id && gateways[i].nodeUid != gateways[j].nodeUid)
  }

  /** The locations of existing bindings and of the VPC's subnets. */
  function NameSet(v: Vpc, subnets: seq<Subnet>, existing: seq<Binding>): (names: set<string>) {
    (set b | b in existing :: b.spec.content.location) + SubnetLocations(v, subnets)
  }

  function SubnetLocations(v: Vpc, subnets: seq<Subnet>): (names: set<string>) {
    set s | s in subnets && Belongs(v, s) :: s.location
  }

  /** The gateways of one location are read when another location exists and this one has a subnet. */
  ghost predicate ReadsInventory(v: Vpc, subnets: seq<Subnet>, names: set<string>, b: Binding) {
    Locals(v, subnets, b.spec.content.location) != [] && exists n :: n in names && n != b.spec.content.location
  }

  ghost predicate Buildable(v: Vpc, subnets: seq<Subnet>, existing: seq<Binding>, cfg: Config) {
    && ClassOf(v) in cfg.classes
    && (forall s :: s in subnets && Belongs(v, s) ==> Placeable(s, cfg))
    && BindingsFit(v, subnets, existing, NameSet(v, subnets, existing))
  }

  ghost predicate BindingsFit(v: Vpc, subnets: seq<Subnet>, existing: seq<Binding>, names: set<string>) {
    forall b :: b in existing ==> b.vpcUid == v.uid && b.namespace == v.namespace && (ReadsInventory(v, subnets, names, b) ==> ValidInventory(b.gateways))
  }

  // ---- Build ----

  predicate Placeable(s: Subnet, cfg: Config) {
    s.location in cfg.locations && SiteConfig.Network(s.cidr).Some?
  }

  type ByLocation = map<string, seq<BindingSubnet>>

  function At(byLocation: ByLocation, location: string): (r: seq<BindingSubnet>) {
    if location in byLocation then byLocation[location] else []
  }

  ghost predicate Grouped(v: Vpc, done: seq<Subnet>, byLocation: ByLocation) {
    forall l :: At(byLocation, l) == Locals(v, done, l)
  }

  lemma GroupOne(v: Vpc, done: seq<Subnet>, s: Subnet, byLocation: ByLocation)
    requires Grouped(v, done, byLocation)
    ensures Belongs(v, s) ==> Grouped(v, done + [s], byLocation[s.location := At(byLocation, s.location) + [Bound(s)]])
    ensures !Belongs(v, s) ==> Grouped(v, done + [s], byLocation)
  {
    assert (done + [s])[..|done|] == done;
    var next := if Belongs(v, s) then byLocation[s.location := At(byLocation, s.location) + [Bound(s)]] else byLocation;
    forall l ensures At(next, l) == Locals(v, done + [s], l) {
      assert At(byLocation, l) == Locals(v, done, l);
    }
  }

  lemma LocateOne(v: Vpc, done: seq<Subnet>, s: Subnet)
    ensures SubnetLocations(v, done + [s]) == SubnetLocations(v, done) + if Belongs(v, s) then {s.location} else {}
  {
  }

  /** Groups the VPC's subnets by location. */
  method GroupSubnets(v: Vpc, subnets: seq<Subnet>, cfg: Config) returns (r: Result<(set<string>, ByLocation), Problem>)
    ensures r.Ok? <==> forall s :: s in subnets && Belongs(v, s) ==> Placeable(s, cfg)
    ensures r.Ok? ==> r.value.0 == SubnetLocations(v, subnets)
    ensures r.Ok? ==> Grouped(v, subnets, r.value.1)
  {
    var names: set<string> := {};
    var byLocation: ByLocation := map[];
    assert Grouped(v, [], byLocation) && SubnetLocations(v, []) == {};
    hide Bound, Placeable, Grouped, At, Locals, SubnetLocations;
    for i := 0 to |subnets|
      invariant names == SubnetLocations(v, subnets[..i])
      invariant Grouped(v, subnets[..i], byLocation)
      invariant forall s :: s in subnets[..i] && Belongs(v, s) ==> Placeable(s, cfg)
    {
      var s := subnets[i];
      assert subnets[..i + 1] == subnets[..i] + [s];
      GroupOne(v, subnets[..i], s, byLocation);
      LocateOne(v, subnets[..i], s);
      if !Belongs(v, s) {
        continue;
      }
      var placeable := Placeable(s, cfg);
      if !placeable {
        return Err(if s.location !in cfg.locations then LocationRefused else PrefixInvalid);
      }
      names := names + {s.location};
      byLocation := byLocation[s.location := At(byLocation, s.location) + [Bound(s)]];
    }
    assert subnets[..|subnets|] == subnets;
    return Ok((names, byLocation));
  }

  method WithdrawnAt(bindings: seq<Binding>, location: string, name: string) returns (w: bool)
    ensures w == Withdrawn(bindings, location, name)
  {
    for i := 0 to |bindings|
      invariant Withdrawn(bindings, location, name) == Withdrawn(bindings[i..], location, name)
    {
      var b := bindings[i];
      if b.spec.content.location != location || b.applied != b.spec.revision {
        continue;
      }
      return name !in b.resources;
    }
    return false;
  }

  method ExportsOf(existing: seq<Binding>, location: string, local: seq<BindingSubnet>) returns (exports: seq<Remote>)
    ensures exports == Exports(existing, location, local)
  {
    exports := [];
    for j := 0 to |local|
      invariant exports == Exports(existing, location, local[..j])
    {
      assert local[..j + 1][..j] == local[..j];
      var gone := WithdrawnAt(existing, location, NativeName(local[j].uid));
      if !local[j].deleting || !gone {
        exports := exports + [Remote(location, local[j].cidr)];
      }
    }
    assert local[..|local|] == local;
  }

  /** The remote subnets of one location: everything exported elsewhere. */
  method CollectRemotes(v: Vpc, subnets: seq<Subnet>, byLocation: ByLocation, existing: seq<Binding>, names: seq<string>, location: string)
    returns (remotes: seq<Remote>)
    requires Grouped(v, subnets, byLocation)
    ensures remotes == Remotes(v, subnets, existing, names, location)
  {
    remotes := [];
    hide Locals, Exports;
    for i := 0 to |names|
      invariant remotes == Remotes(v, subnets, existing, names[..i], location)
    {
      assert names[..i + 1][..i] == names[..i];
      if names[i] == location {
        continue;
      }
      var exports := ExportsOf(existing, names[i], At(byLocation, names[i]));
      remotes := remotes + exports;
    }
    assert names[..|names|] == names;
  }

  method KeepLinks(links: seq<Link>, location: string) returns (kept: seq<Link>)
    ensures kept == LinksTo(links, location)
  {
    kept := [];
    for i := 0 to |links|
      invariant kept == LinksTo(links[..i], location)
    {
      assert links[..i + 1][..i] == links[..i];
      if location + "/" <= links[i].peerId {
        kept := kept + [links[i]];
      }
    }
    assert links[..|links|] == links;
  }

  /** Checks one inventory and shows its gateways to another location. */
  method ShowInventory(gateways: seq<Gateway>, from: string, location: string) returns (peers: Option<seq<Peer>>)
    ensures peers.Some? <==> ValidInventory(gateways)
    ensures peers.Some? ==> peers.value == PeersAt(gateways, from, location)
  {
    hide ValidGateway;
    var ids: set<string>, nodes: set<string> := {}, {};
    var out: seq<Peer> := [];
    for i := 0 to |gateways|
      invariant ids == (set k | 0 <= k < i :: gateways[k].id) && nodes == set k | 0 <= k < i :: gateways[k].nodeUid
      invariant ValidInventory(gateways[..i]) && out == PeersAt(gateways[..i], from, location)
    {
      assert gateways[..i + 1][..i] == gateways[..i];
      assert forall k :: 0 <= k < i ==> gateways[..i][k] == gateways[k];
      var g := gateways[i];
      var good := ValidGateway(g);
      if !good || g.id in ids || g.nodeUid in nodes {
        return None;
      }
      ids, nodes := ids + {g.id}, nodes + {g.nodeUid};
      var kept := KeepLinks(g.links, location);
      out := out + [Peer(from, g.(ready := false, links := kept))];
    }
    assert gateways[..|gateways|] == gateways;
    return Some(out);
  }

  method CollectPeers(v: Vpc, subnets: seq<Subnet>, byLocation: ByLocation, existing: seq<Binding>, location: string)
    returns (peers: Option<seq<Peer>>)
    requires Grouped(v, subnets, byLocation)
    ensures peers.Some? <==> InventoriesValid(v, subnets, existing, location)
    ensures peers.Some? ==> peers.value == Peers(v, subnets, existing, location)
  {
    hide Locals, ValidInventory, PeersAt;
    var out: seq<Peer> := [];
    for i := 0 to |existing|
      invariant out == Peers(v, subnets, existing[..i], location)
      invariant InventoriesValid(v, subnets, existing[..i], location)
    {
      assert existing[..i + 1] == existing[..i] + [existing[i]];
      assert existing[..i + 1][..i] == existing[..i];
      var from := existing[i].spec.content.location;
      if from == location || At(byLocation, from) == [] {
        continue;
      }
      var shown := ShowInventory(existing[i].gateways, from, location);
      if shown.None? {
        return None;
      }
      out := out + shown.value;
    }
    assert existing[..|existing|] == existing;
    return Some(out);
  }

  /** Every inventory read for one location is valid. */
  ghost predicate InventoriesValid(v: Vpc, subnets: seq<Subnet>, existing: seq<Binding>, location: string) {
    forall b :: b in existing && b.spec.content.location != location && Locals(v, subnets, b.spec.content.location) != [] ==>
      ValidInventory(b.gateways)
  }

  lemma InventoriesOverall(v: Vpc, subnets: seq<Subnet>, existing: seq<Binding>, names: set<string>)
    ensures (forall n :: n in names ==> InventoriesValid(v, subnets, existing, n)) <==>
            (forall b :: b in existing && ReadsInventory(v, subnets, names, b) ==> ValidInventory(b.gateways))
  {
    hide Locals, ValidInventory;
  }

  method ListPopulated(v: Vpc, subnets: seq<Subnet>, byLocation: ByLocation, names: seq<string>) returns (authorized: seq<string>)
    requires Grouped(v, subnets, byLocation)
    ensures authorized == Populated(v, subnets, names)
  {
    authorized := [];
    hide Locals;
    for i := 0 to |names|
      invariant authorized == Populated(v, subnets, names[..i])
    {
      assert names[..i + 1][..i] == names[..i];
      if At(byLocation, names[i]) != [] {
        authorized := authorized + [names[i]];
      }
    }
    assert names[..|names|] == names;
  }

  /** Compiles every location's snapshot. */
  method Build(v: Vpc, subnets: seq<Subnet>, existing: seq<Binding>, cfg: Config)
    returns (r: Result<seq<Spec>, Problem>, ghost names: seq<string>)
    ensures r.Ok? <==> Buildable(v, subnets, existing, cfg)
    ensures r.Ok? ==> Listing(names, NameSet(v, subnets, existing), Self)
    ensures r.Ok? ==> r.value == PlanFor(v, subnets, existing, names, cfg.classes[ClassOf(v)])
  {
    hide SiteConfig.Network, ReadsInventory, ValidInventory, PlanFor, ClassOf, Listing;
    names := [];
    if ClassOf(v) !in cfg.classes {
      return Err(ClassUnknown), names;
    }
    var locations: set<string> := {};
    for i := 0 to |existing|
      invariant locations == set b | b in existing[..i] :: b.spec.content.location
      invariant forall b :: b in existing[..i] ==> b.vpcUid == v.uid && b.namespace == v.namespace
    {
      assert existing[..i + 1] == existing[..i] + [existing[i]];
      if existing[i].vpcUid != v.uid || existing[i].namespace != v.namespace {
        return Err(BindingForeign), names;
      }
      locations := locations + {existing[i].spec.content.location};
    }
    assert existing[..|existing|] == existing;
    var grouped := GroupSubnets(v, subnets, cfg);
    if grouped.Err? {
      return Err(grouped.error), names;
    }
    var specs;
    specs, names := BuildAll(v, subnets, existing, cfg, locations + grouped.value.0, grouped.value.1);
    return if specs.Some? then Ok(specs.value) else Err(GatewayInvalid), names;
  }

  method BuildAll(v: Vpc, subnets: seq<Subnet>, existing: seq<Binding>, cfg: Config, locations: set<string>, byLocation: ByLocation)
    returns (r: Option<seq<Spec>>, ghost listed: seq<string>)
    requires Grouped(v, subnets, byLocation)
    requires locations == NameSet(v, subnets, existing) && ClassOf(v) in cfg.classes
    ensures r.Some? <==> forall b :: b in existing && ReadsInventory(v, subnets, locations, b) ==> ValidInventory(b.gateways)
    ensures Listing(listed, locations, Self)
    ensures r.Some? ==> r.value == PlanFor(v, subnets, existing, listed, cfg.classes[ClassOf(v)])
  {
    hide Locals, ValidInventory, InventoriesValid, At, ReadsInventory, NameSet, ContentFor, Listing;
    InventoriesOverall(v, subnets, existing, locations);
    var names := SortedNames(locations);
    listed := names;
    var profile := cfg.classes[ClassOf(v)];
    var authorized := ListPopulated(v, subnets, byLocation, names);
    var result: seq<Spec> := [];
    assert forall n :: n in locations <==> n in names by { ListingMembers(names, locations); }
    for i := 0 to |names|
      invariant |result| == i && forall k :: 0 <= k < i ==> result[k] == Sealed(ContentFor(v, subnets, existing, names, profile, names[k]))
      invariant forall k :: 0 <= k < i ==> InventoriesValid(v, subnets, existing, names[k])
    {
      var spec := BuildOne(v, subnets, byLocation, existing, names, profile, authorized, names[i]);
      if spec.None? {
        assert names[i] in locations;
        return None, listed;
      }
      result := result + [spec.value];
    }
    return Some(result), listed;
  }

  lemma ListingMembers(s: seq<string>, members: set<string>)
    requires Listing(s, members, Self)
    ensures forall x :: x in members <==> x in s
  {
  }

  method BuildOne(v: Vpc, subnets: seq<Subnet>, byLocation: ByLocation, existing: seq<Binding>, names: seq<string>, profile: string,
                  authorized: seq<string>, name: string) returns (spec: Option<Spec>)
    requires Grouped(v, subnets, byLocation)
    requires authorized == Populated(v, subnets, names)
    ensures spec.Some? <==> InventoriesValid(v, subnets, existing, name)
    ensures spec.Some? ==> spec.value == Sealed(ContentFor(v, subnets, existing, names, profile, name))
  {
    hide Locals, Remotes, Peers, Populated, InventoriesValid;
    var local := At(byLocation, name);
    var remotes := CollectRemotes(v, subnets, byLocation, existing, names, name);
    var peers := CollectPeers(v, subnets, byLocation, existing, name);
    if peers.None? {
      return None;
    }
    return Some(Sealed(Content(v.uid, v.name, v.namespace, name, ClassOf(v), profile, Sort(local, UidKey), authorized,
                               Sort(remotes, RemoteKey), Sort(peers.value, PeerKey), local == [])));
  }

  // ---- What a snapshot says ----

  /** What the caller guarantees of the subnets it passes: accepted claims have distinct owners and disjoint prefixes. */
  ghost predicate Admitted(v: Vpc, subnets: seq<Subnet>) {
    forall i, j :: 0 <= i < j < |subnets| && Belongs(v, subnets[i]) && Belongs(v, subnets[j]) ==> Apart(subnets[i], subnets[j])
  }

  /** Every subnet of the VPC is listed under its own UID. */
  ghost predicate DistinctUids(v: Vpc, subnets: seq<Subnet>) {
    forall i, j :: 0 <= i < j < |subnets| && Belongs(v, subnets[i]) && Belongs(v, subnets[j]) ==> subnets[i].uid != subnets[j].uid
  }

  lemma AdmittedUids(v: Vpc, subnets: seq<Subnet>)
    requires Admitted(v, subnets)
    ensures DistinctUids(v, subnets)
  {
    hide SiteConfig.Network;
  }

  predicate Apart(s: Subnet, t: Subnet) {
    && s.uid != t.uid && s.cidr != t.cidr
    && (SiteConfig.Network(s.cidr).Some? && SiteConfig.Network(t.cidr).Some? ==>
          !SiteConfig.Network(s.cidr).value.Overlaps(SiteConfig.Network(t.cidr).value))
  }

  ghost predicate OnePerLocation(existing: seq<Binding>) {
    forall i, j :: 0 <= i < j < |existing| ==> existing[i].spec.content.location != existing[j].spec.content.location
  }

  function LocalSet(v: Vpc, subnets: seq<Subnet>, location: string): (r: set<BindingSubnet>) {
    set s | s in subnets && Belongs(v, s) && s.location == location :: Bound(s)
  }

  function RemoteSet(v: Vpc, subnets: seq<Subnet>, existing: seq<Binding>, location: string): (r: set<Remote>) {
    set s | s in subnets && Belongs(v, s) && s.location != location && Exported(existing, s.location, Bound(s)) :: Remote(s.location, s.cidr)
  }

  lemma {:induction false} LocalsMembers(v: Vpc, subnets: seq<Subnet>, location: string)
    ensures forall b :: b in Locals(v, subnets, location) <==> b in LocalSet(v, subnets, location)
    ensures DistinctUids(v, subnets) ==> Distinct(Locals(v, subnets, location))
  {
    hide Bound, Apart;
    if subnets != [] {
      var front, last := subnets[..|subnets| - 1], subnets[|subnets| - 1];
      assert subnets == front + [last];
      LocalsMembers(v, front, location);
      if DistinctUids(v, subnets) && Belongs(v, last) && last.location == location {
        assert Bound(last) !in Locals(v, front, location) by { BoundApart(v, front, last, location); }
      }
    }
  }

  lemma BoundApart(v: Vpc, front: seq<Subnet>, last: Subnet, location: string)
    requires DistinctUids(v, front + [last]) && Belongs(v, last)
    ensures Bound(last) !in LocalSet(v, front, location)
  {
    forall s | s in front && Belongs(v, s) ensures Bound(s) != Bound(last) {
      var i :| 0 <= i < |front| && front[i] == s;
      assert (front + [last])[i] == s && (front + [last])[|front|] == last;
    }
  }

  lemma {:induction false} ExportsMembers(existing: seq<Binding>, location: string, locals: seq<BindingSubnet>)
    ensures forall r :: r in Exports(existing, location, locals) <==> exists b :: b in locals && Exported(existing, location, b) && r == Remote(location, b.cidr)
    ensures (forall i, j :: 0 <= i < j < |locals| ==> locals[i].cidr != locals[j].cidr) ==> Distinct(Exports(existing, location, locals))
  {
    hide Exported;
    if locals != [] {
      var front, last := locals[..|locals| - 1], locals[|locals| - 1];
      assert locals == front + [last];
      ExportsMembers(existing, location, front);
      if forall i, j :: 0 <= i < j < |locals| ==> locals[i].cidr != locals[j].cidr {
        assert forall i :: 0 <= i < |front| ==> locals[i] == front[i];
        assert Remote(location, last.cidr) !in Exports(existing, location, front);
      }
    }
  }

  lemma {:induction false} LocalCidrsDiffer(v: Vpc, subnets: seq<Subnet>, location: string)
    requires Admitted(v, subnets)
    ensures forall i, j :: 0 <= i < j < |Locals(v, subnets, location)| ==> Locals(v, subnets, location)[i].cidr != Locals(v, subnets, location)[j].cidr
  {
    hide Apart;
    if subnets != [] {
      var front, last := subnets[..|subnets| - 1], subnets[|subnets| - 1];
      assert subnets == front + [last];
      LocalCidrsDiffer(v, front, location);
      LocalsMembers(v, front, location);
      var locals := Locals(v, front, location);
      forall i | 0 <= i < |locals| && Belongs(v, last) ensures locals[i].cidr != last.cidr {
        assert locals[i] in LocalSet(v, front, location);
        var s :| s in front && Belongs(v, s) && s.location == location && Bound(s) == locals[i];
        CidrApart(v, front, last, s);
      }
    }
  }

  lemma CidrApart(v: Vpc, front: seq<Subnet>, last: Subnet, s: Subnet)
    requires Admitted(v, front + [last]) && s in front && Belongs(v, s) && Belongs(v, last)
    ensures s.cidr != last.cidr && s.uid != last.uid
  {
    var i :| 0 <= i < |front| && front[i] == s;
    assert (front + [last])[i] == s && (front + [last])[|front|] == last;
  }

  /** One location's exports are the exported subnets placed there. */
  lemma ExportsOfLocals(v: Vpc, subnets: seq<Subnet>, existing: seq<Binding>, location: string, r: Remote)
    ensures r in Exports(existing, location, Locals(v, subnets, location)) <==>
            exists s :: s in subnets && Belongs(v, s) && s.location == location && Exported(existing, location, Bound(s)) && r == Remote(location, s.cidr)
  {
    hide Exported;
    LocalsMembers(v, subnets, location);
    ExportsMembers(existing, location, Locals(v, subnets, location));
    if s :| s in subnets && Belongs(v, s) && s.location == location && Exported(existing, location, Bound(s)) && r == Remote(location, s.cidr) {
      assert Bound(s) in LocalSet(v, subnets, location);
    }
  }

  lemma {:induction false} RemotesMembers(v: Vpc, subnets: seq<Subnet>, existing: seq<Binding>, names: seq<string>, location: string)
    ensures forall r :: r in Remotes(v, subnets, existing, names, location) <==>
              r.location in names && r.location != location && r in Exports(existing, r.location, Locals(v, subnets, r.location))
    ensures Admitted(v, subnets) && Distinct(names) ==> Distinct(Remotes(v, subnets, existing, names, location))
  {
    hide Locals, Exports, Admitted;
    if names != [] {
      var front, last := names[..|names| - 1], names[|names| - 1];
      assert names == front + [last];
      RemotesMembers(v, subnets, existing, front, location);
      ExportsLocation(existing, last, Locals(v, subnets, last));
      if Admitted(v, subnets) && Distinct(names) {
        LocalCidrsDiffer(v, subnets, last);
        ExportsMembers(existing, last, Locals(v, subnets, last));
        assert last !in front;
        DistinctJoin(Remotes(v, subnets, existing, front, location), Exports(existing, last, Locals(v, subnets, last)));
      }
    }
  }

  lemma ExportsLocation(existing: seq<Binding>, location: string, locals: seq<BindingSubnet>)
    ensures forall r :: r in Exports(existing, location, locals) ==> r.location == location
  {
    ExportsMembers(existing, location, locals);
  }

  lemma DistinctJoin<T(!new)>(a: seq<T>, b: seq<T>)
    requires Distinct(a) && Distinct(b) && forall x :: x in a ==> x !in b
    ensures Distinct(a + b)
  {
    var s := a + b;
    assert forall i :: 0 <= i < |a| ==> s[i] == a[i] && a[i] in a;
    assert forall i :: |a| <= i < |s| ==> s[i] == b[i - |a|] && b[i - |a|] in b;
  }

  /** The remote list of a snapshot is the listing of everything exported elsewhere. */
  lemma RemotesListed(v: Vpc, subnets: seq<Subnet>, existing: seq<Binding>, names: seq<string>, location: string)
    requires Admitted(v, subnets) && Listing(names, NameSet(v, subnets, existing), Self)
    ensures Listing(Sort(Remotes(v, subnets, existing, names, location), RemoteKey), RemoteSet(v, subnets, existing, location), RemoteKey)
  {
    hide Exported, Admitted, Locals, Exports, Remotes, Bound;
    RemotesMembers(v, subnets, existing, names, location);
    var all, members := Remotes(v, subnets, existing, names, location), RemoteSet(v, subnets, existing, location);
    forall r ensures r in all <==> r in members {
      ExportsOfLocals(v, subnets, existing, r.location, r);
    }
    SortLists(all, members, RemoteKey);
  }

  lemma LocalsListed(v: Vpc, subnets: seq<Subnet>, location: string)
    requires DistinctUids(v, subnets)
    ensures Listing(Sorted(v, subnets, location), LocalSet(v, subnets, location), UidKey)
  {
    LocalsMembers(v, subnets, location);
    SortLists(Locals(v, subnets, location), LocalSet(v, subnets, location), UidKey);
  }

  lemma ListedOnce<T(!new)>(s: seq<T>, members: set<T>, key: T -> string, x: T)
    requires Listing(s, members, key)
    ensures multiset(s)[x] == if x in members then 1 else 0
  {
    DistinctMultiplicity(s);
    assert x in s <==> x in multiset(s);
  }

  /** Every subnet that is not going away appears exactly once in every other location's remote list; one that is going
      away stays there until its own location has acknowledged its removal. */
  lemma ExportedOnce(v: Vpc, subnets: seq<Subnet>, existing: seq<Binding>, names: seq<string>, profile: string, i: int, s: Subnet)
    requires Admitted(v, subnets) && Listing(names, NameSet(v, subnets, existing), Self)
    requires 0 <= i < |names| && s in subnets && Belongs(v, s) && s.location != names[i]
    ensures multiset(PlanFor(v, subnets, existing, names, profile)[i].content.remotes)[Remote(s.location, s.cidr)]
            == if s.deleting && Withdrawn(existing, s.location, NativeName(s.uid)) then 0 else 1
  {
    hide Remotes, Peers, Populated, Locals, Withdrawn;
    RemotesListed(v, subnets, existing, names, names[i]);
    var r := Remote(s.location, s.cidr);
    var members := RemoteSet(v, subnets, existing, names[i]);
    ListedOnce(Sort(Remotes(v, subnets, existing, names, names[i]), RemoteKey), members, RemoteKey, r);
    CidrNames(v, subnets, s);
    assert r in members <==> Exported(existing, s.location, Bound(s));
  }

  lemma CidrNames(v: Vpc, subnets: seq<Subnet>, s: Subnet)
    requires Admitted(v, subnets) && s in subnets && Belongs(v, s)
    ensures forall t :: t in subnets && Belongs(v, t) && t.cidr == s.cidr ==> t == s
  {
    hide SiteConfig.Network;
    forall t | t in subnets && Belongs(v, t) && t.cidr == s.cidr ensures t == s {
      var i :| 0 <= i < |subnets| && subnets[i] == s;
      var j :| 0 <= j < |subnets| && subnets[j] == t;
      assert i < j ==> Apart(s, t);
      assert j < i ==> Apart(t, s);
    }
  }

  /** No remote subnet of a snapshot overlaps one of its local subnets. */
  lemma RemotesClearOfLocals(v: Vpc, subnets: seq<Subnet>, existing: seq<Binding>, names: seq<string>, profile: string, cfg: Config,
                             i: int, l: BindingSubnet, r: Remote)
    requires Admitted(v, subnets) && Buildable(v, subnets, existing, cfg) && Listing(names, NameSet(v, subnets, existing), Self)
    requires 0 <= i < |names|
    requires l in PlanFor(v, subnets, existing, names, profile)[i].content.subnets
    requires r in PlanFor(v, subnets, existing, names, profile)[i].content.remotes
    ensures SiteConfig.Network(l.cidr).Some? && SiteConfig.Network(r.cidr).Some?
    ensures !SiteConfig.Network(l.cidr).value.Overlaps(SiteConfig.Network(r.cidr).value)
  {
    hide Remotes, Peers, Populated, Locals, Exported, SiteConfig.Network, ValidInventory, ReadsInventory;
    RemotesListed(v, subnets, existing, names, names[i]);
    AdmittedUids(v, subnets);
    LocalsListed(v, subnets, names[i]);
    var s :| s in subnets && Belongs(v, s) && s.location == names[i] && Bound(s) == l;
    var t :| t in subnets && Belongs(v, t) && t.location != names[i] && Remote(t.location, t.cidr) == r;
    SubnetsApart(v, subnets, s, t);
  }

  lemma SubnetsApart(v: Vpc, subnets: seq<Subnet>, s: Subnet, t: Subnet)
    requires Admitted(v, subnets) && s in subnets && t in subnets && Belongs(v, s) && Belongs(v, t) && s != t
    ensures Apart(s, t) || Apart(t, s)
    ensures SiteConfig.Network(s.cidr).Some? && SiteConfig.Network(t.cidr).Some? ==>
              !SiteConfig.Network(s.cidr).value.Overlaps(SiteConfig.Network(t.cidr).value)
  {
    hide SiteConfig.Network;
    var i :| 0 <= i < |subnets| && subnets[i] == s;
    var j :| 0 <= j < |subnets| && subnets[j] == t;
    if j < i && SiteConfig.Network(s.cidr).Some? && SiteConfig.Network(t.cidr).Some? {
      OverlapsSymmetric(SiteConfig.Network(t.cidr).value, SiteConfig.Network(s.cidr).value);
    }
  }

  /** A gateway is shown to a location with exactly its links that end there, each as often as it has it. */
  lemma {:induction false} LinksShown(links: seq<Link>, location: string, l: Link)
    ensures multiset(LinksTo(links, location))[l] == if location + "/" <= l.peerId then multiset(links)[l] else 0
  {
    if links != [] {
      LinksShown(links[..|links| - 1], location, l);
      assert links == links[..|links| - 1] + [links[|links| - 1]];
    }
  }

  /** The locations authorized for a VPC are the sorted listing of those that have one of its subnets. */
  lemma {:induction false} PopulatedListed(v: Vpc, subnets: seq<Subnet>, names: seq<string>)
    requires SortedBy(names, Self) && Distinct(names)
    ensures Listing(Populated(v, subnets, names), (set n | n in names && HasLocal(v, subnets, n)), Self)
  {
    hide Locals, HasLocal, Below;
    if names != [] {
      var front, last := names[..|names| - 1], names[|names| - 1];
      PopulatedListed(v, subnets, front);
      HasLocalMeans(v, subnets, last);
      assert forall n :: n in names <==> n in front || n == last;
      forall n | n in front ensures n != last && !Below(Self(last), Self(n)) {
        var i :| 0 <= i < |front| && front[i] == n;
        assert names[i] == n;
      }
      ListedLast(Populated(v, subnets, front), last);
    }
  }

  lemma ListedLast(s: seq<string>, last: string)
    requires SortedBy(s, Self) && Distinct(s) && forall n :: n in s ==> n != last && !Below(Self(last), Self(n))
    ensures SortedBy(s + [last], Self) && Distinct(s + [last])
  {
  }

  // ---- Withdrawal ----

  /** With one binding per location, a subnet counts as withdrawn exactly when its location has applied its current
      snapshot and no longer lists the native subnet. */
  lemma {:induction false} WithdrawnMeans(bindings: seq<Binding>, location: string, name: string)
    requires OnePerLocation(bindings)
    ensures Withdrawn(bindings, location, name) <==>
            exists b :: b in bindings && b.spec.content.location == location && b.applied == b.spec.revision && name !in b.resources
  {
    if bindings != [] {
      assert forall k :: 0 <= k < |bindings[1..]| ==> bindings[1..][k] == bindings[k + 1];
      WithdrawnMeans(bindings[1..], location, name);
      assert bindings == [bindings[0]] + bindings[1..];
      assert forall b :: b in bindings[1..] ==> b.spec.content.location != bindings[0].spec.content.location;
    }
  }

  // ---- Canonicity ----

  function Quiet(g: Gateway): (h: Gateway) {
    g.(ready := false)
  }

  /** A binding without the readiness of its gateways. */
  function Silenced(b: Binding): (c: Binding) {
    b.(gateways := seq(|b.gateways|, i requires 0 <= i < |b.gateways| => Quiet(b.gateways[i])))
  }

  /** The same subnets and, but for gateway readiness, the same bindings, in any order. */
  ghost predicate SameInputs(x: seq<Subnet>, y: seq<Subnet>, a: seq<Binding>, b: seq<Binding>) {
    (forall s :: s in x <==> s in y) && Covers(a, b) && Covers(b, a)
  }

  /** Every binding of the first list has a counterpart in the second. */
  ghost predicate Covers(a: seq<Binding>, b: seq<Binding>) {
    forall c :: c in a ==> exists d :: d in b && Silenced(d) == Silenced(c)
  }

  function PeerSet(v: Vpc, subnets: seq<Subnet>, existing: seq<Binding>, location: string): (r: set<Peer>) {
    set b, g | b in existing && b.spec.content.location != location && HasLocal(v, subnets, b.spec.content.location) && g in b.gateways ::
      Peer(b.spec.content.location, Shown(g, location))
  }

  predicate HasLocal(v: Vpc, subnets: seq<Subnet>, location: string) {
    exists s :: s in subnets && Belongs(v, s) && s.location == location
  }

  lemma HasLocalMeans(v: Vpc, subnets: seq<Subnet>, location: string)
    ensures HasLocal(v, subnets, location) <==> Locals(v, subnets, location) != []
  {
    LocalsMembers(v, subnets, location);
    if s :| s in subnets && Belongs(v, s) && s.location == location {
      assert Bound(s) in LocalSet(v, subnets, location);
    }
    if Locals(v, subnets, location) != [] {
      assert Locals(v, subnets, location)[0] in LocalSet(v, subnets, location);
    }
  }

  lemma {:induction false} PeersAtMembers(gateways: seq<Gateway>, from: string, location: string)
    ensures forall p :: p in PeersAt(gateways, from, location) <==> exists g :: g in gateways && p == Peer(from, Shown(g, location))
    ensures ValidInventory(gateways) ==> Distinct(PeersAt(gateways, from, location))
  {
    hide ValidGateway, LinksTo;
    if gateways != [] {
      var front, last := gateways[..|gateways| - 1], gateways[|gateways| - 1];
      assert gateways == front + [last];
      PeersAtMembers(front, from, location);
      if ValidInventory(gateways) {
        assert forall k :: 0 <= k < |front| ==> front[k] == gateways[k];
        assert Peer(from, Shown(last, location)) !in PeersAt(front, from, location);
      }
    }
  }

  lemma {:induction false} PeersMembers(v: Vpc, subnets: seq<Subnet>, existing: seq<Binding>, location: string)
    ensures forall p :: p in Peers(v, subnets, existing, location) <==> p in PeerSet(v, subnets, existing, location)
    ensures OnePerLocation(existing) && InventoriesValid(v, subnets, existing, location) ==> Distinct(Peers(v, subnets, existing, location))
  {
    hide Locals, Shown, ValidInventory, HasLocal;
    if existing != [] {
      var front, last := existing[..|existing| - 1], existing[|existing| - 1];
      var from := last.spec.content.location;
      assert existing == front + [last];
      PeersMembers(v, subnets, front, location);
      PeersAtMembers(last.gateways, from, location);
      HasLocalMeans(v, subnets, from);
      if OnePerLocation(existing) && InventoriesValid(v, subnets, existing, location) {
        assert forall k :: 0 <= k < |front| ==> existing[k] == front[k] && front[k].spec.content.location != from;
        assert forall p :: p in Peers(v, subnets, front, location) ==> p.location != from;
        if from != location && Locals(v, subnets, from) != [] {
          DistinctJoin(Peers(v, subnets, front, location), PeersAt(last.gateways, from, location));
        }
      }
    }
  }

  /** Location names contain no separator. */
  ghost predicate PlainNames(names: set<string>) {
    forall n :: n in names ==> '/' !in n
  }

  lemma SilencedMatch(c: Binding, d: Binding)
    requires Silenced(c) == Silenced(d)
    ensures c.vpcUid == d.vpcUid && c.namespace == d.namespace && c.spec == d.spec && c.applied == d.applied && c.resources == d.resources
    ensures |c.gateways| == |d.gateways| && forall i :: 0 <= i < |c.gateways| ==> Quiet(c.gateways[i]) == Quiet(d.gateways[i])
    ensures ValidInventory(c.gateways) <==> ValidInventory(d.gateways)
  {
    assert Silenced(c).gateways == Silenced(d).gateways;
    forall i | 0 <= i < |c.gateways| ensures Quiet(c.gateways[i]) == Quiet(d.gateways[i]) {
      assert Silenced(c).gateways[i] == Silenced(d).gateways[i];
    }
    forall i | 0 <= i < |c.gateways|
      ensures c.gateways[i].id == d.gateways[i].id && c.gateways[i].nodeUid == d.gateways[i].nodeUid
      ensures ValidGateway(c.gateways[i]) <==> ValidGateway(d.gateways[i])
    {
      QuietFields(c.gateways[i], d.gateways[i]);
    }
  }

  lemma QuietFields(g: Gateway, h: Gateway)
    requires Quiet(g) == Quiet(h)
    ensures g.id == h.id && g.nodeUid == h.nodeUid && (ValidGateway(g) <==> ValidGateway(h))
    ensures forall l :: Shown(g, l) == Shown(h, l)
  {
  }

  lemma WithdrawnAgrees(a: seq<Binding>, b: seq<Binding>, location: string, name: string)
    requires OnePerLocation(a) && OnePerLocation(b)
    requires Covers(a, b)
    ensures Withdrawn(a, location, name) ==> Withdrawn(b, location, name)
  {
    WithdrawnMeans(a, location, name);
    WithdrawnMeans(b, location, name);
    hide Withdrawn, Silenced;
    if Withdrawn(a, location, name) {
      var c :| c in a && c.spec.content.location == location && c.applied == c.spec.revision && name !in c.resources;
      var d :| d in b && Silenced(d) == Silenced(c);
      SilencedMatch(c, d);
    }
  }

  lemma NamesGrow(v: Vpc, x: seq<Subnet>, y: seq<Subnet>, a: seq<Binding>, b: seq<Binding>)
    requires forall s :: s in x ==> s in y
    requires Covers(a, b)
    ensures NameSet(v, x, a) <= NameSet(v, y, b)
  {
    hide Silenced;
    forall c | c in a ensures c.spec.content.location in NameSet(v, y, b) {
      var d :| d in b && Silenced(d) == Silenced(c);
      SilencedMatch(c, d);
    }
  }

  lemma LocalSetAgrees(v: Vpc, x: seq<Subnet>, y: seq<Subnet>, location: string)
    requires forall s :: s in x <==> s in y
    ensures LocalSet(v, x, location) == LocalSet(v, y, location) && (HasLocal(v, x, location) <==> HasLocal(v, y, location))
  {
    hide Bound;
  }

  lemma NamesAgree(v: Vpc, x: seq<Subnet>, y: seq<Subnet>, a: seq<Binding>, b: seq<Binding>)
    requires SameInputs(x, y, a, b)
    ensures NameSet(v, x, a) == NameSet(v, y, b)
    ensures forall n :: LocalSet(v, x, n) == LocalSet(v, y, n)
    ensures forall n :: HasLocal(v, x, n) <==> HasLocal(v, y, n)
  {
    hide Silenced, NameSet, LocalSet, HasLocal, Covers;
    NamesGrow(v, x, y, a, b);
    NamesGrow(v, y, x, b, a);
    forall n ensures LocalSet(v, x, n) == LocalSet(v, y, n) && (HasLocal(v, x, n) <==> HasLocal(v, y, n)) {
      LocalSetAgrees(v, x, y, n);
    }
  }

  lemma PeerSetGrows(v: Vpc, x: seq<Subnet>, y: seq<Subnet>, a: seq<Binding>, b: seq<Binding>, location: string)
    requires forall n :: HasLocal(v, x, n) ==> HasLocal(v, y, n)
    requires Covers(a, b)
    ensures PeerSet(v, x, a, location) <= PeerSet(v, y, b, location)
  {
    hide HasLocal, Shown, Silenced;
    forall p | p in PeerSet(v, x, a, location) ensures p in PeerSet(v, y, b, location) {
      var c, g :| c in a && c.spec.content.location != location && HasLocal(v, x, c.spec.content.location) && g in c.gateways
                  && p == Peer(c.spec.content.location, Shown(g, location));
      var d :| d in b && Silenced(d) == Silenced(c);
      SilencedMatch(c, d);
      var i :| 0 <= i < |c.gateways| && c.gateways[i] == g;
      QuietFields(g, d.gateways[i]);
      assert d.gateways[i] in d.gateways;
    }
  }

  lemma {:induction false} PopulatedAgrees(v: Vpc, x: seq<Subnet>, y: seq<Subnet>, names: seq<string>)
    requires forall n :: HasLocal(v, x, n) <==> HasLocal(v, y, n)
    ensures Populated(v, x, names) == Populated(v, y, names)
  {
    hide Locals, HasLocal;
    if names != [] {
      PopulatedAgrees(v, x, y, names[..|names| - 1]);
      HasLocalMeans(v, x, names[|names| - 1]);
      HasLocalMeans(v, y, names[|names| - 1]);
    }
  }

  lemma LocalKeyed(v: Vpc, subnets: seq<Subnet>, location: string)
    requires DistinctUids(v, subnets)
    ensures Keyed(LocalSet(v, subnets, location), UidKey)
  {
    hide SiteConfig.Network, FirstHost;
    forall p, q | p in LocalSet(v, subnets, location) && q in LocalSet(v, subnets, location) && UidKey(p) == UidKey(q) ensures p == q {
      var i :| 0 <= i < |subnets| && Belongs(v, subnets[i]) && Bound(subnets[i]) == p;
      var j :| 0 <= j < |subnets| && Belongs(v, subnets[j]) && Bound(subnets[j]) == q;
    }
  }

  lemma {:induction false} ExportsJoin(existing: seq<Binding>, location: string, s: seq<BindingSubnet>, t: seq<BindingSubnet>)
    ensures Exports(existing, location, s + t) == Exports(existing, location, s) + Exports(existing, location, t)
  {
    hide Exported;
    if t == [] {
      assert s + t == s;
    } else {
      assert (s + t)[..|s + t| - 1] == s + t[..|t| - 1];
      ExportsJoin(existing, location, s, t[..|t| - 1]);
    }
  }

  /** The same subnets in another order have the same exports in another order. */
  lemma {:induction false} ExportsPermute(a: seq<Binding>, b: seq<Binding>, location: string, x: seq<BindingSubnet>, y: seq<BindingSubnet>)
    requires multiset(x) == multiset(y) && forall s :: Exported(a, location, s) <==> Exported(b, location, s)
    ensures multiset(Exports(a, location, x)) == multiset(Exports(b, location, y))
    decreases |x|
  {
    hide Exports, Exported;
    assert |multiset(x)| == |x| && |multiset(y)| == |y|;
    if x == [] {
      assert y == [];
      ExportsNone(a, b, location);
    } else {
      var front, last := x[..|x| - 1], x[|x| - 1];
      assert x == front + [last];
      var i := TakeOut(x, y);
      ExportsOne(a, b, location, last);
      ExportsPermute(a, b, location, front, y[..i] + y[i + 1..]);
      ExportsJoin(a, location, front, [last]);
      ExportsJoin(b, location, y[..i], y[i + 1..]);
      ExportsJoin(b, location, y[..i] + [last], y[i + 1..]);
      ExportsJoin(b, location, y[..i], [last]);
    }
  }

  lemma ExportsNone(a: seq<Binding>, b: seq<Binding>, location: string)
    ensures Exports(a, location, []) == Exports(b, location, []) == []
  {
  }

  lemma ExportsOne(a: seq<Binding>, b: seq<Binding>, location: string, s: BindingSubnet)
    requires Exported(a, location, s) <==> Exported(b, location, s)
    ensures Exports(a, location, [s]) == Exports(b, location, [s])
  {
    assert [s][..0] == [];
  }

  lemma LocalsPermute(v: Vpc, x: seq<Subnet>, y: seq<Subnet>, location: string)
    requires DistinctUids(v, x) && DistinctUids(v, y) && forall s :: s in x <==> s in y
    ensures multiset(Locals(v, x, location)) == multiset(Locals(v, y, location))
  {
    hide Locals, DistinctUids, LocalSet;
    LocalsMembers(v, x, location);
    LocalsMembers(v, y, location);
    LocalSetAgrees(v, x, y, location);
    DistinctMultiplicity(Locals(v, x, location));
    DistinctMultiplicity(Locals(v, y, location));
    forall b ensures multiset(Locals(v, x, location))[b] == multiset(Locals(v, y, location))[b] {
      assert b in Locals(v, x, location) <==> b in multiset(Locals(v, x, location));
      assert b in Locals(v, y, location) <==> b in multiset(Locals(v, y, location));
    }
  }

  lemma {:induction false} RemotesPermute(v: Vpc, x: seq<Subnet>, y: seq<Subnet>, a: seq<Binding>, b: seq<Binding>, names: seq<string>, location: string)
    requires DistinctUids(v, x) && DistinctUids(v, y) && (forall s :: s in x <==> s in y)
    requires forall n, s :: Exported(a, n, s) <==> Exported(b, n, s)
    ensures multiset(Remotes(v, x, a, names, location)) == multiset(Remotes(v, y, b, names, location))
  {
    hide Exported, Locals, Exports, DistinctUids;
    if names != [] {
      var last := names[|names| - 1];
      RemotesPermute(v, x, y, a, b, names[..|names| - 1], location);
      LocalsPermute(v, x, y, last);
      ExportsPermute(a, b, last, Locals(v, x, last), Locals(v, y, last));
    }
  }

  lemma ExportedAgrees(x: seq<Subnet>, y: seq<Subnet>, a: seq<Binding>, b: seq<Binding>)
    requires SameInputs(x, y, a, b) && OnePerLocation(a) && OnePerLocation(b)
    ensures forall n, s :: Exported(a, n, s) <==> Exported(b, n, s)
  {
    hide Withdrawn, Silenced, Covers;
    forall n, s ensures Exported(a, n, s) <==> Exported(b, n, s) {
      WithdrawnAgrees(a, b, n, NativeName(s.uid));
      WithdrawnAgrees(b, a, n, NativeName(s.uid));
    }
  }

  /** The sorted remote list does not depend on the order of its parts. */
  lemma RemotesAgree(v: Vpc, x: seq<Subnet>, y: seq<Subnet>, a: seq<Binding>, b: seq<Binding>, names: seq<string>, location: string)
    requires DistinctUids(v, x) && DistinctUids(v, y) && SameInputs(x, y, a, b) && OnePerLocation(a) && OnePerLocation(b)
    requires PlainNames(NameSet(v, x, a)) && Listing(names, NameSet(v, x, a), Self)
    ensures Sort(Remotes(v, x, a, names, location), RemoteKey) == Sort(Remotes(v, y, b, names, location), RemoteKey)
  {
    assert forall s :: s in x <==> s in y;
    hide DistinctUids, SameInputs, OnePerLocation, Exported, Remotes, Locals, Exports, PlainNames, NameSet, Listing, Keyed;
    ExportedAgrees(x, y, a, b);
    RemotesPermute(v, x, y, a, b, names, location);
    RemotesPlain(v, x, a, names, location);
    SortForgetsOrder(Remotes(v, x, a, names, location), Remotes(v, y, b, names, location), RemoteKey);
  }

  lemma RemotesPlain(v: Vpc, subnets: seq<Subnet>, existing: seq<Binding>, names: seq<string>, location: string)
    requires PlainNames(NameSet(v, subnets, existing)) && Listing(names, NameSet(v, subnets, existing), Self)
    ensures var all := Remotes(v, subnets, existing, names, location); forall p, q :: p in all && q in all && RemoteKey(p) == RemoteKey(q) ==> p == q
  {
    hide NameSet, Remotes, Exports, Locals;
    RemotesMembers(v, subnets, existing, names, location);
    forall p, q | p in Remotes(v, subnets, existing, names, location) && q in Remotes(v, subnets, existing, names, location) && RemoteKey(p) == RemoteKey(q)
      ensures p == q
    {
      SplitInjective(p.location, p.cidr, q.location, q.cidr, '/');
    }
  }

  lemma PeerKeyed(v: Vpc, subnets: seq<Subnet>, existing: seq<Binding>, location: string)
    requires PlainNames(NameSet(v, subnets, existing)) && OnePerLocation(existing) && InventoriesValid(v, subnets, existing, location)
    ensures Keyed(PeerSet(v, subnets, existing, location), PeerKey)
  {
    hide HasLocal, Locals, ValidGateway, LinksTo;
    var all := PeerSet(v, subnets, existing, location);
    forall p, q | p in all && q in all && PeerKey(p) == PeerKey(q) ensures p == q {
      var b, g :| b in existing && b.spec.content.location != location && HasLocal(v, subnets, b.spec.content.location) && g in b.gateways
                  && p == Peer(b.spec.content.location, Shown(g, location));
      var c, h :| c in existing && c.spec.content.location != location && HasLocal(v, subnets, c.spec.content.location) && h in c.gateways
                  && q == Peer(c.spec.content.location, Shown(h, location));
      SplitInjective(p.location, p.endpoint.id, q.location, q.endpoint.id, '/');
      assert b == c;
      HasLocalMeans(v, subnets, b.spec.content.location);
      assert ValidInventory(b.gateways);
    }
  }

  lemma ReadsAgrees(v: Vpc, x: seq<Subnet>, y: seq<Subnet>, names: set<string>, c: Binding, d: Binding)
    requires c.spec == d.spec && forall n :: HasLocal(v, x, n) <==> HasLocal(v, y, n)
    ensures ReadsInventory(v, x, names, c) <==> ReadsInventory(v, y, names, d)
  {
    hide Locals, HasLocal;
    HasLocalMeans(v, x, c.spec.content.location);
    HasLocalMeans(v, y, c.spec.content.location);
  }

  lemma BuildableAgrees(v: Vpc, x: seq<Subnet>, y: seq<Subnet>, a: seq<Binding>, b: seq<Binding>, cfg: Config)
    requires SameInputs(x, y, a, b) && Buildable(v, x, a, cfg)
    ensures Buildable(v, y, b, cfg)
  {
    hide NameSet, LocalSet, HasLocal, Silenced, Placeable, ClassOf, Covers, BindingsFit;
    NamesAgree(v, x, y, a, b);
    FitAgrees(v, x, y, NameSet(v, y, b), a, b);
  }

  lemma FitAgrees(v: Vpc, x: seq<Subnet>, y: seq<Subnet>, names: set<string>, a: seq<Binding>, b: seq<Binding>)
    requires forall n :: HasLocal(v, x, n) <==> HasLocal(v, y, n)
    requires Covers(b, a) && BindingsFit(v, x, a, names)
    ensures BindingsFit(v, y, b, names)
  {
    hide Silenced, ValidInventory, ReadsInventory, HasLocal;
    forall d | d in b
      ensures d.vpcUid == v.uid && d.namespace == v.namespace && (ReadsInventory(v, y, names, d) ==> ValidInventory(d.gateways))
    {
      var c :| c in a && Silenced(c) == Silenced(d);
      SilencedMatch(c, d);
      ReadsAgrees(v, x, y, names, c, d);
    }
  }

  lemma ContentAgrees(v: Vpc, x: seq<Subnet>, y: seq<Subnet>, a: seq<Binding>, b: seq<Binding>, names: seq<string>, profile: string, location: string)
    requires DistinctUids(v, x) && DistinctUids(v, y) && OnePerLocation(a) && OnePerLocation(b) && SameInputs(x, y, a, b)
    requires Listing(names, NameSet(v, x, a), Self) && PlainNames(NameSet(v, x, a))
    requires InventoriesValid(v, x, a, location) && InventoriesValid(v, y, b, location)
    ensures ContentFor(v, x, a, names, profile, location) == ContentFor(v, y, b, names, profile, location)
  {
    hide Covers;
    NamesAgree(v, x, y, a, b);
    hide Locals, Remotes, Peers, Populated, HasLocal, LocalSet, PeerSet, NameSet, DistinctUids,
      OnePerLocation, SameInputs, PlainNames, InventoriesValid, Listing, Keyed;
    LocalsListed(v, x, location);
    LocalsListed(v, y, location);
    LocalKeyed(v, x, location);
    ListingUnique(Sorted(v, x, location), Sorted(v, y, location), LocalSet(v, x, location), UidKey);
    PopulatedAgrees(v, x, y, names);
    HasLocalMeans(v, x, location);
    HasLocalMeans(v, y, location);
    RemotesAgree(v, x, y, a, b, names, location);
    PeersAgree(v, x, y, a, b, location);
  }

  lemma PeersAgree(v: Vpc, x: seq<Subnet>, y: seq<Subnet>, a: seq<Binding>, b: seq<Binding>, location: string)
    requires OnePerLocation(a) && OnePerLocation(b) && SameInputs(x, y, a, b) && PlainNames(NameSet(v, x, a))
    requires InventoriesValid(v, x, a, location) && InventoriesValid(v, y, b, location)
    ensures Sort(Peers(v, x, a, location), PeerKey) == Sort(Peers(v, y, b, location), PeerKey)
  {
    hide Covers;
    NamesAgree(v, x, y, a, b);
    PeerSetGrows(v, x, y, a, b, location);
    PeerSetGrows(v, y, x, b, a, location);
    hide Peers, HasLocal, LocalSet, PeerSet, NameSet, OnePerLocation, SameInputs, PlainNames, InventoriesValid, Listing, Keyed;
    PeersMembers(v, x, a, location);
    PeersMembers(v, y, b, location);
    PeerKeyed(v, x, a, location);
    SortLists(Peers(v, x, a, location), PeerSet(v, x, a, location), PeerKey);
    SortLists(Peers(v, y, b, location), PeerSet(v, x, a, location), PeerKey);
    ListingUnique(Sort(Peers(v, x, a, location), PeerKey), Sort(Peers(v, y, b, location), PeerKey), PeerSet(v, x, a, location), PeerKey);
  }

  /** The plan, and whether there is one, depends neither on the order of subnets or bindings nor on gateway readiness. */
  lemma PlanIsCanonical(v: Vpc, x: seq<Subnet>, y: seq<Subnet>, a: seq<Binding>, b: seq<Binding>, cfg: Config,
                        names: seq<string>, others: seq<string>, profile: string)
    requires DistinctUids(v, x) && DistinctUids(v, y) && OnePerLocation(a) && OnePerLocation(b) && SameInputs(x, y, a, b)
    requires PlainNames(NameSet(v, x, a)) && Buildable(v, x, a, cfg)
    requires Listing(names, NameSet(v, x, a), Self) && Listing(others, NameSet(v, y, b), Self)
    ensures Buildable(v, y, b, cfg) && names == others
    ensures PlanFor(v, x, a, names, profile) == PlanFor(v, y, b, others, profile)
  {
    hide DistinctUids, OnePerLocation, SameInputs, PlainNames, NameSet, InventoriesValid, ContentFor, Listing, Buildable, LocalSet, HasLocal;
    BuildableAgrees(v, x, y, a, b, cfg);
    NamesAgree(v, x, y, a, b);
    ListingUnique(names, others, NameSet(v, x, a), Self) by { SelfKeyed(NameSet(v, x, a)); }
    ListingMembers(names, NameSet(v, x, a));
    InventoriesRead(v, x, a, cfg);
    InventoriesRead(v, y, b, cfg);
    forall i | 0 <= i < |names|
      ensures ContentFor(v, x, a, names, profile, names[i]) == ContentFor(v, y, b, names, profile, names[i])
    {
      ContentAgrees(v, x, y, a, b, names, profile, names[i]);
    }
  }

  lemma SelfKeyed(members: set<string>)
    ensures Keyed(members, Self)
  {
  }

  lemma InventoriesRead(v: Vpc, subnets: seq<Subnet>, existing: seq<Binding>, cfg: Config)
    requires Buildable(v, subnets, existing, cfg)
    ensures forall n :: n in NameSet(v, subnets, existing) ==> InventoriesValid(v, subnets, existing, n)
  {
    hide InventoriesValid, ReadsInventory, NameSet, Placeable, ValidInventory;
    InventoriesOverall(v, subnets, existing, NameSet(v, subnets, existing));
  }
}
