/** The gateway runtime's configuration: what the controller renders (internal/managedgateway/render.go) and what the
    runtime accepts (gateway/managed.py). Addresses and prefixes are the values their texts parse to; an address the
    renderer has to check may be absent, which stands for a text that does not parse. */
module RuntimeContract {
  import opened Wrappers
  import opened Ipv4
  import opened Ordering

  datatype Link = Link(peerId: string, listenPort: int, tunnelIp: Option<Addr>, controlVni: int)

  datatype Endpoint = Endpoint(id: string, endpointIp: Option<Addr>, healthIp: Option<Addr>, transitIp: Addr, asn: int, keyValid: bool, links: seq<Link>)

  datatype Peer = Peer(location: string, endpoint: Endpoint)

  datatype Local = Local(cidr: Prefix, deleting: bool)

  datatype Remote = Remote(location: string, cidr: Prefix)

  datatype Binding = Binding(
    location: string, profile: string, asn: int, networkId: int, subnets: seq<Local>, authorized: seq<string>, remotes: seq<Remote>, peers: seq<Peer>)

  datatype Attachment = Attachment(transit: Prefix, router: Addr, source: Addr)

  /** One rendered link. */
  datatype Tunnel = Tunnel(id: string, listenPort: int, local: Addr, remote: Addr, host: Addr, port: int, asn: int, site: string, delegated: seq<Prefix>,
                           vni: Option<int>, remoteHealth: Option<Addr>)

  /** What the runtime reads. */
  datatype Config = Config(
    prefixes: seq<Prefix>, transit: Prefix, gateway: Addr, router: Addr, source: Addr, profile: string, asn: int, mtu: int, trusted: bool,
    tunnels: seq<Tunnel>, health: Option<Addr>, vni: Option<int>)

  const WIREGUARD := "wireguard-bgp"
  const GENEVE := "geneve-bgp"
  const EVPN := "vxlan-evpn"

  const MAX_VNI := 16777215

  // ---- What the runtime accepts ----

  ghost predicate DisjointPrefixes(ps: seq<Prefix>) {
    forall i, j :: 0 <= i < j < |ps| ==> !ps[i].Overlaps(ps[j])
  }

  predicate InAny(a: Addr, ps: seq<Prefix>) {
    exists p :: p in ps && p.Contains(a)
  }

  predicate OverlapsAny(q: Prefix, ps: seq<Prefix>) {
    exists p :: p in ps && q.Overlaps(p)
  }

  predicate AcceptsBase(c: Config) {
    && c.transit.Contains(c.gateway) && c.transit.Contains(c.router) && c.gateway != c.router && !c.transit.Contains(c.source)
    && (forall p :: p in c.prefixes ==> p.Canonical() && !p.Overlaps(c.transit) && !p.Contains(c.source))
    && c.transit.Canonical()
    && c.profile in {WIREGUARD, GENEVE, EVPN}
    && 4200000000 <= c.asn <= 4294967294 && 1280 <= c.mtu <= 1400
    && (c.profile != WIREGUARD ==> c.trusted)
  }

  /** A link's ports and tunnel number. */
  predicate AcceptsPorts(c: Config, l: Tunnel) {
    && 1024 <= l.port <= 65535 && 1024 <= l.listenPort <= 65535
    && (c.profile != WIREGUARD ==> l.listenPort == l.port && l.vni.Some? && 1 <= l.vni.value <= MAX_VNI)
  }

  /** One control address against the local ranges. */
  predicate AcceptsControl(c: Config, a: Addr) {
    !c.transit.Contains(a) && !InAny(a, c.prefixes)
  }

  predicate AcceptsDelegated(c: Config, q: Prefix) {
    q.Canonical() && !q.Overlaps(c.transit) && !OverlapsAny(q, c.prefixes)
  }

  ghost predicate AcceptsLink(c: Config, l: Tunnel) {
    && AcceptsPorts(c, l) && AcceptsControl(c, l.local) && AcceptsControl(c, l.remote) && l.local != l.remote
    && forall q :: q in l.delegated ==> AcceptsDelegated(c, q)
  }

  /** Two links share neither identity nor control address, and delegate overlapping prefixes only for one site. */
  ghost predicate LinksApart(k: Tunnel, l: Tunnel) {
    && k.id != l.id && k.local != l.local && k.local != l.remote && k.remote != l.local && k.remote != l.remote
    && forall p, q :: p in k.delegated && q in l.delegated && p.Overlaps(q) ==> k.site == l.site
  }

  function Controls(tunnels: seq<Tunnel>): (r: set<Addr>) {
    (set l | l in tunnels :: l.local) + (set l | l in tunnels :: l.remote)
  }

  function Delegated(tunnels: seq<Tunnel>): (r: set<Prefix>) {
    set l, p | l in tunnels && p in l.delegated :: p
  }

  ghost predicate HealthDistinct(c: Config) {
    && c.health.Some? && (forall l :: l in c.tunnels ==> l.remoteHealth.Some? && l.remoteHealth != c.health)
    && forall i, j :: 0 <= i < j < |c.tunnels| ==> c.tunnels[i].remoteHealth != c.tunnels[j].remoteHealth
  }

  ghost predicate HealthClear(c: Config, h: Addr) {
    && AcceptsControl(c, h) && h !in Controls(c.tunnels)
    && forall p :: p in Delegated(c.tunnels) ==> !p.Contains(h)
  }

  ghost predicate Accepts(c: Config) {
    && AcceptsBase(c) && c.prefixes != [] && DisjointPrefixes(c.prefixes)
    && (forall l :: l in c.tunnels ==> AcceptsLink(c, l))
    && (forall i, j :: 0 <= i < j < |c.tunnels| ==> LinksApart(c.tunnels[i], c.tunnels[j]))
    && (forall a, p :: a in Controls(c.tunnels) && p in Delegated(c.tunnels) ==> !p.Contains(a))
    && (c.profile == EVPN ==>
          && HealthDistinct(c) && c.vni.Some? && 1 <= c.vni.value <= MAX_VNI
          && HealthClear(c, c.health.value) && forall l :: l in c.tunnels ==> HealthClear(c, l.remoteHealth.value))
  }

  type Endpoints = set<(Prefix, string)>

  function EndpointsOf(tunnels: seq<Tunnel>): (e: Endpoints) {
    set l, p | l in tunnels && p in l.delegated :: (p, l.site)
  }

  function IdsOf(tunnels: seq<Tunnel>): (r: set<string>) {
    set l | l in tunnels :: l.id
  }

  /** The accumulated sets admit one more link. */
  ghost predicate Fits(l: Tunnel, ids: set<string>, controls: set<Addr>, endpoints: Endpoints) {
    && l.id !in ids && l.local !in controls && l.remote !in controls
    && forall e, q :: e in endpoints && q in l.delegated && q.Overlaps(e.0) ==> e.1 == l.site
  }

  method CheckDelegated(c: Config, l: Tunnel, endpoints: Endpoints) returns (ok: bool)
    ensures ok <==> (forall q :: q in l.delegated ==> AcceptsDelegated(c, q))
                    && forall e, q :: e in endpoints && q in l.delegated && q.Overlaps(e.0) ==> e.1 == l.site
  {
    hide AcceptsDelegated;
    for k := 0 to |l.delegated|
      invariant forall j :: 0 <= j < k ==> AcceptsDelegated(c, l.delegated[j])
      invariant forall e, j :: e in endpoints && 0 <= j < k && l.delegated[j].Overlaps(e.0) ==> e.1 == l.site
    {
      var q := l.delegated[k];
      assert q in l.delegated;
      var good := AcceptsDelegated(c, q);
      if !good {
        return false;
      }
      var todo := endpoints;
      while todo != {}
        invariant todo <= endpoints
        invariant forall e :: e in endpoints && e !in todo && q.Overlaps(e.0) ==> e.1 == l.site
      {
        var e :| e in todo;
        todo := todo - {e};
        if q.Overlaps(e.0) && e.1 != l.site {
          return false;
        }
      }
    }
    return true;
  }

  method CheckLink(c: Config, l: Tunnel, ids: set<string>, controls: set<Addr>, endpoints: Endpoints) returns (ok: bool)
    ensures ok <==> AcceptsLink(c, l) && Fits(l, ids, controls, endpoints)
  {
    hide AcceptsPorts, AcceptsControl, AcceptsDelegated;
    if l.id in ids {
      return false;
    }
    var ports := AcceptsPorts(c, l);
    if !ports {
      return false;
    }
    var local := AcceptsControl(c, l.local);
    if l.local in controls || !local {
      return false;
    }
    var remote := AcceptsControl(c, l.remote);
    if l.remote in controls + {l.local} || !remote {
      return false;
    }
    ok := CheckDelegated(c, l, endpoints);
  }

  lemma FitsIsApart(done: seq<Tunnel>, l: Tunnel)
    ensures Fits(l, IdsOf(done), Controls(done), EndpointsOf(done)) <==>
            forall k :: 0 <= k < |done| ==> LinksApart(done[k], l)
  {
    if Fits(l, IdsOf(done), Controls(done), EndpointsOf(done)) {
      forall k | 0 <= k < |done| ensures LinksApart(done[k], l) {
        FitsOne(done, l, k);
      }
    } else {
      ApartFits(done, l);
    }
  }

  lemma FitsOne(done: seq<Tunnel>, l: Tunnel, k: int)
    requires Fits(l, IdsOf(done), Controls(done), EndpointsOf(done)) && 0 <= k < |done|
    ensures LinksApart(done[k], l)
  {
    var t := done[k];
    assert t in done && t.id in IdsOf(done) && t.local in Controls(done) && t.remote in Controls(done);
    forall p, q | p in t.delegated && q in l.delegated && p.Overlaps(q) ensures t.site == l.site {
      assert (p, t.site) in EndpointsOf(done);
      OverlapsSymmetric(p, q);
    }
  }

  lemma ApartFits(done: seq<Tunnel>, l: Tunnel)
    ensures (forall k :: 0 <= k < |done| ==> LinksApart(done[k], l)) ==> Fits(l, IdsOf(done), Controls(done), EndpointsOf(done))
  {
    if forall k :: 0 <= k < |done| ==> LinksApart(done[k], l) {
      forall t | t in done ensures LinksApart(t, l) {
      }
      forall e, q | e in EndpointsOf(done) && q in l.delegated && q.Overlaps(e.0) ensures e.1 == l.site {
        var t, p :| t in done && p in t.delegated && (p, t.site) == e;
        OverlapsSymmetric(q, p);
        assert LinksApart(t, l);
      }
    }
  }

  ghost predicate LinksAccepted(c: Config, done: seq<Tunnel>) {
    && (forall l :: l in done ==> AcceptsLink(c, l))
    && forall i, j :: 0 <= i < j < |done| ==> LinksApart(done[i], done[j])
  }

  lemma OneMoreLink(c: Config, done: seq<Tunnel>, l: Tunnel)
    ensures LinksAccepted(c, done + [l]) <==>
            LinksAccepted(c, done) && AcceptsLink(c, l) && forall k :: 0 <= k < |done| ==> LinksApart(done[k], l)
  {
    hide AcceptsLink, LinksApart;
    var all := done + [l];
    assert forall k :: 0 <= k < |done| ==> all[k] == done[k];
    assert all[|done|] == l && l in all;
    assert forall t :: t in done ==> t in all;
  }

  lemma {:induction false} LinksAcceptedPrefix(c: Config, tunnels: seq<Tunnel>, n: nat)
    requires n <= |tunnels| && LinksAccepted(c, tunnels)
    ensures LinksAccepted(c, tunnels[..n])
  {
    hide AcceptsLink, LinksApart;
  }

  lemma SetsGrow(done: seq<Tunnel>, l: Tunnel)
    ensures IdsOf(done + [l]) == IdsOf(done) + {l.id}
    ensures Controls(done + [l]) == Controls(done) + {l.local, l.remote}
    ensures EndpointsOf(done + [l]) == EndpointsOf(done) + set p | p in l.delegated :: (p, l.site)
  {
  }

  /** The loop over the links, growing the sets of identities, control addresses and delegated prefixes. */
  method CheckLinks(c: Config) returns (ok: bool)
    ensures ok <==> LinksAccepted(c, c.tunnels)
  {
    var ids: set<string>, controls: set<Addr>, endpoints: Endpoints := {}, {}, {};
    hide AcceptsLink, Fits, LinksApart, LinksAccepted, IdsOf, Controls, EndpointsOf;
    ghost var done: seq<Tunnel> := [];
    assert LinksAccepted(c, done) && ids == IdsOf(done) && controls == Controls(done) && endpoints == EndpointsOf(done) by { NothingChecked(c); }
    for i := 0 to |c.tunnels|
      invariant done == c.tunnels[..i] && LinksAccepted(c, done)
      invariant ids == IdsOf(done) && controls == Controls(done) && endpoints == EndpointsOf(done)
    {
      var l := c.tunnels[i];
      assert c.tunnels[..i + 1] == done + [l];
      OneMoreLink(c, done, l);
      FitsIsApart(done, l);
      SetsGrow(done, l);
      var good := CheckLink(c, l, ids, controls, endpoints);
      if !good {
        if LinksAccepted(c, c.tunnels) {
          LinksAcceptedPrefix(c, c.tunnels, i + 1);
        }
        return false;
      }
      ids, controls, endpoints := ids + {l.id}, controls + {l.local, l.remote}, endpoints + set p | p in l.delegated :: (p, l.site);
      done := done + [l];
    }
    assert done == c.tunnels;
    return true;
  }

  lemma NothingChecked(c: Config)
    ensures LinksAccepted(c, []) && IdsOf([]) == {} && Controls([]) == {} && EndpointsOf([]) == {}
  {
  }

  method CheckPrefixes(ps: seq<Prefix>) returns (ok: bool)
    ensures ok <==> DisjointPrefixes(ps)
  {
    for i := 0 to |ps|
      invariant forall k, j :: 0 <= k < i && k < j < |ps| ==> !ps[k].Overlaps(ps[j])
    {
      for j := i + 1 to |ps|
        invariant forall l :: i < l < j ==> !ps[i].Overlaps(ps[l])
      {
        var o := ps[i].Overlaps(ps[j]);
        if o {
          return false;
        }
      }
    }
    return true;
  }

  /** All health addresses, the gateway's own first. */
  method CheckHealth(c: Config) returns (ok: bool)
    ensures ok <==> HealthDistinct(c) && HealthClear(c, c.health.value) && forall l :: l in c.tunnels ==> HealthClear(c, l.remoteHealth.value)
  {
    hide AcceptsControl, Controls, Delegated;
    if c.health.None? {
      return false;
    }
    var seen := {c.health.value};
    var clear := ClearOf(c, c.health.value);
    if !clear {
      return false;
    }
    for i := 0 to |c.tunnels|
      invariant forall k :: 0 <= k < i ==> c.tunnels[k].remoteHealth.Some? && HealthClear(c, c.tunnels[k].remoteHealth.value)
      invariant seen == {c.health.value} + set k | 0 <= k < i && c.tunnels[k].remoteHealth.Some? :: c.tunnels[k].remoteHealth.value
      invariant forall k :: 0 <= k < i ==> c.tunnels[k].remoteHealth != c.health
      invariant forall j, k :: 0 <= j < k < i ==> c.tunnels[j].remoteHealth != c.tunnels[k].remoteHealth
    {
      var h := c.tunnels[i].remoteHealth;
      assert c.tunnels[i] in c.tunnels;
      if h.None? || h.value in seen {
        return false;
      }
      clear := ClearOf(c, h.value);
      if !clear {
        return false;
      }
      seen := seen + {h.value};
    }
    return true;
  }

  method ClearOf(c: Config, h: Addr) returns (ok: bool)
    ensures ok <==> HealthClear(c, h)
  {
    hide Delegated;
    var control := AcceptsControl(c, h);
    ok := control && h !in Controls(c.tunnels) && forall p :: p in Delegated(c.tunnels) ==> !p.Contains(h);
  }

  /** The runtime's validation of a configuration. */
  method Validate(c: Config) returns (ok: bool)
    ensures ok <==> Accepts(c)
  {
    hide AcceptsBase, DisjointPrefixes, AcceptsLink, LinksApart, Controls, Delegated, HealthDistinct, HealthClear;
    var base := AcceptsBase(c);
    if !base || c.prefixes == [] {
      return false;
    }
    var disjoint := CheckPrefixes(c.prefixes);
    if !disjoint {
      return false;
    }
    var links := CheckLinks(c);
    if !links {
      return false;
    }
    if !(forall a, p :: a in Controls(c.tunnels) && p in Delegated(c.tunnels) ==> !p.Contains(a)) {
      return false;
    }
    if c.profile == EVPN {
      var health := CheckHealth(c);
      if !health || c.vni.None? || !(1 <= c.vni.value <= MAX_VNI) {
        return false;
      }
    }
    return true;
  }

  // ---- What the controller renders ----

  function PeerId(location: string, id: string): (p: string) {
    location + ("/" + id)
  }

  function FindLink(links: seq<Link>, id: string): (l: Option<Link>)
    ensures l.Some? ==> l.value in links && l.value.peerId == id
  {
    if links == [] then None else if links[0].peerId == id then Some(links[0]) else FindLink(links[1..], id)
  }

  /** The local subnets that are not going away. */
  function Active(subnets: seq<Local>): (ps: seq<Prefix>)
    ensures forall p :: p in ps ==> exists s :: s in subnets && s.cidr == p && !s.deleting
  {
    if subnets == [] then []
    else
      var last := subnets[|subnets| - 1];
      Active(subnets[..|subnets| - 1]) + if last.deleting then [] else [last.cidr]
  }

  /** The prefixes a location exports. */
  function ExportsOf(remotes: seq<Remote>, location: string): (ps: seq<Prefix>)
    ensures forall p :: p in ps <==> Remote(location, p) in remotes
  {
    if remotes == [] then []
    else
      var last := remotes[|remotes| - 1];
      assert remotes == remotes[..|remotes| - 1] + [last];
      ExportsOf(remotes[..|remotes| - 1], location) + if last.location == location then [last.cidr] else []
  }

  predicate GoodPort(port: int) {
    1024 <= port <= 65535
  }

  /** The two halves of a link agree, and the peer identifies itself. */
  predicate Reciprocal(b: Binding, m: Endpoint, p: Peer) {
    var local := FindLink(m.links, PeerId(p.location, p.endpoint.id));
    var remote := FindLink(p.endpoint.links, PeerId(b.location, m.id));
    && p.endpoint.endpointIp.Some? && p.endpoint.healthIp.Some? && p.endpoint.asn >= 4200000000 && p.endpoint.asn != b.asn
    && local.Some? && remote.Some? && local.value.tunnelIp.Some? && remote.value.tunnelIp.Some?
    && local.value.tunnelIp != remote.value.tunnelIp && GoodPort(local.value.listenPort) && GoodPort(remote.value.listenPort)
    && if b.profile == WIREGUARD then p.endpoint.keyValid
       else local.value.listenPort == remote.value.listenPort && 0 < local.value.controlVni <= MAX_VNI
            && local.value.controlVni == remote.value.controlVni && local.value.controlVni != b.networkId
  }

  function TunnelOf(b: Binding, m: Endpoint, p: Peer): (t: Tunnel)
    requires Reciprocal(b, m, p)
  {
    var local := FindLink(m.links, PeerId(p.location, p.endpoint.id)).value;
    var remote := FindLink(p.endpoint.links, PeerId(b.location, m.id)).value;
    Tunnel(PeerId(b.location, m.id) + ("/" + PeerId(p.location, p.endpoint.id)), local.listenPort, local.tunnelIp.value, remote.tunnelIp.value,
           p.endpoint.endpointIp.value, remote.listenPort, p.endpoint.asn, p.location, ExportsOf(b.remotes, p.location),
           if b.profile == WIREGUARD then None else Some(local.controlVni),
           if b.profile == EVPN then p.endpoint.healthIp else None)
  }

  function PeerKey(p: Peer): (k: string) {
    PeerId(p.location, p.endpoint.id)
  }

  predicate KeysDiffer(p: Peer, q: Peer) {
    PeerKey(p) != PeerKey(q)
  }

  ghost predicate PeersGood(b: Binding, m: Endpoint, peers: seq<Peer>) {
    && Pairwise(peers, KeysDiffer)
    && (forall p :: p in peers ==> p.location != b.location && p.location in b.authorized)
    && forall p :: p in peers && ExportsOf(b.remotes, p.location) != [] ==> Reciprocal(b, m, p)
  }

  ghost predicate RemotesGood(b: Binding, peers: seq<Peer>) {
    forall r :: r in b.remotes ==>
      && (exists p :: p in peers && p.location == r.location)
      && r.cidr.Canonical() && !OverlapsAny(r.cidr, Active(b.subnets))
  }

  /** Exactly when rendering completes. */
  ghost predicate Complete(b: Binding, m: Endpoint) {
    && Active(b.subnets) != [] && b.profile in {WIREGUARD, GENEVE, EVPN}
    && PeersGood(b, m, b.peers) && RemotesGood(b, b.peers)
    && (b.profile == EVPN ==> 1 <= b.networkId <= MAX_VNI)
  }

  ghost predicate IsTunnel(b: Binding, m: Endpoint, p: Peer, t: Tunnel) {
    ExportsOf(b.remotes, p.location) != [] && Reciprocal(b, m, p) && t == TunnelOf(b, m, p)
  }

  /** A rendered configuration: one tunnel per exporting peer. */
  ghost predicate IsRendered(b: Binding, a: Attachment, m: Endpoint, mtu: int, chosen: seq<Peer>, c: Config) {
    && |c.tunnels| == |chosen|
    && (forall k :: 0 <= k < |chosen| ==> chosen[k] in b.peers && IsTunnel(b, m, chosen[k], c.tunnels[k]))
    && (forall p :: p in b.peers && ExportsOf(b.remotes, p.location) != [] ==> p in chosen)
    && Pairwise(chosen, KeysDiffer) && SortedBy(chosen, PeerKey)
    && c == Config(Active(b.subnets), a.transit, m.transitIp, a.router, a.source, b.profile, b.asn, mtu, b.profile != WIREGUARD, c.tunnels,
                   if b.profile == EVPN then m.healthIp else None, if b.profile == EVPN then Some(b.networkId) else None)
  }

  method ActiveSubnets(subnets: seq<Local>) returns (ps: seq<Prefix>)
    ensures ps == Active(subnets)
  {
    ps := [];
    for i := 0 to |subnets|
      invariant ps == Active(subnets[..i])
    {
      assert subnets[..i + 1][..i] == subnets[..i];
      if !subnets[i].deleting {
        ps := ps + [subnets[i].cidr];
      }
    }
    assert subnets[..|subnets|] == subnets;
  }

  method LookUpLink(links: seq<Link>, id: string) returns (l: Option<Link>)
    ensures l == FindLink(links, id)
  {
    for i := 0 to |links|
      invariant FindLink(links, id) == FindLink(links[i..], id)
    {
      if links[i].peerId == id {
        return Some(links[i]);
      }
    }
    return None;
  }

  method CollectExports(remotes: seq<Remote>, location: string) returns (ps: seq<Prefix>)
    ensures ps == ExportsOf(remotes, location)
  {
    ps := [];
    for i := 0 to |remotes|
      invariant ps == ExportsOf(remotes[..i], location)
    {
      assert remotes[..i + 1][..i] == remotes[..i];
      if remotes[i].location == location {
        ps := ps + [remotes[i].cidr];
      }
    }
    assert remotes[..|remotes|] == remotes;
  }

  /** One peer: no link when it exports nothing, otherwise its tunnel once both halves agree. */
  method RenderPeer(b: Binding, m: Endpoint, p: Peer) returns (ok: bool, tunnel: Option<Tunnel>)
    ensures ok <==> (ExportsOf(b.remotes, p.location) != [] ==> Reciprocal(b, m, p))
    ensures tunnel.Some? <==> ok && ExportsOf(b.remotes, p.location) != []
    ensures tunnel.Some? ==> tunnel.value == TunnelOf(b, m, p)
  {
    var prefixes := CollectExports(b.remotes, p.location);
    if prefixes == [] {
      return true, None;
    }
    var e := p.endpoint;
    if e.endpointIp.None? || e.healthIp.None? || e.asn < 4200000000 || e.asn == b.asn {
      return false, None;
    }
    var local := LookUpLink(m.links, PeerId(p.location, e.id));
    var remote := LookUpLink(e.links, PeerId(b.location, m.id));
    if local.None? || remote.None? {
      return false, None;
    }
    var l, r := local.value, remote.value;
    if l.tunnelIp.None? || r.tunnelIp.None? || l.tunnelIp == r.tunnelIp || !GoodPort(l.listenPort) || !GoodPort(r.listenPort) {
      return false, None;
    }
    if b.profile == WIREGUARD {
      if !e.keyValid {
        return false, None;
      }
    } else if l.listenPort != r.listenPort || l.controlVni <= 0 || l.controlVni > MAX_VNI || l.controlVni != r.controlVni || l.controlVni == b.networkId {
      return false, None;
    }
    return true, Some(Tunnel(PeerId(b.location, m.id) + ("/" + PeerId(p.location, e.id)), l.listenPort, l.tunnelIp.value, r.tunnelIp.value,
                             e.endpointIp.value, r.listenPort, e.asn, p.location, prefixes, if b.profile == WIREGUARD then None else Some(l.controlVni),
                             if b.profile == EVPN then e.healthIp else None));
  }

  /** Every remote subnet must belong to a location with a link, and overlap no local one. */
  method CheckRemotes(b: Binding, locations: set<string>, cidrs: seq<Prefix>) returns (ok: bool)
    ensures ok <==> forall r :: r in b.remotes ==> r.location in locations && r.cidr.Canonical() && !OverlapsAny(r.cidr, cidrs)
  {
    hide OverlapsAny;
    for i := 0 to |b.remotes|
      invariant forall k :: 0 <= k < i ==> b.remotes[k].location in locations && b.remotes[k].cidr.Canonical() && !OverlapsAny(b.remotes[k].cidr, cidrs)
    {
      var r := b.remotes[i];
      assert r in b.remotes;
      var canonical := r.cidr.Canonical();
      var overlap := OverlapsAny(r.cidr, cidrs);
      if r.location !in locations || !canonical || overlap {
        return false;
      }
    }
    return true;
  }

  lemma KeysSeparate()
    ensures Separating(KeysDiffer)
  {
  }

  /** Sorting the peers changes neither what is acceptable nor where they are. */
  lemma SortedPeers(b: Binding, m: Endpoint)
    ensures var sorted := Sort(b.peers, PeerKey);
      && (PeersGood(b, m, sorted) <==> PeersGood(b, m, b.peers))
      && (forall p :: p in sorted <==> p in b.peers)
  {
    var sorted := Sort(b.peers, PeerKey);
    KeysSeparate();
    PairwiseForgetsOrder(sorted, b.peers, KeysDiffer);
    SameMembers(sorted, b.peers);
  }

  /** What the loop over the peers has built. */
  ghost predicate Built(b: Binding, m: Endpoint, done: seq<Peer>, chosen: seq<Peer>, tunnels: seq<Tunnel>, seen: set<string>, locations: set<string>) {
    && PeersGood(b, m, done) && seen == (set p | p in done :: PeerKey(p))
    && locations == (set p | p in chosen :: p.location)
    && (forall p :: p in chosen <==> p in done && ExportsOf(b.remotes, p.location) != [])
    && |tunnels| == |chosen| && (forall k :: 0 <= k < |chosen| ==> IsTunnel(b, m, chosen[k], tunnels[k]))
    && Pairwise(chosen, KeysDiffer)
  }

  /** One peer is acceptable after those already handled. */
  ghost predicate PeerFits(b: Binding, m: Endpoint, p: Peer, seen: set<string>) {
    && PeerKey(p) !in seen && p.location != b.location && p.location in b.authorized
    && (ExportsOf(b.remotes, p.location) != [] ==> Reciprocal(b, m, p))
  }

  lemma BuildOne(b: Binding, m: Endpoint, done: seq<Peer>, p: Peer, chosen: seq<Peer>, tunnels: seq<Tunnel>, seen: set<string>, locations: set<string>)
    requires Built(b, m, done, chosen, tunnels, seen, locations)
    ensures PeersGood(b, m, done + [p]) <==> PeerFits(b, m, p, seen)
    ensures PeerFits(b, m, p, seen) && ExportsOf(b.remotes, p.location) == [] ==>
              Built(b, m, done + [p], chosen, tunnels, seen + {PeerKey(p)}, locations)
    ensures PeerFits(b, m, p, seen) && ExportsOf(b.remotes, p.location) != [] ==>
              Built(b, m, done + [p], chosen + [p], tunnels + [TunnelOf(b, m, p)], seen + {PeerKey(p)}, locations + {p.location})
  {
    hide Reciprocal, TunnelOf, ExportsOf, PeerKey;
    var more := done + [p];
    assert forall k :: 0 <= k < |done| ==> more[k] == done[k];
    assert more[|done|] == p;
    assert forall q :: q in more <==> q in done || q == p;
    if PeersGood(b, m, more) {
      forall q | q in done ensures PeerKey(q) != PeerKey(p) {
        var k :| 0 <= k < |done| && done[k] == q;
        assert KeysDiffer(more[k], more[|done|]);
      }
    }
  }

  lemma PrefixGood(b: Binding, m: Endpoint, peers: seq<Peer>, n: nat)
    requires n <= |peers| && PeersGood(b, m, peers)
    ensures PeersGood(b, m, peers[..n])
  {
    hide Reciprocal, ExportsOf, PeerKey;
  }

  /** One tunnel for each of the chosen peers, which are those whose locations export something. */
  ghost predicate LinksOf(b: Binding, m: Endpoint, chosen: seq<Peer>, tunnels: seq<Tunnel>, locations: set<string>) {
    && |tunnels| == |chosen| && Pairwise(chosen, KeysDiffer) && SortedBy(chosen, PeerKey)
    && (forall k :: 0 <= k < |chosen| ==> chosen[k] in b.peers && IsTunnel(b, m, chosen[k], tunnels[k]))
    && (forall p :: p in b.peers && ExportsOf(b.remotes, p.location) != [] ==> p in chosen)
    && forall l :: l in locations <==> exists p :: p in b.peers && p.location == l && ExportsOf(b.remotes, l) != []
  }

  /** One peer checked against those before it, and rendered. */
  method StepPeer(b: Binding, m: Endpoint, p: Peer, seen: set<string>) returns (fits: bool, tunnel: Option<Tunnel>)
    ensures fits <==> PeerFits(b, m, p, seen)
    ensures fits ==> (tunnel.Some? <==> ExportsOf(b.remotes, p.location) != []) && (tunnel.Some? ==> tunnel.value == TunnelOf(b, m, p))
  {
    hide Reciprocal, TunnelOf, ExportsOf, PeerKey;
    if PeerKey(p) in seen || p.location == b.location || p.location !in b.authorized {
      return false, None;
    }
    fits, tunnel := RenderPeer(b, m, p);
  }

  /** One turn of the loop over the peers. */
  method AddPeer(b: Binding, m: Endpoint, p: Peer, tunnels: seq<Tunnel>, seen: set<string>, locations: set<string>,
                 ghost done: seq<Peer>, ghost chosen: seq<Peer>)
    returns (ok: bool, more: seq<Tunnel>, nowSeen: set<string>, nowLocations: set<string>, ghost nowChosen: seq<Peer>)
    requires Built(b, m, done, chosen, tunnels, seen, locations)
    ensures ok <==> PeersGood(b, m, done + [p])
    ensures ok ==> Built(b, m, done + [p], nowChosen, more, nowSeen, nowLocations)
    ensures nowChosen == chosen || nowChosen == chosen + [p]
  {
    hide Reciprocal, TunnelOf, ExportsOf, PeerKey, PeersGood, Built, PeerFits;
    BuildOne(b, m, done, p, chosen, tunnels, seen, locations);
    var tunnel;
    ok, tunnel := StepPeer(b, m, p, seen);
    more, nowSeen, nowLocations, nowChosen := tunnels, seen + {PeerKey(p)}, locations, chosen;
    if ok && tunnel.Some? {
      more, nowLocations, nowChosen := tunnels + [tunnel.value], locations + {p.location}, chosen + [p];
    }
  }

  /** The loop over the peers. */
  method RenderLinks(b: Binding, m: Endpoint) returns (tunnels: Option<seq<Tunnel>>, locations: set<string>, ghost chosen: seq<Peer>)
    ensures tunnels.Some? <==> PeersGood(b, m, b.peers)
    ensures tunnels.Some? ==> LinksOf(b, m, chosen, tunnels.value, locations)
  {
    hide PeersGood, Built, LinksOf, PeerKey, Sort, SortedBy;
    var peers := Sort(b.peers, PeerKey);
    SortedPeers(b, m);
    var out: seq<Tunnel>, seen: set<string> := [], {};
    locations, chosen := {}, [];
    NothingBuilt(b, m);
    for i := 0 to |peers|
      invariant Built(b, m, peers[..i], chosen, out, seen, locations)
      invariant SortedBy(chosen, PeerKey) && forall p :: p in chosen ==> p in peers[..i]
    {
      ghost var before := chosen;
      assert peers[..i + 1] == peers[..i] + [peers[i]];
      var ok;
      ok, out, seen, locations, chosen := AddPeer(b, m, peers[i], out, seen, locations, peers[..i], chosen);
      if !ok {
        if PeersGood(b, m, peers) {
          PrefixGood(b, m, peers, i + 1);
        }
        return None, locations, chosen;
      }
      OrderKept(peers, i, before, chosen);
    }
    assert peers[..|peers|] == peers;
    BuiltAll(b, m, peers, chosen, out, seen, locations);
    return Some(out), locations, chosen;
  }

  lemma OrderKept(peers: seq<Peer>, i: nat, before: seq<Peer>, after: seq<Peer>)
    requires SortedBy(peers, PeerKey) && i < |peers| && SortedBy(before, PeerKey) && forall p :: p in before ==> p in peers[..i]
    requires after == before || after == before + [peers[i]]
    ensures SortedBy(after, PeerKey) && forall p :: p in after ==> p in peers[..i + 1]
  {
    hide PeerKey, Below;
    forall p | p in before ensures !Below(PeerKey(peers[i]), PeerKey(p)) {
      var j :| 0 <= j < i && peers[j] == p;
    }
  }

  lemma NothingBuilt(b: Binding, m: Endpoint)
    ensures Built(b, m, [], [], [], {}, {}) && SortedBy<Peer>([], PeerKey)
  {
  }

  lemma BuiltAll(b: Binding, m: Endpoint, peers: seq<Peer>, chosen: seq<Peer>, tunnels: seq<Tunnel>, seen: set<string>, locations: set<string>)
    requires Built(b, m, peers, chosen, tunnels, seen, locations) && SortedBy(chosen, PeerKey) && forall p :: p in peers <==> p in b.peers
    ensures PeersGood(b, m, peers) && LinksOf(b, m, chosen, tunnels, locations)
  {
    hide PeersGood, IsTunnel, Pairwise, ExportsOf;
  }

  /** Rendering one gateway's configuration. */
  method Render(b: Binding, a: Attachment, m: Endpoint, mtu: int) returns (c: Option<Config>, ghost chosen: seq<Peer>)
    ensures c.Some? <==> Complete(b, m)
    ensures c.Some? ==> IsRendered(b, a, m, mtu, chosen, c.value)
  {
    hide PeersGood, IsTunnel, Pairwise, ExportsOf, OverlapsAny;
    chosen := [];
    var cidrs := ActiveSubnets(b.subnets);
    if cidrs == [] {
      return None, chosen;
    }
    var tunnels, locations;
    tunnels, locations, chosen := RenderLinks(b, m);
    if tunnels.None? {
      return None, chosen;
    }
    var remotes := CheckRemotes(b, locations, cidrs);
    LocationsCover(b, locations);
    if !remotes || b.profile !in {WIREGUARD, GENEVE, EVPN} {
      return None, chosen;
    }
    if b.profile == EVPN && !(1 <= b.networkId <= MAX_VNI) {
      return None, chosen;
    }
    return Some(Config(cidrs, a.transit, m.transitIp, a.router, a.source, b.profile, b.asn, mtu, b.profile != WIREGUARD, tunnels.value,
                       if b.profile == EVPN then m.healthIp else None, if b.profile == EVPN then Some(b.networkId) else None)), chosen;
  }

  lemma LocationsCover(b: Binding, locations: set<string>)
    requires forall l :: l in locations <==> exists p :: p in b.peers && p.location == l && ExportsOf(b.remotes, l) != []
    ensures forall r :: r in b.remotes ==> (r.location in locations <==> exists p :: p in b.peers && p.location == r.location)
  {
    forall r | r in b.remotes ensures ExportsOf(b.remotes, r.location) != [] {
      assert r.cidr in ExportsOf(b.remotes, r.location);
    }
    hide ExportsOf;
  }

  // ---- Whatever is rendered is accepted ----

  /** The controller's own checks on attachment, settings and snapshot, and the location's checks on workload ranges. */
  ghost predicate ValidInputs(b: Binding, a: Attachment, mtu: int, pool: Prefix) {
    && 4200000000 <= b.asn <= 4294967294 && 1280 <= mtu <= 1400
    && a.transit.Canonical() && a.transit.Contains(a.router) && !a.transit.Contains(a.source)
    && !pool.Overlaps(a.transit) && !pool.Contains(a.source)
    && (forall s :: s in b.subnets ==> s.cidr.Canonical() && !s.cidr.Overlaps(a.transit) && !s.cidr.Overlaps(pool) && !s.cidr.Contains(a.source))
    && (forall r :: r in b.remotes ==> !r.cidr.Overlaps(a.transit) && !r.cidr.Overlaps(pool))
  }

  /** The member ledger: transit address, health address and one control address per peer, all distinct, from their pools. */
  ghost predicate ValidMember(a: Attachment, m: Endpoint, pool: Prefix) {
    && a.transit.Contains(m.transitIp) && m.transitIp != a.router
    && Registered(m, pool)
  }

  ghost predicate Registered(e: Endpoint, pool: Prefix) {
    && e.healthIp.Some? && pool.Contains(e.healthIp.value)
    && (forall l :: l in e.links && l.tunnelIp.Some? ==> pool.Contains(l.tunnelIp.value) && l.tunnelIp != e.healthIp)
    && (forall k, l :: k in e.links && l in e.links && k.tunnelIp.Some? && k.tunnelIp == l.tunnelIp ==> k == l)
  }

  function ControlsOf(e: Endpoint): (r: set<Addr>) {
    (set l | l in e.links && l.tunnelIp.Some? :: l.tunnelIp.value) + (if e.healthIp.Some? then {e.healthIp.value} else {})
  }

  /** Each location allocates from a control pool of its own, no address twice, and the pools are disjoint from each other
      and from every workload and transit range. */
  ghost predicate PoolsApart(b: Binding, a: Attachment, pool: Prefix, pools: map<string, Prefix>) {
    && (forall p :: p in b.peers ==> p.location in pools && Registered(p.endpoint, pools[p.location]))
    && (forall p, q :: p in b.peers && q in b.peers && p != q && p.location == q.location ==> ControlsOf(p.endpoint) !! ControlsOf(q.endpoint))
    && (forall k, l :: k in pools && l in pools && k != l ==> !pools[k].Overlaps(pools[l]))
    && forall l :: l in pools ==> ForeignPool(b, a, pool, pools[l])
  }

  ghost predicate ForeignPool(b: Binding, a: Attachment, pool: Prefix, q: Prefix) {
    && !q.Overlaps(pool) && !q.Overlaps(a.transit)
    && (forall s :: s in b.subnets ==> !q.Overlaps(s.cidr)) && forall r :: r in b.remotes ==> !q.Overlaps(r.cidr)
  }

  /** The authority's claims: subnets of the VPC do not overlap. */
  ghost predicate ClaimsApart(b: Binding) {
    && DisjointPrefixes(Active(b.subnets))
    && forall r, s :: r in b.remotes && s in b.remotes && r.location != s.location ==> !r.cidr.Overlaps(s.cidr)
  }

  /** An address of a control pool lies in no range the pool is disjoint from. */
  ghost predicate PoolClear(b: Binding, a: Attachment, q: Prefix) {
    && !q.Overlaps(a.transit) && (forall s :: s in b.subnets ==> !q.Overlaps(s.cidr)) && forall r :: r in b.remotes ==> !q.Overlaps(r.cidr)
  }

  lemma OwnPoolClear(b: Binding, a: Attachment, mtu: int, pool: Prefix)
    requires ValidInputs(b, a, mtu, pool)
    ensures PoolClear(b, a, pool)
  {
    forall s | s in b.subnets ensures !pool.Overlaps(s.cidr) {
      OverlapsSymmetric(s.cidr, pool);
    }
    forall r | r in b.remotes ensures !pool.Overlaps(r.cidr) {
      OverlapsSymmetric(r.cidr, pool);
    }
  }

  lemma ControlClear(b: Binding, a: Attachment, q: Prefix, c: Config, x: Addr)
    requires PoolClear(b, a, q) && q.Contains(x) && c.transit == a.transit && c.prefixes == Active(b.subnets)
    ensures AcceptsControl(c, x)
    ensures forall r :: r in b.remotes ==> !r.cidr.Contains(x)
  {
    hide Active;
    if a.transit.Contains(x) {
      SharedOverlap(q, a.transit, x);
    }
    forall p | p in c.prefixes ensures !p.Contains(x) {
      var s :| s in b.subnets && s.cidr == p && !s.deleting;
      if p.Contains(x) {
        SharedOverlap(q, p, x);
      }
    }
    forall r | r in b.remotes ensures !r.cidr.Contains(x) {
      if r.cidr.Contains(x) {
        SharedOverlap(q, r.cidr, x);
      }
    }
  }

  /** Where one tunnel's parts come from. */
  lemma TunnelParts(b: Binding, m: Endpoint, p: Peer, t: Tunnel, pool: Prefix, pools: map<string, Prefix>)
    requires IsTunnel(b, m, p, t) && Registered(m, pool) && p.location in pools && Registered(p.endpoint, pools[p.location])
    ensures pool.Contains(t.local) && pools[p.location].Contains(t.remote) && t.local != t.remote
    ensures t.remote in ControlsOf(p.endpoint) && t.local in ControlsOf(m) && Some(t.local) != m.healthIp && Some(t.remote) != p.endpoint.healthIp
    ensures t.site == p.location && t.delegated == ExportsOf(b.remotes, p.location) && t.id == PeerId(b.location, m.id) + ("/" + PeerKey(p))
    ensures exists l :: l in m.links && l.peerId == PeerKey(p) && l.tunnelIp == Some(t.local)
    ensures (b.profile == EVPN ==> t.remoteHealth == p.endpoint.healthIp)
  {
    hide ExportsOf;
    var local := FindLink(m.links, PeerKey(p)).value;
    var remote := FindLink(p.endpoint.links, PeerId(b.location, m.id)).value;
    assert local in m.links && remote in p.endpoint.links;
  }

  lemma TunnelPorts(b: Binding, m: Endpoint, p: Peer, t: Tunnel, c: Config)
    requires IsTunnel(b, m, p, t) && c.profile == b.profile && b.profile in {WIREGUARD, GENEVE, EVPN}
    ensures AcceptsPorts(c, t)
  {
    hide ExportsOf, FindLink;
  }

  lemma DelegatedAccepted(b: Binding, a: Attachment, mtu: int, pool: Prefix, c: Config, location: string)
    requires ValidInputs(b, a, mtu, pool) && RemotesGood(b, b.peers) && c.transit == a.transit && c.prefixes == Active(b.subnets)
    ensures forall q :: q in ExportsOf(b.remotes, location) ==> AcceptsDelegated(c, q)
  {
    hide Active, ExportsOf, OverlapsAny;
    forall q | q in ExportsOf(b.remotes, location) ensures AcceptsDelegated(c, q) {
      assert Remote(location, q) in b.remotes;
    }
  }

  lemma LinkAccepted(b: Binding, a: Attachment, m: Endpoint, mtu: int, pool: Prefix, pools: map<string, Prefix>, c: Config, p: Peer, t: Tunnel)
    requires ValidInputs(b, a, mtu, pool) && ValidMember(a, m, pool) && PoolsApart(b, a, pool, pools) && Complete(b, m)
    requires c.transit == a.transit && c.prefixes == Active(b.subnets) && c.profile == b.profile && p in b.peers && IsTunnel(b, m, p, t)
    ensures AcceptsLink(c, t)
  {
    TunnelParts(b, m, p, t, pool, pools);
    TunnelPorts(b, m, p, t, c);
    DelegatedAccepted(b, a, mtu, pool, c, p.location);
    OwnPoolClear(b, a, mtu, pool);
    hide Active, ExportsOf, IsTunnel, AcceptsPorts, AcceptsDelegated, Registered, PeersGood, RemotesGood, ValidInputs, AcceptsControl;
    ControlClear(b, a, pool, c, t.local);
    ControlClear(b, a, pools[p.location], c, t.remote);
  }

  lemma SameText(prefix: string, x: string, y: string)
    requires prefix + ("/" + x) == prefix + ("/" + y)
    ensures x == y
  {
    assert x == (prefix + ("/" + x))[|prefix| + 1..];
    assert y == (prefix + ("/" + y))[|prefix| + 1..];
  }

  lemma DifferentPools(p: Prefix, q: Prefix, a: Addr, b: Addr)
    requires !p.Overlaps(q) && p.Contains(a) && q.Contains(b)
    ensures a != b
  {
    if a == b {
      SharedOverlap(p, q, a);
    }
  }

  lemma LinksStayApart(b: Binding, a: Attachment, m: Endpoint, pool: Prefix, pools: map<string, Prefix>, p: Peer, q: Peer, t: Tunnel, u: Tunnel)
    requires ValidMember(a, m, pool) && PoolsApart(b, a, pool, pools) && ClaimsApart(b)
    requires p in b.peers && q in b.peers && KeysDiffer(p, q) && IsTunnel(b, m, p, t) && IsTunnel(b, m, q, u)
    ensures LinksApart(t, u)
  {
    TunnelParts(b, m, p, t, pool, pools);
    TunnelParts(b, m, q, u, pool, pools);
    hide IsTunnel, ExportsOf, Active;
    assert t.id != u.id by {
      if t.id == u.id {
        SameText(PeerId(b.location, m.id), PeerKey(p), PeerKey(q));
      }
    }
    var k :| k in m.links && k.peerId == PeerKey(p) && k.tunnelIp == Some(t.local);
    var l :| l in m.links && l.peerId == PeerKey(q) && l.tunnelIp == Some(u.local);
    assert t.local != u.local;
    RemotesDiffer(b, a, pool, pools, p, q, t.remote, u.remote);
    DifferentPools(pools[q.location], pool, u.remote, t.local);
    DifferentPools(pools[p.location], pool, t.remote, u.local);
    forall x, y | x in t.delegated && y in u.delegated && x.Overlaps(y) ensures t.site == u.site {
      assert Remote(p.location, x) in b.remotes && Remote(q.location, y) in b.remotes;
    }
  }

  lemma RemotesDiffer(b: Binding, a: Attachment, pool: Prefix, pools: map<string, Prefix>, p: Peer, q: Peer, x: Addr, y: Addr)
    requires PoolsApart(b, a, pool, pools) && p in b.peers && q in b.peers && p != q
    requires x in ControlsOf(p.endpoint) && y in ControlsOf(q.endpoint)
    ensures x != y
  {
    ControlInPool(p.endpoint, pools[p.location], x);
    ControlInPool(q.endpoint, pools[q.location], y);
    hide ControlsOf, ForeignPool, Registered;
    if p.location != q.location {
      DifferentPools(pools[p.location], pools[q.location], x, y);
    }
  }

  lemma ControlInPool(e: Endpoint, pool: Prefix, x: Addr)
    requires Registered(e, pool) && x in ControlsOf(e)
    ensures pool.Contains(x)
  {
  }

  // ---- EVPN health addresses ----

  /** A control address used by the configuration: the gateway's own pool or a peer's. */
  lemma ControlOrigin(b: Binding, a: Attachment, m: Endpoint, mtu: int, pool: Prefix, pools: map<string, Prefix>, chosen: seq<Peer>, c: Config, x: Addr)
    requires ValidMember(a, m, pool) && PoolsApart(b, a, pool, pools) && IsRendered(b, a, m, mtu, chosen, c) && x in Controls(c.tunnels)
    ensures (pool.Contains(x) && Some(x) != m.healthIp) || exists p :: p in b.peers && x in ControlsOf(p.endpoint) && Some(x) != p.endpoint.healthIp
  {
    hide IsTunnel, Active, ControlsOf, Registered;
    var t :| t in c.tunnels && (x == t.local || x == t.remote);
    var k :| 0 <= k < |chosen| && c.tunnels[k] == t;
    TunnelParts(b, m, chosen[k], t, pool, pools);
  }

  lemma OwnHealthClear(b: Binding, a: Attachment, m: Endpoint, mtu: int, pool: Prefix, pools: map<string, Prefix>, chosen: seq<Peer>, c: Config)
    requires ValidInputs(b, a, mtu, pool) && ValidMember(a, m, pool) && PoolsApart(b, a, pool, pools) && IsRendered(b, a, m, mtu, chosen, c)
    ensures HealthClear(c, m.healthIp.value)
  {
    var h := m.healthIp.value;
    OwnPoolClear(b, a, mtu, pool);
    ControlClear(b, a, pool, c, h);
    DelegatedAreRemotes(b, a, m, mtu, chosen, c);
    hide ValidInputs, PoolClear, AcceptsControl, Controls, Delegated, IsRendered, ControlsOf;
    if h in Controls(c.tunnels) {
      ControlOrigin(b, a, m, mtu, pool, pools, chosen, c, h);
      var p :| p in b.peers && h in ControlsOf(p.endpoint) && Some(h) != p.endpoint.healthIp;
      ControlInPool(p.endpoint, pools[p.location], h);
      DifferentPools(pools[p.location], pool, h, h);
    }
  }

  lemma DelegatedAreRemotes(b: Binding, a: Attachment, m: Endpoint, mtu: int, chosen: seq<Peer>, c: Config)
    requires IsRendered(b, a, m, mtu, chosen, c)
    ensures forall p :: p in Delegated(c.tunnels) ==> exists r :: r in b.remotes && r.cidr == p
  {
    hide ExportsOf, Active, FindLink;
    forall p | p in Delegated(c.tunnels) ensures exists r :: r in b.remotes && r.cidr == p {
      var t :| t in c.tunnels && p in t.delegated;
      var k :| 0 <= k < |chosen| && c.tunnels[k] == t;
      assert IsTunnel(b, m, chosen[k], t);
      assert Remote(chosen[k].location, p) in b.remotes;
    }
  }

  lemma PeerHealthClear(b: Binding, a: Attachment, m: Endpoint, mtu: int, pool: Prefix, pools: map<string, Prefix>, chosen: seq<Peer>, c: Config, q: Peer)
    requires ValidInputs(b, a, mtu, pool) && ValidMember(a, m, pool) && PoolsApart(b, a, pool, pools) && IsRendered(b, a, m, mtu, chosen, c) && q in b.peers
    ensures q.endpoint.healthIp.Some? && HealthClear(c, q.endpoint.healthIp.value) && q.endpoint.healthIp != m.healthIp
  {
    assert Registered(q.endpoint, pools[q.location]);
    var h := q.endpoint.healthIp.value;
    assert h in ControlsOf(q.endpoint) && m.healthIp.Some? && pool.Contains(m.healthIp.value);
    DifferentPools(pools[q.location], pool, h, m.healthIp.value);
    ControlClear(b, a, pools[q.location], c, h);
    DelegatedAreRemotes(b, a, m, mtu, chosen, c);
    hide ValidInputs, PoolClear, AcceptsControl, Controls, Delegated, IsRendered, ControlsOf, Registered;
    if h in Controls(c.tunnels) {
      ControlOrigin(b, a, m, mtu, pool, pools, chosen, c, h);
      if pool.Contains(h) {
        DifferentPools(pools[q.location], pool, h, h);
      } else {
        var p :| p in b.peers && h in ControlsOf(p.endpoint) && Some(h) != p.endpoint.healthIp;
        RemotesDiffer(b, a, pool, pools, p, q, h, h);
      }
    }
  }

  lemma HealthAccepted(b: Binding, a: Attachment, m: Endpoint, mtu: int, pool: Prefix, pools: map<string, Prefix>, chosen: seq<Peer>, c: Config)
    requires ValidInputs(b, a, mtu, pool) && ValidMember(a, m, pool) && PoolsApart(b, a, pool, pools) && IsRendered(b, a, m, mtu, chosen, c)
    requires b.profile == EVPN
    ensures HealthDistinct(c) && HealthClear(c, c.health.value) && forall l :: l in c.tunnels ==> HealthClear(c, l.remoteHealth.value)
  {
    OwnHealthClear(b, a, m, mtu, pool, pools, chosen, c);
    forall k | 0 <= k < |chosen|
      ensures c.tunnels[k].remoteHealth == chosen[k].endpoint.healthIp && c.tunnels[k].remoteHealth.Some?
      ensures c.tunnels[k].remoteHealth != c.health && HealthClear(c, c.tunnels[k].remoteHealth.value)
    {
      TunnelParts(b, m, chosen[k], c.tunnels[k], pool, pools);
      PeerHealthClear(b, a, m, mtu, pool, pools, chosen, c, chosen[k]);
    }
    hide HealthClear, IsTunnel, ValidInputs, Active;
    forall i, j | 0 <= i < j < |chosen| ensures c.tunnels[i].remoteHealth != c.tunnels[j].remoteHealth {
      assert KeysDiffer(chosen[i], chosen[j]);
      assert chosen[i].endpoint.healthIp.value in ControlsOf(chosen[i].endpoint) && chosen[j].endpoint.healthIp.value in ControlsOf(chosen[j].endpoint);
      RemotesDiffer(b, a, pool, pools, chosen[i], chosen[j], chosen[i].endpoint.healthIp.value, chosen[j].endpoint.healthIp.value);
    }
  }

  lemma BaseAccepted(b: Binding, a: Attachment, m: Endpoint, mtu: int, pool: Prefix, chosen: seq<Peer>, c: Config)
    requires ValidInputs(b, a, mtu, pool) && ValidMember(a, m, pool) && Complete(b, m) && ClaimsApart(b) && IsRendered(b, a, m, mtu, chosen, c)
    ensures AcceptsBase(c) && c.prefixes != [] && DisjointPrefixes(c.prefixes)
  {
    hide IsTunnel, PeersGood, RemotesGood;
  }

  lemma RenderedTenants(b: Binding, a: Attachment, m: Endpoint, mtu: int, chosen: seq<Peer>, c: Config)
    requires IsRendered(b, a, m, mtu, chosen, c)
    ensures c.transit == a.transit && c.prefixes == Active(b.subnets)
  {
    hide Active, IsTunnel;
  }

  lemma PeerPoolClear(b: Binding, a: Attachment, pool: Prefix, pools: map<string, Prefix>, q: Peer)
    requires PoolsApart(b, a, pool, pools) && q in b.peers
    ensures q.location in pools && Registered(q.endpoint, pools[q.location]) && PoolClear(b, a, pools[q.location])
  {
    hide Registered, ControlsOf;
    assert ForeignPool(b, a, pool, pools[q.location]);
  }

  lemma ControlAvoidsRemotes(b: Binding, a: Attachment, m: Endpoint, mtu: int, pool: Prefix, pools: map<string, Prefix>, chosen: seq<Peer>, c: Config, x: Addr)
    requires ValidInputs(b, a, mtu, pool) && ValidMember(a, m, pool) && PoolsApart(b, a, pool, pools) && IsRendered(b, a, m, mtu, chosen, c)
    requires x in Controls(c.tunnels)
    ensures forall r :: r in b.remotes ==> !r.cidr.Contains(x)
  {
    hide ValidInputs, ValidMember, PoolsApart, IsRendered, Controls, ControlsOf, AcceptsControl, Active, Registered, PoolClear;
    OwnPoolClear(b, a, mtu, pool);
    RenderedTenants(b, a, m, mtu, chosen, c);
    ControlOrigin(b, a, m, mtu, pool, pools, chosen, c, x);
    if pool.Contains(x) {
      ControlClear(b, a, pool, c, x);
    } else {
      var q :| q in b.peers && x in ControlsOf(q.endpoint) && Some(x) != q.endpoint.healthIp;
      PeerPoolClear(b, a, pool, pools, q);
      ControlInPool(q.endpoint, pools[q.location], x);
      ControlClear(b, a, pools[q.location], c, x);
    }
  }

  lemma ControlsAvoidDelegated(b: Binding, a: Attachment, m: Endpoint, mtu: int, pool: Prefix, pools: map<string, Prefix>, chosen: seq<Peer>, c: Config)
    requires ValidInputs(b, a, mtu, pool) && ValidMember(a, m, pool) && PoolsApart(b, a, pool, pools) && IsRendered(b, a, m, mtu, chosen, c)
    ensures forall x, p :: x in Controls(c.tunnels) && p in Delegated(c.tunnels) ==> !p.Contains(x)
  {
    hide ValidInputs, ValidMember, PoolsApart, IsRendered, Controls, Delegated;
    DelegatedAreRemotes(b, a, m, mtu, chosen, c);
    forall x, p | x in Controls(c.tunnels) && p in Delegated(c.tunnels) ensures !p.Contains(x) {
      ControlAvoidsRemotes(b, a, m, mtu, pool, pools, chosen, c, x);
    }
  }

  /** For every transport: on inputs that passed the controller's checks, with disjoint pools and claims, whatever the
      controller renders the runtime accepts. */
  lemma RenderedIsAccepted(b: Binding, a: Attachment, m: Endpoint, mtu: int, pool: Prefix, pools: map<string, Prefix>, chosen: seq<Peer>, c: Config)
    requires ValidInputs(b, a, mtu, pool) && ValidMember(a, m, pool) && PoolsApart(b, a, pool, pools) && ClaimsApart(b)
    requires Complete(b, m) && IsRendered(b, a, m, mtu, chosen, c)
    ensures Accepts(c)
  {
    BaseAccepted(b, a, m, mtu, pool, chosen, c);
    ControlsAvoidDelegated(b, a, m, mtu, pool, pools, chosen, c);
    if b.profile == EVPN {
      HealthAccepted(b, a, m, mtu, pool, pools, chosen, c);
    }
    hide AcceptsBase, DisjointPrefixes, AcceptsLink, LinksApart, Controls, Delegated, HealthDistinct, HealthClear,
      IsTunnel, Active, ValidInputs, ValidMember, PoolsApart, ClaimsApart, PeersGood, RemotesGood;
    forall k | 0 <= k < |chosen| ensures AcceptsLink(c, c.tunnels[k]) {
      LinkAccepted(b, a, m, mtu, pool, pools, c, chosen[k], c.tunnels[k]);
    }
    forall i, j | 0 <= i < j < |chosen| ensures LinksApart(c.tunnels[i], c.tunnels[j]) {
      LinksStayApart(b, a, m, pool, pools, chosen[i], chosen[j], c.tunnels[i], c.tunnels[j]);
    }
  }
}
