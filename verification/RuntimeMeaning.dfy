/** What rendering completes on, what it writes, and what the runtime accepts, in the fields themselves
    (internal/managedgateway/render.go, gateway/managed.py). */
module RuntimeMeaning {
  import opened Wrappers
  import opened Ipv4
  import opened Ordering
  import opened RuntimeContract

  // ---- What is rendered ----

  /** The first link of a list that is named so. */
  ghost predicate FirstNamed(links: seq<Link>, name: string, l: Link) {
    exists i :: 0 <= i < |links| && links[i] == l && l.peerId == name && forall j :: 0 <= j < i ==> links[j].peerId != name
  }

  ghost predicate NoneNamed(links: seq<Link>, name: string) {
    forall j :: 0 <= j < |links| ==> links[j].peerId != name
  }

  lemma FirstLater(links: seq<Link>, name: string, l: Link)
    requires links != [] && links[0].peerId != name
    ensures FirstNamed(links, name, l) <==> FirstNamed(links[1..], name, l)
  {
    var rest := links[1..];
    if i :| 0 <= i < |rest| && rest[i] == l && l.peerId == name && forall j :: 0 <= j < i ==> rest[j].peerId != name {
      assert links[i + 1] == l && forall j :: 0 < j < i + 1 ==> links[j] == rest[j - 1];
    }
    if i :| 0 <= i < |links| && links[i] == l && l.peerId == name && forall j :: 0 <= j < i ==> links[j].peerId != name {
      assert rest[i - 1] == l && forall j :: 0 <= j < i - 1 ==> rest[j] == links[j + 1];
    }
  }

  lemma FirstNow(links: seq<Link>, l: Link)
    requires links != []
    ensures FirstNamed(links, links[0].peerId, l) <==> l == links[0]
  {
  }

  lemma {:induction false} FindMeans(links: seq<Link>, name: string)
    ensures forall l :: FindLink(links, name) == Some(l) <==> FirstNamed(links, name, l)
    ensures FindLink(links, name).None? <==> NoneNamed(links, name)
  {
    if links != [] {
      var rest := links[1..];
      FindMeans(rest, name);
      assert forall k :: 0 <= k < |rest| ==> rest[k] == links[k + 1];
      assert forall k :: 0 < k < |links| ==> links[k] == rest[k - 1];
      hide FirstNamed;
      forall l ensures FindLink(links, name) == Some(l) <==> FirstNamed(links, name, l) {
        if links[0].peerId != name {
          FirstLater(links, name, l);
        } else {
          FirstNow(links, l);
        }
      }
    }
  }

  /** Some remote prefix is placed at the location. */
  predicate Exporting(b: Binding, location: string) {
    exists r :: r in b.remotes && r.location == location
  }

  lemma {:induction false} ExportsMean(remotes: seq<Remote>, location: string, q: Prefix)
    ensures multiset(ExportsOf(remotes, location))[q] == multiset(remotes)[Remote(location, q)]
  {
    if remotes != [] {
      var front, last := remotes[..|remotes| - 1], remotes[|remotes| - 1];
      ExportsMean(front, location, q);
      assert remotes == front + [last];
    }
  }

  lemma ExportingMeans(b: Binding, location: string)
    ensures ExportsOf(b.remotes, location) != [] <==> Exporting(b, location)
  {
    if ExportsOf(b.remotes, location) != [] {
      assert ExportsOf(b.remotes, location)[0] in ExportsOf(b.remotes, location);
    }
  }

  /** Both halves of a link, the gateway's own and the peer's, agree. */
  ghost predicate HalvesAgree(b: Binding, m: Endpoint, p: Peer, own: Link, far: Link) {
    && FirstNamed(m.links, p.location + ("/" + p.endpoint.id), own) && FirstNamed(p.endpoint.links, b.location + ("/" + m.id), far)
    && own.tunnelIp.Some? && far.tunnelIp.Some? && own.tunnelIp.value != far.tunnelIp.value
    && 1024 <= own.listenPort <= 65535 && 1024 <= far.listenPort <= 65535
    && (b.profile != "wireguard-bgp" ==>
          own.listenPort == far.listenPort && own.controlVni == far.controlVni && 1 <= own.controlVni <= 16777215 && own.controlVni != b.networkId)
  }

  /** The peer is identified: an endpoint address, a health address, another location number, and for WireGuard a key. */
  predicate Identified(b: Binding, p: Peer) {
    && p.endpoint.endpointIp.Some? && p.endpoint.healthIp.Some? && p.endpoint.asn >= 4200000000 && p.endpoint.asn != b.asn
    && (b.profile == "wireguard-bgp" ==> p.endpoint.keyValid)
  }

  lemma ReciprocalMeans(b: Binding, m: Endpoint, p: Peer)
    ensures Reciprocal(b, m, p) <==> Identified(b, p) && exists own, far :: HalvesAgree(b, m, p, own, far)
  {
    var here, there := p.location + ("/" + p.endpoint.id), b.location + ("/" + m.id);
    FindMeans(m.links, here);
    FindMeans(p.endpoint.links, there);
    hide FindLink, FirstNamed;
    if Reciprocal(b, m, p) {
      assert HalvesAgree(b, m, p, FindLink(m.links, here).value, FindLink(p.endpoint.links, there).value);
    }
  }

  /** The link written for a peer: it listens where the gateway's own half says and dials the peer where the peer's half says,
      carries the prefixes placed at the peer's location, and has a tunnel number outside WireGuard and a health address for
      EVPN only. */
  ghost predicate WrittenFor(b: Binding, m: Endpoint, p: Peer, t: Tunnel) {
    exists own, far ::
      && HalvesAgree(b, m, p, own, far) && p.endpoint.endpointIp.Some? && p.endpoint.healthIp.Some?
      && t.id == b.location + ("/" + m.id) + ("/" + (p.location + ("/" + p.endpoint.id)))
      && t.listenPort == own.listenPort && t.local == own.tunnelIp.value && t.port == far.listenPort && t.remote == far.tunnelIp.value
      && t.host == p.endpoint.endpointIp.value && t.asn == p.endpoint.asn && t.site == p.location
      && (forall q :: multiset(t.delegated)[q] == multiset(b.remotes)[Remote(p.location, q)])
      && t.vni == (if b.profile == "wireguard-bgp" then None else Some(own.controlVni))
      && t.remoteHealth == (if b.profile == "vxlan-evpn" then p.endpoint.healthIp else None)
  }

  lemma TunnelMeans(b: Binding, m: Endpoint, p: Peer)
    requires Reciprocal(b, m, p)
    ensures WrittenFor(b, m, p, TunnelOf(b, m, p))
  {
    var here, there := p.location + ("/" + p.endpoint.id), b.location + ("/" + m.id);
    FindMeans(m.links, here);
    FindMeans(p.endpoint.links, there);
    forall q ensures multiset(ExportsOf(b.remotes, p.location))[q] == multiset(b.remotes)[Remote(p.location, q)] {
      ExportsMean(b.remotes, p.location, q);
    }
    hide FindLink, FirstNamed, ExportsOf;
    assert HalvesAgree(b, m, p, FindLink(m.links, here).value, FindLink(p.endpoint.links, there).value);
  }

  /** A rendered configuration: one link per peer whose location exports something, in the order of the peers' names, and the
      settings of binding, attachment and gateway. */
  lemma RenderedMeans(b: Binding, a: Attachment, m: Endpoint, mtu: int, chosen: seq<Peer>, c: Config)
    requires IsRendered(b, a, m, mtu, chosen, c)
    ensures |c.tunnels| == |chosen| && forall k :: 0 <= k < |chosen| ==> chosen[k] in b.peers && WrittenFor(b, m, chosen[k], c.tunnels[k])
    ensures forall p :: p in b.peers && Exporting(b, p.location) ==> p in chosen
    ensures forall p :: p in chosen ==> Exporting(b, p.location)
    ensures forall i, j :: 0 <= i < j < |chosen| ==> Below(chosen[i].location + ("/" + chosen[i].endpoint.id), chosen[j].location + ("/" + chosen[j].endpoint.id))
    ensures forall q :: multiset(c.prefixes)[q] == multiset(b.subnets)[Local(q, false)]
    ensures c.transit == a.transit && c.gateway == m.transitIp && c.router == a.router && c.source == a.source && c.profile == b.profile
    ensures c.asn == b.asn && c.mtu == mtu && (c.trusted <==> b.profile != "wireguard-bgp")
    ensures c.health == (if b.profile == "vxlan-evpn" then m.healthIp else None) && c.vni == (if b.profile == "vxlan-evpn" then Some(b.networkId) else None)
  {
    forall k | 0 <= k < |chosen| ensures chosen[k] in b.peers && WrittenFor(b, m, chosen[k], c.tunnels[k]) && Exporting(b, chosen[k].location) {
      assert IsTunnel(b, m, chosen[k], c.tunnels[k]);
      TunnelMeans(b, m, chosen[k]);
      ExportingMeans(b, chosen[k].location);
    }
    forall p | p in b.peers && Exporting(b, p.location) ensures p in chosen {
      ExportingMeans(b, p.location);
    }
    forall i, j | 0 <= i < j < |chosen| ensures Below(PeerKey(chosen[i]), PeerKey(chosen[j])) {
      BelowTotal(PeerKey(chosen[i]), PeerKey(chosen[j]));
      assert KeysDiffer(chosen[i], chosen[j]);
    }
    forall q ensures multiset(c.prefixes)[q] == multiset(b.subnets)[Local(q, false)] {
      ActiveMeans(b.subnets, q);
    }
  }

  lemma {:induction false} ActiveMeans(subnets: seq<Local>, q: Prefix)
    ensures multiset(Active(subnets))[q] == multiset(subnets)[Local(q, false)]
  {
    if subnets != [] {
      var front, last := subnets[..|subnets| - 1], subnets[|subnets| - 1];
      ActiveMeans(front, q);
      assert subnets == front + [last];
    }
  }

  /** Exactly when rendering completes. */
  lemma CompleteMeans(b: Binding, m: Endpoint)
    ensures Complete(b, m) <==>
      && (exists s :: s in b.subnets && !s.deleting)
      && b.profile in {"wireguard-bgp", "geneve-bgp", "vxlan-evpn"} && (b.profile == "vxlan-evpn" ==> 1 <= b.networkId <= 16777215)
      && (forall i, j :: 0 <= i < j < |b.peers| ==>
            b.peers[i].location + ("/" + b.peers[i].endpoint.id) != b.peers[j].location + ("/" + b.peers[j].endpoint.id))
      && (forall p :: p in b.peers ==> p.location != b.location && p.location in b.authorized)
      && (forall p :: p in b.peers && Exporting(b, p.location) ==> Identified(b, p) && exists own, far :: HalvesAgree(b, m, p, own, far))
      && forall r :: r in b.remotes ==> RemoteFits(b, r)
  {
    hide HalvesAgree, Identified, Reciprocal, ExportsOf, Active, Exporting;
    forall p: Peer ensures (ExportsOf(b.remotes, p.location) != [] <==> Exporting(b, p.location))
             ensures Reciprocal(b, m, p) <==> Identified(b, p) && exists own, far :: HalvesAgree(b, m, p, own, far) {
      ExportingMeans(b, p.location);
      ReciprocalMeans(b, m, p);
    }
    ActiveSome(b.subnets);
    forall r: Remote ensures OverlapsAny(r.cidr, Active(b.subnets)) <==> SharesActive(b, r.cidr) {
      SharesMeans(b, r.cidr);
    }
  }

  /** Some address of the prefix lies in a local subnet that is not going away. */
  ghost predicate SharesActive(b: Binding, q: Prefix) {
    exists s, a: Addr :: s in b.subnets && !s.deleting && s.cidr.Contains(a) && q.Contains(a)
  }

  ghost predicate RemoteFits(b: Binding, r: Remote) {
    (exists p :: p in b.peers && p.location == r.location) && r.cidr.addr % Size(r.cidr.bits) == 0 && !SharesActive(b, r.cidr)
  }

  lemma ActiveSome(subnets: seq<Local>)
    ensures Active(subnets) != [] <==> exists s :: s in subnets && !s.deleting
  {
    if s :| s in subnets && !s.deleting {
      ActiveMeans(subnets, s.cidr);
      assert s in multiset(subnets) && s == Local(s.cidr, false);
      assert s.cidr in multiset(Active(subnets));
    }
    if Active(subnets) != [] {
      assert Active(subnets)[0] in Active(subnets);
    }
  }

  lemma SharesMeans(b: Binding, q: Prefix)
    ensures OverlapsAny(q, Active(b.subnets)) <==> SharesActive(b, q)
  {
    forall p: Prefix ensures q.Overlaps(p) <==> exists a: Addr :: q.Contains(a) && p.Contains(a) {
      OverlapsIffShared(q, p);
    }
    forall p ensures p in Active(b.subnets) <==> Local(p, false) in b.subnets {
      ActiveMeans(b.subnets, p);
      assert p in Active(b.subnets) <==> p in multiset(Active(b.subnets));
      assert Local(p, false) in b.subnets <==> Local(p, false) in multiset(b.subnets);
    }
    hide Active;
    if SharesActive(b, q) {
      var s, a: Addr :| s in b.subnets && !s.deleting && s.cidr.Contains(a) && q.Contains(a);
      assert s == Local(s.cidr, false);
    }
    if OverlapsAny(q, Active(b.subnets)) {
      var p :| p in Active(b.subnets) && q.Overlaps(p);
      assert Local(p, false) in b.subnets;
    }
  }

  // ---- What the runtime accepts ----

  /** The address lies neither in the transit network nor in a local prefix. */
  ghost predicate Outside(c: Config, a: Addr) {
    !c.transit.Contains(a) && forall p :: p in c.prefixes ==> !p.Contains(a)
  }

  ghost predicate PlainBase(c: Config) {
    && c.transit.addr % Size(c.transit.bits) == 0 && c.transit.Contains(c.gateway) && c.transit.Contains(c.router) && c.gateway != c.router
    && !c.transit.Contains(c.source)
    && c.prefixes != [] && (forall p :: p in c.prefixes ==> p.addr % Size(p.bits) == 0 && !p.Contains(c.source))
    && (forall p, a: Addr :: p in c.prefixes && p.Contains(a) ==> !c.transit.Contains(a))
    && (forall i, j, a: Addr :: 0 <= i < j < |c.prefixes| && c.prefixes[i].Contains(a) ==> !c.prefixes[j].Contains(a))
    && c.profile in {"wireguard-bgp", "geneve-bgp", "vxlan-evpn"} && (c.profile != "wireguard-bgp" ==> c.trusted)
    && 4200000000 <= c.asn <= 4294967294 && 1280 <= c.mtu <= 1400
  }

  ghost predicate PlainLink(c: Config, l: Tunnel) {
    && 1024 <= l.port <= 65535 && 1024 <= l.listenPort <= 65535
    && (c.profile != "wireguard-bgp" ==> l.listenPort == l.port && l.vni.Some? && 1 <= l.vni.value <= 16777215)
    && Outside(c, l.local) && Outside(c, l.remote) && l.local != l.remote
    && forall q :: q in l.delegated ==> q.addr % Size(q.bits) == 0 && forall a: Addr :: q.Contains(a) ==> Outside(c, a)
  }

  ghost predicate PlainlyDistinct(k: Tunnel, l: Tunnel) {
    && k.id != l.id && {k.local, k.remote} !! {l.local, l.remote}
    && forall p, q, a: Addr :: p in k.delegated && q in l.delegated && p.Contains(a) && q.Contains(a) ==> k.site == l.site
  }

  /** An EVPN health address, of the gateway itself or of a peer. */
  predicate Health(c: Config, h: Addr) {
    c.health == Some(h) || exists l :: l in c.tunnels && l.remoteHealth == Some(h)
  }

  ghost predicate PlainEvpn(c: Config) {
    && c.vni.Some? && 1 <= c.vni.value <= 16777215
    && c.health.Some? && (forall l :: l in c.tunnels ==> l.remoteHealth.Some? && l.remoteHealth != c.health)
    && (forall i, j :: 0 <= i < j < |c.tunnels| ==> c.tunnels[i].remoteHealth != c.tunnels[j].remoteHealth)
    && forall h: Addr :: Health(c, h) ==>
         && Outside(c, h)
         && forall l :: l in c.tunnels ==> h != l.local && h != l.remote && forall q :: q in l.delegated ==> !q.Contains(h)
  }

  /** No control address of any link lies in a delegated prefix of any link. */
  ghost predicate ControlsOutside(c: Config) {
    forall k, l, q :: k in c.tunnels && l in c.tunnels && q in l.delegated ==> !q.Contains(k.local) && !q.Contains(k.remote)
  }

  lemma BaseMeans(c: Config)
    ensures AcceptsBase(c) && c.prefixes != [] && DisjointPrefixes(c.prefixes) <==> PlainBase(c)
  {
    forall p: Prefix, q: Prefix ensures p.Overlaps(q) <==> exists a: Addr :: p.Contains(a) && q.Contains(a) {
      OverlapsIffShared(p, q);
    }
  }

  lemma LinkMeans(c: Config, l: Tunnel)
    ensures AcceptsLink(c, l) <==> PlainLink(c, l)
  {
    forall q: Prefix ensures !q.Overlaps(c.transit) && !RuntimeContract.OverlapsAny(q, c.prefixes) <==> forall a: Addr :: q.Contains(a) ==> Outside(c, a) {
      OutsideMeans(c, q);
    }
    hide RuntimeContract.OverlapsAny;
    assert forall a: Addr :: AcceptsControl(c, a) <==> Outside(c, a);
  }

  lemma OutsideMeans(c: Config, q: Prefix)
    ensures !q.Overlaps(c.transit) && !RuntimeContract.OverlapsAny(q, c.prefixes) <==> forall a: Addr :: q.Contains(a) ==> Outside(c, a)
  {
    forall p: Prefix ensures q.Overlaps(p) <==> exists a: Addr :: q.Contains(a) && p.Contains(a) {
      OverlapsIffShared(q, p);
    }
  }

  lemma DistinctMeans(k: Tunnel, l: Tunnel)
    ensures LinksApart(k, l) <==> PlainlyDistinct(k, l)
  {
    forall p: Prefix, q: Prefix ensures p.Overlaps(q) <==> exists a: Addr :: p.Contains(a) && q.Contains(a) {
      OverlapsIffShared(p, q);
    }
  }

  lemma EvpnMeans(c: Config)
    ensures (HealthDistinct(c) && c.vni.Some? && 1 <= c.vni.value <= MAX_VNI
             && HealthClear(c, c.health.value) && (forall l :: l in c.tunnels ==> HealthClear(c, l.remoteHealth.value))) <==> PlainEvpn(c)
  {
    forall h: Addr ensures HealthClear(c, h) <==>
      Outside(c, h) && forall l :: l in c.tunnels ==> h != l.local && h != l.remote && forall q :: q in l.delegated ==> !q.Contains(h) {
      ClearMeans(c, h);
    }
    hide HealthClear, Outside;
  }

  lemma ClearMeans(c: Config, h: Addr)
    ensures HealthClear(c, h) <==>
      Outside(c, h) && forall l :: l in c.tunnels ==> h != l.local && h != l.remote && forall q :: q in l.delegated ==> !q.Contains(h)
  {
  }

  lemma ControlsMean(c: Config)
    ensures (forall a, p :: a in Controls(c.tunnels) && p in Delegated(c.tunnels) ==> !p.Contains(a)) <==> ControlsOutside(c)
  {
    if forall a, p :: a in Controls(c.tunnels) && p in Delegated(c.tunnels) ==> !p.Contains(a) {
      forall k, l, q | k in c.tunnels && l in c.tunnels && q in l.delegated ensures !q.Contains(k.local) && !q.Contains(k.remote) {
        assert k.local in Controls(c.tunnels) && k.remote in Controls(c.tunnels) && q in Delegated(c.tunnels);
      }
    }
  }

  /** Exactly the configurations the runtime accepts. */
  lemma AcceptsMeans(c: Config)
    ensures Accepts(c) <==>
      && PlainBase(c) && (forall l :: l in c.tunnels ==> PlainLink(c, l))
      && (forall i, j :: 0 <= i < j < |c.tunnels| ==> PlainlyDistinct(c.tunnels[i], c.tunnels[j]))
      && ControlsOutside(c) && (c.profile == "vxlan-evpn" ==> PlainEvpn(c))
  {
    hide AcceptsBase, DisjointPrefixes, PlainBase, AcceptsLink, PlainLink, LinksApart, PlainlyDistinct, Controls, Delegated, ControlsOutside,
      HealthDistinct, HealthClear, PlainEvpn;
    BaseMeans(c);
    ControlsMean(c);
    EvpnMeans(c);
    forall l ensures AcceptsLink(c, l) <==> PlainLink(c, l) {
      LinkMeans(c, l);
    }
    forall k, l ensures LinksApart(k, l) <==> PlainlyDistinct(k, l) {
      DistinctMeans(k, l);
    }
  }
}
