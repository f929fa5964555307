/** The managed gateways' retained address and port registry (internal/managedgateway/registry.go). */
module GatewayRegistry {
  import opened Wrappers
  import opened Ipv4
  import SiteConfig

  /** Addresses by claim, and ports by node/claim. */
  datatype Registry = Registry(addresses: map<string, string>, ports: map<string, int>)

  datatype Pools = Pools(addresses: Prefix, portStart: int, portEnd: int)

  datatype Request = Address(key: string) | Port(key: string, node: string)

  datatype Refusal = Invalid | NoAddress | Exhausted

  // ---- What a stored registry must satisfy ----

  predicate GoodPools(pools: Pools) {
    SiteConfig.GoodNetwork(pools.addresses) && 1024 <= pools.portStart <= pools.portEnd <= 65535
  }

  predicate GoodAddress(claim: string, text: string, pool: Prefix) {
    claim != "" && SiteConfig.Host(text, pool).Some?
  }

  /** A port claim cut at its first separator. */
  function NodeOf(claim: string): (node: string) {
    Before(claim, '/')
  }

  function KeyOf(claim: string): (key: string) {
    if |NodeOf(claim)| < |claim| then claim[|NodeOf(claim)| + 1..] else ""
  }

  predicate GoodPort(claim: string, port: int, pools: Pools, addresses: map<string, string>) {
    && '/' in claim && NodeOf(claim) != "" && KeyOf(claim) != ""
    && pools.portStart <= port <= pools.portEnd
    && KeyOf(claim) in addresses && addresses[KeyOf(claim)] != ""
  }

  ghost predicate Decodable(reg: Registry, pools: Pools) {
    && GoodPools(pools)
    && (forall c :: c in reg.addresses ==> GoodAddress(c, reg.addresses[c], pools.addresses))
    && (forall c, d :: c in reg.addresses && d in reg.addresses && reg.addresses[c] == reg.addresses[d] ==> c == d)
    && (forall c :: c in reg.ports ==> GoodPort(c, reg.ports[c], pools, reg.addresses))
    && (forall c, d :: c in reg.ports && d in reg.ports && NodeOf(c) == NodeOf(d) && reg.ports[c] == reg.ports[d] ==> c == d)
  }

  method CheckAddresses(addresses: map<string, string>, pool: Prefix) returns (ok: bool)
    ensures ok <==> (forall c :: c in addresses ==> GoodAddress(c, addresses[c], pool))
                    && forall c, d :: c in addresses && d in addresses && addresses[c] == addresses[d] ==> c == d
  {
    hide GoodAddress;
    var seen: set<string> := {};
    ghost var holder: map<string, string> := map[];
    var todo := addresses.Keys;
    while todo != {}
      invariant todo <= addresses.Keys && seen == holder.Keys
      invariant forall t :: t in holder ==> holder[t] in addresses && holder[t] !in todo && addresses[holder[t]] == t
      invariant forall c :: c in addresses && c !in todo ==> GoodAddress(c, addresses[c], pool) && addresses[c] in holder && holder[addresses[c]] == c
    {
      var c :| c in todo;
      todo := todo - {c};
      var good := GoodAddress(c, addresses[c], pool);
      if !good || addresses[c] in seen {
        assert addresses[c] in seen ==> holder[addresses[c]] != c;
        return false;
      }
      seen := seen + {addresses[c]};
      holder := holder[addresses[c] := c];
    }
    return true;
  }

  method CheckPorts(reg: Registry, pools: Pools) returns (ok: bool)
    ensures ok <==> (forall c :: c in reg.ports ==> GoodPort(c, reg.ports[c], pools, reg.addresses))
                    && forall c, d :: c in reg.ports && d in reg.ports && NodeOf(c) == NodeOf(d) && reg.ports[c] == reg.ports[d] ==> c == d
  {
    hide GoodPort, NodeOf;
    var seen: set<(string, int)> := {};
    ghost var holder: map<(string, int), string> := map[];
    var todo := reg.ports.Keys;
    while todo != {}
      invariant todo <= reg.ports.Keys && seen == holder.Keys
      invariant forall i :: i in holder ==> holder[i] in reg.ports && holder[i] !in todo && (NodeOf(holder[i]), reg.ports[holder[i]]) == i
      invariant forall c :: c in reg.ports && c !in todo ==>
                  GoodPort(c, reg.ports[c], pools, reg.addresses) && (NodeOf(c), reg.ports[c]) in holder && holder[(NodeOf(c), reg.ports[c])] == c
    {
      var c :| c in todo;
      todo := todo - {c};
      var identity := (NodeOf(c), reg.ports[c]);
      var good := GoodPort(c, reg.ports[c], pools, reg.addresses);
      if !good || identity in seen {
        assert identity in seen ==> holder[identity] != c;
        return false;
      }
      seen := seen + {identity};
      holder := holder[identity := c];
    }
    return true;
  }

  /** Reading a stored registry back. */
  method DecodeRegistry(reg: Registry, pools: Pools) returns (ok: bool)
    ensures ok <==> Decodable(reg, pools)
  {
    hide GoodAddress, GoodPort, NodeOf, SiteConfig.GoodNetwork;
    var good := GoodPools(pools);
    if !good {
      return false;
    }
    var addresses := CheckAddresses(reg.addresses, pools.addresses);
    if !addresses {
      return false;
    }
    ok := CheckPorts(reg, pools);
  }

  // ---- Scanning ----

  /** The addresses the scan tries: everything strictly between network and broadcast. */
  predicate Candidate(a: int, pool: Prefix) {
    pool.addr < a < pool.Last()
  }

  ghost predicate FirstFree(a: int, used: set<string>, pool: Prefix) {
    && Candidate(a, pool) && 0 <= a < SPACE && AddrText(a) !in used
    && forall b: Addr :: pool.addr < b < a ==> AddrText(b) in used
  }

  ghost predicate AllUsed(used: set<string>, pool: Prefix) {
    forall b: Addr :: Candidate(b, pool) ==> AddrText(b) in used
  }

  lemma QuotientIs(a: int, s: int, k: int)
    requires s > 0
    ensures a / s == k <==> k * s <= a < k * s + s
  {
    if k * s <= a < k * s + s {
      DivIs(a, s, k, a - k * s);
    }
  }

  lemma ContainsIsRange(p: Prefix, a: Addr)
    requires p.Canonical()
    ensures p.Contains(a) <==> p.addr <= a <= p.Last()
    ensures p.Network() == p.addr && p.addr <= p.Last()
  {
    hide Size;
    NetworkInSpace(p.addr, p.bits);
    QuotientIs(a, Size(p.bits), Block(p.addr, p.bits));
  }

  method ScanAddresses(used: set<string>, pool: Prefix) returns (free: Option<Addr>)
    requires pool.Canonical() && pool.Last() < SPACE - 1
    ensures free.Some? ==> FirstFree(free.value, used, pool)
    ensures free.None? <==> AllUsed(used, pool)
  {
    hide AddrText;
    var ip: int := pool.addr + 1;
    ContainsIsRange(pool, pool.addr);
    assert ip + 1 < SPACE ==> (pool.Contains(ip + 1) <==> ip + 1 <= pool.Last()) by {
      if ip + 1 < SPACE { ContainsIsRange(pool, ip + 1); }
    }
    while ip + 1 < SPACE && pool.Contains(ip + 1)
      invariant pool.addr < ip <= pool.Last() + 1
      invariant ip + 1 < SPACE ==> (pool.Contains(ip + 1) <==> ip + 1 <= pool.Last())
      invariant forall b: Addr :: pool.addr < b < ip && Candidate(b, pool) ==> AddrText(b) in used
    {
      if AddrText(ip) !in used {
        return Some(ip);
      }
      ip := ip + 1;
      if ip + 1 < SPACE {
        ContainsIsRange(pool, ip + 1);
      }
    }
    return None;
  }

  method ScanPorts(used: set<int>, pools: Pools) returns (free: Option<int>)
    ensures free.Some? ==> pools.portStart <= free.value <= pools.portEnd && free.value !in used
    ensures free.Some? ==> forall v :: pools.portStart <= v < free.value ==> v in used
    ensures free.None? <==> forall v :: pools.portStart <= v <= pools.portEnd ==> v in used
  {
    var v := pools.portStart;
    while v <= pools.portEnd
      invariant pools.portStart <= v && (v <= pools.portEnd + 1 || v == pools.portStart)
      invariant forall w :: pools.portStart <= w < v ==> w in used
    {
      if v !in used {
        return Some(v);
      }
      v := v + 1;
    }
    return None;
  }

  // ---- Allocation ----

  function Values(addresses: map<string, string>): (used: set<string>) {
    set c | c in addresses :: addresses[c]
  }

  /** The ports taken on a node: claims that start with its name and a separator. */
  function NodePorts(ports: map<string, int>, node: string): (used: set<int>) {
    set c | c in ports && node + "/" <= c :: ports[c]
  }

  predicate GoodRequest(q: Request) {
    q.key != "" && (q.Port? ==> q.node != "" && '/' !in q.node)
  }

  function PortClaim(q: Request): (claim: string)
    requires q.Port?
  {
    q.node + ("/" + q.key)
  }

  /** The registry after one allocation, the claim's value, and whether anything is written. */
  ghost predicate Allocates(reg: Registry, pools: Pools, q: Request, r: Result<Registry, Refusal>) {
    if !GoodRequest(q) then r == Err(Invalid)
    else match q
      case Address(key) =>
        if key in reg.addresses then r == Ok(reg)
        else if AllUsed(Values(reg.addresses), pools.addresses) then r == Err(Exhausted)
        else r.Ok? && AddressAdded(reg, pools, key, r.value)
      case Port(key, node) =>
        if key !in reg.addresses || reg.addresses[key] == "" then r == Err(NoAddress)
        else if PortClaim(q) in reg.ports then r == Ok(reg)
        else if AllTaken(reg, pools, node) then r == Err(Exhausted)
        else r.Ok? && PortAdded(reg, pools, q, r.value)
  }

  ghost predicate AllTaken(reg: Registry, pools: Pools, node: string) {
    forall v :: pools.portStart <= v <= pools.portEnd ==> v in NodePorts(reg.ports, node)
  }

  ghost predicate AddressAdded(reg: Registry, pools: Pools, key: string, after: Registry) {
    exists a: Addr :: FirstFree(a, Values(reg.addresses), pools.addresses) && after == reg.(addresses := reg.addresses[key := AddrText(a)])
  }

  ghost predicate PortAdded(reg: Registry, pools: Pools, q: Request, after: Registry)
    requires q.Port?
  {
    exists v :: && pools.portStart <= v <= pools.portEnd && v !in NodePorts(reg.ports, q.node)
                && after == reg.(ports := reg.ports[PortClaim(q) := v])
                && forall w :: pools.portStart <= w < v ==> w in NodePorts(reg.ports, q.node)
  }

  method Allocate(reg: Registry, pools: Pools, q: Request) returns (r: Result<Registry, Refusal>)
    requires GoodPools(pools)
    ensures Allocates(reg, pools, q, r)
  {
    hide AddrText, FirstFree, AllUsed, NodePorts, Values;
    if q.key == "" || (q.Port? && (q.node == "" || '/' in q.node)) {
      return Err(Invalid);
    }
    if q.Port? {
      if q.key !in reg.addresses || reg.addresses[q.key] == "" {
        return Err(NoAddress);
      }
      if PortClaim(q) in reg.ports {
        return Ok(reg);
      }
      var v := ScanPorts(NodePorts(reg.ports, q.node), pools);
      if v.None? {
        return Err(Exhausted);
      }
      return Ok(reg.(ports := reg.ports[PortClaim(q) := v.value]));
    }
    if q.key in reg.addresses {
      return Ok(reg);
    }
    PoolBelowTop(pools.addresses);
    var a := ScanAddresses(Values(reg.addresses), pools.addresses);
    if a.None? {
      return Err(Exhausted);
    }
    return Ok(reg.(addresses := reg.addresses[q.key := AddrText(a.value)]));
  }

  lemma PoolBelowTop(p: Prefix)
    requires SiteConfig.GoodNetwork(p)
    ensures p.Canonical() && p.Last() < SPACE - 1
  {
  }

  // ---- What an allocation keeps ----

  ghost predicate Extends(a: Registry, b: Registry) {
    && (forall c :: c in a.addresses ==> c in b.addresses && b.addresses[c] == a.addresses[c])
    && (forall c :: c in a.ports ==> c in b.ports && b.ports[c] == a.ports[c])
  }

  /** No existing claim ever changes, and the requested one is there afterwards. */
  lemma AllocationExtends(reg: Registry, pools: Pools, q: Request, r: Result<Registry, Refusal>)
    requires Allocates(reg, pools, q, r) && r.Ok?
    ensures Extends(reg, r.value)
    ensures if q.Address? then q.key in r.value.addresses else PortClaim(q) in r.value.ports
  {
    hide FirstFree, AllUsed, AddrText, NodePorts, Values;
  }

  /** Inside a legal pool the only addresses that are not usable hosts are link-local. */
  lemma CandidateHost(pool: Prefix, a: Addr)
    requires SiteConfig.GoodNetwork(pool) && Candidate(a, pool)
    ensures SiteConfig.UsableHost(a, pool) <==> !LinkLocal(a)
  {
    ContainsIsRange(pool, a);
    Coarsen(a, pool.addr, 8, pool.bits);
    Size8();
  }

  lemma Size8()
    ensures Size(8) == 0x100_0000
  {
    assert Size(32) == 1 && Size(31) == 2 && Size(30) == 4 && Size(29) == 8 && Size(28) == 16 && Size(27) == 32 && Size(26) == 64;
    assert Size(25) == 128 && Size(24) == 256 && Size(23) == 512 && Size(22) == 1024 && Size(21) == 2048 && Size(20) == 4096;
    assert Size(19) == 8192 && Size(18) == 16384 && Size(17) == 32768 && Size(16) == 65536 && Size(15) == 131072 && Size(14) == 262144;
    assert Size(13) == 524288 && Size(12) == 1048576 && Size(11) == 2097152 && Size(10) == 4194304 && Size(9) == 8388608;
  }

  lemma HostText(pool: Prefix, a: Addr)
    ensures SiteConfig.Host(AddrText(a), pool).Some? <==> SiteConfig.UsableHost(a, pool)
  {
    var h := SiteConfig.Host(AddrText(a), pool);
    if h.Some? {
      AddrTextInjective(h.value, a);
    }
  }

  /** A new address is readable back exactly when the first free one is not link-local. */
  lemma AddressDecodable(reg: Registry, pools: Pools, key: string, a: Addr)
    requires Decodable(reg, pools) && key != "" && key !in reg.addresses
    requires FirstFree(a, Values(reg.addresses), pools.addresses)
    ensures Decodable(reg.(addresses := reg.addresses[key := AddrText(a)]), pools) <==> !LinkLocal(a)
  {
    hide AddrText, SiteConfig.Host, NodeOf, KeyOf;
    var after := reg.(addresses := reg.addresses[key := AddrText(a)]);
    CandidateHost(pools.addresses, a);
    HostText(pools.addresses, a);
    forall c | c in reg.addresses ensures reg.addresses[c] != AddrText(a) {
      assert reg.addresses[c] in Values(reg.addresses);
    }
    if Decodable(after, pools) {
      assert GoodAddress(key, after.addresses[key], pools.addresses);
    } else if !LinkLocal(a) {
      forall c | c in after.ports ensures GoodPort(c, after.ports[c], pools, after.addresses) {
        assert GoodPort(c, reg.ports[c], pools, reg.addresses);
      }
    }
  }

  lemma PortClaimParts(node: string, key: string)
    requires '/' !in node
    ensures NodeOf(node + ("/" + key)) == node && KeyOf(node + ("/" + key)) == key && '/' in node + ("/" + key)
  {
    BeforeSeparator(node, key, '/');
  }

  lemma {:induction false} PrefixIsNode(node: string, claim: string)
    requires '/' !in node && '/' in claim
    ensures node + "/" <= claim <==> NodeOf(claim) == node
  {
    BeforeIsPrefix(claim);
    if node + "/" <= claim {
      assert claim == node + ("/" + claim[|node| + 1..]);
      PortClaimParts(node, claim[|node| + 1..]);
    }
  }

  lemma {:induction false} BeforeIsPrefix(claim: string)
    requires '/' in claim
    ensures '/' !in NodeOf(claim) && NodeOf(claim) + "/" <= claim
  {
    if claim[0] != '/' {
      BeforeIsPrefix(claim[1..]);
      assert claim == [claim[0]] + claim[1..];
    }
  }

  /** A new port is always readable back. */
  lemma PortDecodable(reg: Registry, pools: Pools, q: Request, v: int)
    requires Decodable(reg, pools) && q.Port? && GoodRequest(q) && q.key in reg.addresses && reg.addresses[q.key] != ""
    requires PortClaim(q) !in reg.ports && pools.portStart <= v <= pools.portEnd && v !in NodePorts(reg.ports, q.node)
    ensures Decodable(reg.(ports := reg.ports[PortClaim(q) := v]), pools)
  {
    hide SiteConfig.Host, NodeOf, KeyOf, SiteConfig.GoodNetwork;
    var claim := PortClaim(q);
    PortClaimParts(q.node, q.key);
    forall c | c in reg.ports && NodeOf(c) == q.node ensures reg.ports[c] != v {
      assert GoodPort(c, reg.ports[c], pools, reg.addresses);
      PrefixIsNode(q.node, c);
      assert reg.ports[c] in NodePorts(reg.ports, q.node);
    }
    var after := reg.(ports := reg.ports[claim := v]);
    forall c | c in after.ports ensures GoodPort(c, after.ports[c], pools, after.addresses) {
      assert c != claim ==> GoodPort(c, reg.ports[c], pools, reg.addresses);
    }
  }

  // ---- Which pools are safe ----

  predicate AvoidsLinkLocal(pool: Prefix) {
    !pool.Overlaps(Prefix(0xA9FE_0000, 16))
  }

  lemma Size16()
    ensures Size(16) == 0x1_0000
  {
    assert Size(32) == 1 && Size(31) == 2 && Size(30) == 4 && Size(29) == 8 && Size(28) == 16 && Size(27) == 32 && Size(26) == 64;
    assert Size(25) == 128 && Size(24) == 256 && Size(23) == 512 && Size(22) == 1024 && Size(21) == 2048 && Size(20) == 4096;
    assert Size(19) == 8192 && Size(18) == 16384 && Size(17) == 32768;
  }

  lemma LinkLocalBlock(a: Addr)
    ensures LinkLocal(a) <==> Prefix(0xA9FE_0000, 16).Contains(a)
  {
    Size16();
  }

  /** A legal pool that overlaps the link-local block contains all of it strictly inside. */
  lemma LinkLocalInside(pool: Prefix)
    requires SiteConfig.GoodNetwork(pool) && !AvoidsLinkLocal(pool)
    ensures pool.addr < 0xA9FE_0000 && 0xA9FE_FFFF < pool.Last()
  {
    var block := Prefix(0xA9FE_0000, 16);
    LinkLocalBlock(pool.addr);
    LinkLocalBlock(pool.Last());
    ContainsIsRange(pool, pool.addr);
    ContainsIsRange(pool, pool.Last());
    Size16();
    if pool.bits > 16 {
      Nested(block, pool, pool.addr);
    } else {
      Nested(pool, block, 0xA9FE_0000);
      Nested(pool, block, 0xA9FE_FFFF);
      ContainsIsRange(pool, 0xA9FE_0000);
      ContainsIsRange(pool, 0xA9FE_FFFF);
    }
  }

  /** Such pools are legal: 169.252.0.0/14 is one. */
  lemma LegalPoolWithLinkLocal()
    ensures var p := Prefix(0xA9FC_0000, 14);
      SiteConfig.GoodNetwork(p) && !AvoidsLinkLocal(p)
  {
    Size16();
    assert Size(15) == 0x2_0000 && Size(14) == 0x4_0000;
    var p := Prefix(0xA9FC_0000, 14);
    DivIs(0xA9FC_0000, 0x4_0000, 0x2A7F, 0);
    DivIs(0xA9FE_0000, 0x4_0000, 0x2A7F, 0x2_0000);
  }

  lemma CandidateAvoids(pool: Prefix, a: Addr)
    requires SiteConfig.GoodNetwork(pool) && Candidate(a, pool) && AvoidsLinkLocal(pool)
    ensures !LinkLocal(a)
  {
    ContainsIsRange(pool, a);
    LinkLocalBlock(a);
    if LinkLocal(a) {
      SharedOverlap(pool, Prefix(0xA9FE_0000, 16), a);
    }
  }

  /** The registry in which every address before the link-local block is held, under its own text. */
  ghost function Crowded(pool: Prefix): (reg: Registry)
    requires pool.addr < 0xA9FE_0000
  {
    var texts := set a: int | pool.addr < a < 0xA9FE_0000 :: AddrText(a);
    Registry(map t | t in texts :: t, map[])
  }

  lemma CrowdedMembers(pool: Prefix)
    requires pool.addr < 0xA9FE_0000
    ensures var reg := Crowded(pool);
      && reg.ports == map[] && (forall c :: c in reg.addresses ==> reg.addresses[c] == c)
      && (forall b: Addr :: pool.addr < b < 0xA9FE_0000 ==> AddrText(b) in reg.addresses)
      && (forall c :: c in reg.addresses ==> exists b: Addr :: pool.addr < b < 0xA9FE_0000 && AddrText(b) == c)
  {
    hide AddrText;
  }

  lemma EarlierHost(pool: Prefix, a: Addr)
    requires SiteConfig.GoodNetwork(pool) && !AvoidsLinkLocal(pool) && pool.addr < a < 0xA9FE_0000
    ensures GoodAddress(AddrText(a), AddrText(a), pool) && AddrText(a) != "k" && AddrText(a) != AddrText(0xA9FE_0000)
  {
    hide AddrText, SiteConfig.Host, SiteConfig.UsableHost, GlobalUnicast;
    LinkLocalInside(pool);
    CandidateHost(pool, a);
    HostText(pool, a);
    TextShape(a);
    if AddrText(a) == AddrText(0xA9FE_0000) {
      AddrTextInjective(a, 0xA9FE_0000);
    }
  }

  lemma CrowdedDecodable(pools: Pools)
    requires GoodPools(pools) && !AvoidsLinkLocal(pools.addresses)
    ensures pools.addresses.addr < 0xA9FE_0000
    ensures Decodable(Crowded(pools.addresses), pools) && "k" !in Crowded(pools.addresses).addresses
    ensures FirstFree(0xA9FE_0000, Values(Crowded(pools.addresses).addresses), pools.addresses)
  {
    var pool := pools.addresses;
    LinkLocalInside(pool);
    CrowdedMembers(pool);
    hide AddrText, SiteConfig.GoodNetwork, GoodAddress, Crowded, AvoidsLinkLocal;
    var reg := Crowded(pool);
    forall c | c in reg.addresses ensures GoodAddress(c, reg.addresses[c], pool) && c != "k" && c != AddrText(0xA9FE_0000) {
      var a: Addr :| pool.addr < a < 0xA9FE_0000 && AddrText(a) == c;
      EarlierHost(pool, a);
    }
    forall b: Addr | pool.addr < b < 0xA9FE_0000 ensures AddrText(b) in Values(reg.addresses) {
      assert AddrText(b) in reg.addresses && reg.addresses[AddrText(b)] == AddrText(b);
    }
  }

  lemma TextShape(a: Addr)
    ensures |AddrText(a)| >= 7
  {
    hide Octet, Digit;
  }

  /** Every allocation keeps every registry readable exactly for the pools that avoid 169.254.0.0/16, which the host rule
      rejects but the scan does not skip: otherwise a full enough registry gets a link-local address and can never be
      read again. */
  lemma PoolsThatStayReadable(pools: Pools)
    requires GoodPools(pools)
    ensures AvoidsLinkLocal(pools.addresses) <==>
            forall reg, q, r :: Decodable(reg, pools) && Allocates(reg, pools, q, r) && r.Ok? ==> Decodable(r.value, pools)
  {
    if AvoidsLinkLocal(pools.addresses) {
      forall reg, q, r | Decodable(reg, pools) && Allocates(reg, pools, q, r) && r.Ok?
        ensures Decodable(r.value, pools)
      {
        SafeAllocation(reg, pools, q, r);
      }
    } else {
      CrowdedDecodable(pools);
      var reg := Crowded(pools.addresses);
      var after := reg.(addresses := reg.addresses["k" := AddrText(0xA9FE_0000)]);
      hide AddrText, Crowded, GoodAddress, FirstFree, Values, Decodable;
      NotAllUsed(0xA9FE_0000, Values(reg.addresses), pools.addresses);
      assert AddressAdded(reg, pools, "k", after);
      assert Allocates(reg, pools, Address("k"), Ok(after));
      AddressDecodable(reg, pools, "k", 0xA9FE_0000);
      assert LinkLocal(0xA9FE_0000);
    }
  }

  lemma NotAllUsed(a: Addr, used: set<string>, pool: Prefix)
    requires FirstFree(a, used, pool)
    ensures !AllUsed(used, pool)
  {
    hide AddrText;
  }

  lemma SafeAllocation(reg: Registry, pools: Pools, q: Request, r: Result<Registry, Refusal>)
    requires AvoidsLinkLocal(pools.addresses) && Decodable(reg, pools) && Allocates(reg, pools, q, r) && r.Ok?
    ensures Decodable(r.value, pools)
  {
    hide AddrText, FirstFree, AllUsed, Values, NodePorts, AvoidsLinkLocal, GoodAddress, GoodPort, AllTaken;
    if r.value != reg {
      if q.Address? {
        var a: Addr :| FirstFree(a, Values(reg.addresses), pools.addresses) && r.value == reg.(addresses := reg.addresses[q.key := AddrText(a)]);
        FirstIsCandidate(a, Values(reg.addresses), pools.addresses);
        CandidateAvoids(pools.addresses, a);
        AddressDecodable(reg, pools, q.key, a);
      } else {
        var v :| && pools.portStart <= v <= pools.portEnd && v !in NodePorts(reg.ports, q.node)
                 && r.value == reg.(ports := reg.ports[PortClaim(q) := v])
                 && forall w :: pools.portStart <= w < v ==> w in NodePorts(reg.ports, q.node);
        PortDecodable(reg, pools, q, v);
      }
    }
  }

  lemma FirstIsCandidate(a: Addr, used: set<string>, pool: Prefix)
    requires FirstFree(a, used, pool)
    ensures Candidate(a, pool)
  {
  }

  // ---- Concurrent allocators ----

  /** One call: what it asks, and the version and content it last read. */
  datatype Call = Waiting(q: Request) | HasRead(q: Request, version: nat, reg: Registry) | Returned(q: Request, value: Registry) | Refused(why: Refusal)

  datatype System = System(stored: Registry, version: nat, calls: map<nat, Call>)

  /** A request begins, reads, or writes what it computed; a write that lost the race goes back to reading. */
  datatype Event = Begin(id: nat, q: Request) | Read(id: nat) | Write(id: nat, r: Result<Registry, Refusal>) | Stop(id: nat)

  ghost function Next(s: System, pools: Pools, e: Event): (t: System) {
    match e
    case Begin(id, q) => if id in s.calls then s else s.(calls := s.calls[id := Waiting(q)])
    case Read(id) => if id in s.calls && s.calls[id].Waiting? then s.(calls := s.calls[id := HasRead(s.calls[id].q, s.version, s.stored)]) else s
    case Write(id, r) =>
      if !(id in s.calls && s.calls[id].HasRead? && Allocates(s.calls[id].reg, pools, s.calls[id].q, r)) then s
      else if r.Err? then s.(calls := s.calls[id := Refused(r.error)])
      else if r.value == s.calls[id].reg then s.(calls := s.calls[id := Returned(s.calls[id].q, r.value)])
      else if s.version != s.calls[id].version then s.(calls := s.calls[id := Waiting(s.calls[id].q)])
      else System(r.value, s.version + 1, s.calls[id := Returned(s.calls[id].q, r.value)])
    case Stop(id) => s.(calls := s.calls - {id})
  }

  ghost function Run(start: Registry, pools: Pools, events: seq<Event>): (s: System) {
    if events == [] then System(start, 0, map[]) else Next(Run(start, pools, events[..|events| - 1]), pools, events[|events| - 1])
  }

  /** The value a returned call was given. */
  ghost predicate Holds(reg: Registry, q: Request, value: Registry) {
    if q.Address? then q.key in value.addresses && q.key in reg.addresses && reg.addresses[q.key] == value.addresses[q.key]
    else PortClaim(q) in value.ports && PortClaim(q) in reg.ports && reg.ports[PortClaim(q)] == value.ports[PortClaim(q)]
  }

  ghost predicate CallSound(s: System, c: Call) {
    && (c.HasRead? ==> c.version <= s.version && Extends(c.reg, s.stored) && (c.version == s.version ==> c.reg == s.stored))
    && (c.Returned? ==> Holds(s.stored, c.q, c.value))
  }

  ghost predicate Sound(s: System, pools: Pools) {
    Decodable(s.stored, pools) && forall id :: id in s.calls ==> CallSound(s, s.calls[id])
  }

  lemma NextSound(s: System, pools: Pools, e: Event)
    requires Sound(s, pools) && AvoidsLinkLocal(pools.addresses)
    ensures Sound(Next(s, pools, e), pools) && Extends(s.stored, Next(s, pools, e).stored)
  {
    hide Decodable, Allocates, AvoidsLinkLocal, Holds;
    if e.Write? && e.id in s.calls && s.calls[e.id].HasRead? && Allocates(s.calls[e.id].reg, pools, s.calls[e.id].q, e.r) && e.r.Ok? {
      var c := s.calls[e.id];
      assert CallSound(s, c);
      AllocationExtends(c.reg, pools, c.q, e.r);
      ValueHeld(e.r.value, c.q);
      if e.r.value == c.reg {
        HoldsOn(c.reg, s.stored, c.q, e.r.value);
      }
      if c.version == s.version {
        SafeAllocation(s.stored, pools, c.q, e.r);
      }
    }
    var t := Next(s, pools, e);
    assert Extends(s.stored, t.stored);
    forall id | id in t.calls && id in s.calls && t.calls[id] == s.calls[id] ensures CallSound(t, t.calls[id]) {
      CallOn(s, t, s.calls[id]);
    }
  }

  lemma ValueHeld(reg: Registry, q: Request)
    requires if q.Address? then q.key in reg.addresses else PortClaim(q) in reg.ports
    ensures Holds(reg, q, reg)
  {
  }

  lemma HoldsOn(a: Registry, b: Registry, q: Request, value: Registry)
    requires Holds(a, q, value) && Extends(a, b)
    ensures Holds(b, q, value)
  {
  }

  lemma CallOn(s: System, t: System, c: Call)
    requires CallSound(s, c) && Extends(s.stored, t.stored) && s.version <= t.version && (s.version == t.version ==> s.stored == t.stored)
    ensures CallSound(t, c)
  {
    if c.Returned? {
      HoldsOn(s.stored, t.stored, c.q, c.value);
    }
  }

  /** Over every interleaving of allocators with lost races and stops at any point, the stored registry stays readable, no
      claim is ever changed or dropped, and what a call returned stays recorded for its claim. */
  lemma {:induction false} RegistryStaysSound(start: Registry, pools: Pools, events: seq<Event>)
    requires Decodable(start, pools) && AvoidsLinkLocal(pools.addresses)
    ensures Sound(Run(start, pools, events), pools) && Extends(start, Run(start, pools, events).stored)
  {
    hide Decodable, AvoidsLinkLocal;
    if events != [] {
      RegistryStaysSound(start, pools, events[..|events| - 1]);
      NextSound(Run(start, pools, events[..|events| - 1]), pools, events[|events| - 1]);
    }
  }
}
