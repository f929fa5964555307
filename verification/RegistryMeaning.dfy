/** What the gateway registry accepts and hands out, in addresses, ports and claims (internal/managedgateway/registry.go). */
module RegistryMeaning {
  import opened Wrappers
  import opened Ipv4
  import opened GatewayRegistry
  import SiteConfig
  import SnapshotMeaning

  // ---- What is accepted ----

  /** A canonical network of length 8 to 30 between unicast addresses, and unprivileged ports. */
  predicate PlainPools(pools: Pools) {
    && 8 <= pools.addresses.bits <= 30 && pools.addresses.addr % Size(pools.addresses.bits) == 0 && GlobalUnicast(pools.addresses.addr)
    && pools.addresses.addr + Size(pools.addresses.bits) - 1 < SPACE && GlobalUnicast(pools.addresses.addr + Size(pools.addresses.bits) - 1)
    && 1024 <= pools.portStart && pools.portStart <= pools.portEnd && pools.portEnd <= 65535
  }

  lemma LastAddress(p: Prefix)
    requires p.addr % Size(p.bits) == 0
    ensures p.Last() == p.addr + Size(p.bits) - 1 && p.Network() == p.addr
  {
    hide Size;
    PrefixRange(p, p.addr);
  }

  lemma PoolsMean(pools: Pools)
    ensures GoodPools(pools) <==> PlainPools(pools)
  {
    hide GlobalUnicast, Size;
    if pools.addresses.addr % Size(pools.addresses.bits) == 0 {
      LastAddress(pools.addresses);
    }
  }

  /** A unicast address of the pool, neither its first nor its last. */
  predicate PlainHost(a: Addr, pool: Prefix) {
    pool.addr < a < pool.addr + Size(pool.bits) - 1 && GlobalUnicast(a)
  }

  lemma HostMeans(text: string, pool: Prefix)
    requires pool.addr % Size(pool.bits) == 0
    ensures SiteConfig.Host(text, pool).Some? <==> exists a: Addr :: text == AddrText(a) && PlainHost(a, pool)
  {
    hide AddrText, GlobalUnicast, Size, SiteConfig.Host;
    LastAddress(pool);
    forall a: Addr ensures SiteConfig.UsableHost(a, pool) <==> PlainHost(a, pool) {
      PrefixRange(pool, a);
    }
  }

  /** A port claim is a node's name, a separator, and the key of an address that is held. */
  ghost predicate PlainPort(claim: string, port: int, pools: Pools, addresses: map<string, string>) {
    && pools.portStart <= port <= pools.portEnd
    && exists node, key :: claim == node + ("/" + key) && '/' !in node && node != "" && key != "" && key in addresses && addresses[key] != ""
  }

  lemma PortMeans(claim: string, port: int, pools: Pools, addresses: map<string, string>)
    ensures GoodPort(claim, port, pools, addresses) <==> PlainPort(claim, port, pools, addresses)
  {
    hide NodeOf, KeyOf;
    if '/' in claim {
      ClaimParts(claim);
    }
    forall node: string, key: string | claim == node + ("/" + key) && '/' !in node
      ensures NodeOf(claim) == node && KeyOf(claim) == key && '/' in claim
    {
      PortClaimParts(node, key);
    }
  }

  lemma ClaimParts(claim: string)
    requires '/' in claim
    ensures claim == NodeOf(claim) + ("/" + KeyOf(claim)) && '/' !in NodeOf(claim)
  {
    hide Before;
    BeforeIsPrefix(claim);
    assert claim == NodeOf(claim) + ("/" + claim[|NodeOf(claim)| + 1..]);
  }

  /** Two ports of one node. */
  ghost predicate OnOneNode(c: string, d: string) {
    exists node :: '/' !in node && node + "/" <= c && node + "/" <= d
  }

  lemma NodesMean(c: string, d: string)
    requires '/' in c && '/' in d
    ensures NodeOf(c) == NodeOf(d) <==> OnOneNode(c, d)
  {
    hide NodeOf;
    BeforeIsPrefix(c);
    BeforeIsPrefix(d);
    forall node: string | '/' !in node ensures (node + "/" <= c <==> NodeOf(c) == node) && (node + "/" <= d <==> NodeOf(d) == node) {
      PrefixIsNode(node, c);
      PrefixIsNode(node, d);
    }
  }

  /** A registry is readable exactly for legal pools when every address is a usable host of the pool under a non-empty claim, no
      two claims hold the same one, every port claim is legal, and no two on one node hold the same port. */
  lemma DecodableMeans(reg: Registry, pools: Pools)
    ensures Decodable(reg, pools) <==>
            && PlainPools(pools)
            && (forall c :: c in reg.addresses ==> c != "" && exists a: Addr :: reg.addresses[c] == AddrText(a) && PlainHost(a, pools.addresses))
            && (forall c, d :: c in reg.addresses && d in reg.addresses && c != d ==> reg.addresses[c] != reg.addresses[d])
            && (forall c :: c in reg.ports ==> PlainPort(c, reg.ports[c], pools, reg.addresses))
            && (forall c, d :: c in reg.ports && d in reg.ports && c != d && OnOneNode(c, d) ==> reg.ports[c] != reg.ports[d])
  {
    hide PlainPort, PlainHost, NodeOf, KeyOf, AddrText, SiteConfig.Host, OnOneNode, GlobalUnicast, Size, PlainPools, GoodPools, GoodPort, GoodAddress;
    PoolsMean(pools);
    forall c | c in reg.ports ensures GoodPort(c, reg.ports[c], pools, reg.addresses) <==> PlainPort(c, reg.ports[c], pools, reg.addresses) {
      PortMeans(c, reg.ports[c], pools, reg.addresses);
    }
    if GoodPools(pools) {
      PoolAligned(pools);
      forall c | c in reg.addresses
        ensures GoodAddress(c, reg.addresses[c], pools.addresses) <==>
                c != "" && exists a: Addr :: reg.addresses[c] == AddrText(a) && PlainHost(a, pools.addresses)
      {
        AddressMeans(c, reg.addresses[c], pools.addresses);
      }
    }
    if forall c :: c in reg.ports ==> GoodPort(c, reg.ports[c], pools, reg.addresses) {
      forall c, d | c in reg.ports && d in reg.ports ensures NodeOf(c) == NodeOf(d) <==> OnOneNode(c, d) {
        PortSeparated(c, reg.ports[c], pools, reg.addresses);
        PortSeparated(d, reg.ports[d], pools, reg.addresses);
        NodesMean(c, d);
      }
    }
  }

  lemma PoolAligned(pools: Pools)
    requires GoodPools(pools)
    ensures pools.addresses.addr % Size(pools.addresses.bits) == 0
  {
  }

  lemma AddressMeans(claim: string, text: string, pool: Prefix)
    requires pool.addr % Size(pool.bits) == 0
    ensures GoodAddress(claim, text, pool) <==> claim != "" && exists a: Addr :: text == AddrText(a) && PlainHost(a, pool)
  {
    HostMeans(text, pool);
  }

  lemma PortSeparated(claim: string, port: int, pools: Pools, addresses: map<string, string>)
    requires GoodPort(claim, port, pools, addresses)
    ensures '/' in claim
  {
  }

  // ---- What is handed out ----

  ghost predicate HeldAddress(reg: Registry, a: Addr) {
    exists c :: c in reg.addresses && reg.addresses[c] == AddrText(a)
  }

  ghost predicate HeldPort(reg: Registry, node: string, v: int) {
    exists c :: c in reg.ports && node + "/" <= c && reg.ports[c] == v
  }

  predicate Between(a: Addr, pool: Prefix) {
    pool.addr < a < pool.addr + Size(pool.bits) - 1
  }

  lemma HeldMeans(reg: Registry, node: string)
    ensures forall a: Addr :: AddrText(a) in Values(reg.addresses) <==> HeldAddress(reg, a)
    ensures forall v :: v in NodePorts(reg.ports, node) <==> HeldPort(reg, node, v)
  {
    hide AddrText;
  }

  lemma CandidatesMean(pools: Pools, a: Addr)
    requires GoodPools(pools)
    ensures Candidate(a, pools.addresses) <==> Between(a, pools.addresses)
  {
    hide Size, GlobalUnicast;
    PoolAligned(pools);
    LastAddress(pools.addresses);
  }

  /** A claim with an address keeps it; a new one gets the lowest address strictly between the pool's ends that no claim holds, and
      is refused exactly when all of them are held. */
  lemma AddressesMean(reg: Registry, pools: Pools, key: string, r: Result<Registry, Refusal>)
    requires GoodPools(pools)
    ensures Allocates(reg, pools, Address(key), r) <==>
            if key == "" then r == Err(Invalid)
            else if key in reg.addresses then r == Ok(reg)
            else if forall a: Addr :: Between(a, pools.addresses) ==> HeldAddress(reg, a) then r == Err(Exhausted)
            else exists a: Addr ::
              && Between(a, pools.addresses) && !HeldAddress(reg, a) && (forall b: Addr :: Between(b, pools.addresses) && b < a ==> HeldAddress(reg, b))
              && r == Ok(Registry(reg.addresses[key := AddrText(a)], reg.ports))
  {
    hide AddrText, Values, HeldAddress, Size, SiteConfig.GoodNetwork, Candidate, Between;
    HeldMeans(reg, "");
    var pool, used := pools.addresses, Values(reg.addresses);
    forall a: Addr ensures Candidate(a, pool) <==> Between(a, pool) {
      CandidatesMean(pools, a);
    }
    forall a: Addr
      ensures FirstFree(a, used, pool) <==> Between(a, pool) && !HeldAddress(reg, a) && forall b: Addr :: Between(b, pool) && b < a ==> HeldAddress(reg, b)
    {
      if Candidate(a, pool) {
        BelowCandidate(a, pool);
      }
    }
    hide FirstFree;
    if r.Ok? && AddressAdded(reg, pools, key, r.value) {
      var a: Addr :| FirstFree(a, used, pool) && r.value == reg.(addresses := reg.addresses[key := AddrText(a)]);
    }
  }

  lemma BelowCandidate(a: Addr, pool: Prefix)
    requires Candidate(a, pool)
    ensures forall b: Addr :: b < a ==> (Candidate(b, pool) <==> pool.addr < b)
  {
  }

  /** A port is handed out only to a claim that has an address: one already held on the node stays, a new one is the lowest of the
      range no claim of the node holds, and it is refused exactly when all of them are held. */
  lemma PortsMean(reg: Registry, pools: Pools, key: string, node: string, r: Result<Registry, Refusal>)
    ensures var claim := node + ("/" + key); var from, to := pools.portStart, pools.portEnd;
      Allocates(reg, pools, Port(key, node), r) <==>
        if key == "" || node == "" || '/' in node then r == Err(Invalid)
        else if key !in reg.addresses || reg.addresses[key] == "" then r == Err(NoAddress)
        else if claim in reg.ports then r == Ok(reg)
        else if forall v :: from <= v <= to ==> HeldPort(reg, node, v) then r == Err(Exhausted)
        else exists v ::
          && from <= v <= to && !HeldPort(reg, node, v) && (forall w :: from <= w < v ==> HeldPort(reg, node, w))
          && r == Ok(Registry(reg.addresses, reg.ports[claim := v]))
  {
    hide NodePorts, HeldPort;
    HeldMeans(reg, node);
  }

  // ---- Concurrent calls ----

  /** Calls begin once and read the stored registry with its version. */
  lemma CallsMean(s: System, pools: Pools, id: nat, q: Request)
    ensures Next(s, pools, Begin(id, q)) == if id in s.calls then s else System(s.stored, s.version, s.calls[id := Waiting(q)])
    ensures Next(s, pools, Read(id)) ==
            if id in s.calls && s.calls[id].Waiting? then System(s.stored, s.version, s.calls[id := HasRead(s.calls[id].q, s.version, s.stored)]) else s
    ensures Next(s, pools, Stop(id)) == System(s.stored, s.version, s.calls - {id})
  {
  }

  /** A write of what was computed from what was read: nothing to write returns, a lost race reads again, and otherwise the stored
      registry is replaced under the next version. */
  lemma WritesMean(s: System, pools: Pools, id: nat, r: Result<Registry, Refusal>)
    ensures var t := Next(s, pools, Write(id, r));
      if id !in s.calls || !s.calls[id].HasRead? || !Allocates(s.calls[id].reg, pools, s.calls[id].q, r) then t == s
      else
        var c := s.calls[id];
        && (r.Err? ==> t == System(s.stored, s.version, s.calls[id := Refused(r.error)]))
        && (r.Ok? && r.value == c.reg ==> t == System(s.stored, s.version, s.calls[id := Returned(c.q, r.value)]))
        && (r.Ok? && r.value != c.reg && s.version != c.version ==> t == System(s.stored, s.version, s.calls[id := Waiting(c.q)]))
        && (r.Ok? && r.value != c.reg && s.version == c.version ==> t == System(r.value, s.version + 1, s.calls[id := Returned(c.q, r.value)]))
  {
    hide Allocates;
  }
}
