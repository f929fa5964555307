/** What the site's address ledger accepts and hands out, and what each request of a call does, in prefixes, addresses and records
    (internal/localcontroller/allocation.go). */
module LedgerMeaning {
  import opened Wrappers
  import opened Ipv4
  import opened SiteLedger
  import opened LedgerRuns
  import SiteConfig
  import GatewayRegistry
  import RegistryMeaning
  import AdmissionMeaning
  import SnapshotMeaning

  // ---- What is accepted ----

  predicate PlainPool(p: Prefix) {
    && 8 <= p.bits <= 30 && p.addr % Size(p.bits) == 0 && GlobalUnicast(p.addr)
    && p.addr + Size(p.bits) - 1 < SPACE && GlobalUnicast(p.addr + Size(p.bits) - 1)
  }

  lemma PoolMeans(p: Prefix)
    ensures SiteConfig.GoodNetwork(p) <==> PlainPool(p)
  {
    hide GlobalUnicast, Size;
    if p.addr % Size(p.bits) == 0 {
      RegistryMeaning.LastAddress(p);
    }
  }

  lemma ConfigMeans(cfg: Config)
    ensures GoodConfig(cfg) <==> PlainPool(cfg.transit) && PlainPool(cfg.sources) && 16 <= cfg.length <= 29 && cfg.transit.bits <= cfg.length
  {
    hide SiteConfig.GoodNetwork, PlainPool;
    PoolMeans(cfg.transit);
    PoolMeans(cfg.sources);
  }

  /** A block of the configured length inside the transit pool, the address after its first as router, and a usable host of the
      source pool. */
  ghost predicate PlainAllocation(a: Allocation, cfg: Config) {
    && (exists p: Prefix ::
          && SnapshotMeaning.PlainNetwork(a.transit, p) && p.bits == cfg.length && AdmissionMeaning.Inside(p, cfg.transit)
          && p.addr + 1 < SPACE && a.router == AddrText(p.addr + 1))
    && exists x: Addr :: a.source == AddrText(x) && RegistryMeaning.PlainHost(x, cfg.sources)
  }

  lemma InsideMeans(p: Prefix, pool: Prefix)
    requires p.addr % Size(p.bits) == 0 && pool.addr % Size(pool.bits) == 0
    ensures Inside(p, pool) <==> AdmissionMeaning.Inside(p, pool)
  {
    hide Size;
    RegistryMeaning.LastAddress(p);
    forall a: Addr ensures (p.Contains(a) <==> p.addr <= a <= p.Last()) && (pool.Contains(a) <==> pool.Network() <= a <= pool.Last()) {
      PrefixRange(p, a);
      PrefixRange(pool, a);
    }
    assert p.Contains(p.addr) && p.Contains(p.Last()) by {
      PrefixRange(p, p.addr);
      PrefixRange(p, p.Last());
    }
  }

  lemma AllocationMeans(a: Allocation, cfg: Config)
    requires GoodConfig(cfg)
    ensures GoodAllocation(a, cfg) <==> PlainAllocation(a, cfg)
  {
    hide AddrText, SiteConfig.Network, SiteConfig.Host, RegistryMeaning.PlainHost, SnapshotMeaning.PlainNetwork, Inside, AdmissionMeaning.Inside, Size;
    RegistryMeaning.HostMeans(a.source, cfg.sources);
    if SiteConfig.Network(a.transit).Some? {
      var p := SiteConfig.Network(a.transit).value;
      SnapshotMeaning.NetworkMeans(a.transit, p);
      InsideMeans(p, cfg.transit);
    }
    forall p: Prefix | SnapshotMeaning.PlainNetwork(a.transit, p)
      ensures SiteConfig.Network(a.transit) == Some(p) && (Inside(p, cfg.transit) <==> AdmissionMeaning.Inside(p, cfg.transit))
    {
      SnapshotMeaning.NetworkMeans(a.transit, p);
      InsideMeans(p, cfg.transit);
    }
  }

  /** A ledger is readable exactly when owners and bindings match one to one, every owner holds a good allocation for a binding, and
      no two owners share a block, a source address or a binding. */
  lemma ReadableMeans(l: Ledger, cfg: Config)
    requires GoodConfig(cfg)
    ensures Readable(l, cfg) <==>
            && (forall o :: o in l.allocations <==> o in l.bindings)
            && (forall o :: o in l.allocations && o in l.bindings ==> o != "" && l.bindings[o] != "" && PlainAllocation(l.allocations[o], cfg))
            && forall o, q :: o in l.allocations && q in l.allocations && o in l.bindings && q in l.bindings && o != q ==>
                 && l.allocations[o].transit != l.allocations[q].transit && l.allocations[o].source != l.allocations[q].source
                 && l.bindings[o] != l.bindings[q]
  {
    hide GoodAllocation, PlainAllocation, GoodConfig;
    forall a: Allocation ensures GoodAllocation(a, cfg) <==> PlainAllocation(a, cfg) {
      AllocationMeans(a, cfg);
    }
  }

  // ---- What is handed out ----

  /** The i-th block of the pool. */
  predicate NthBlock(cfg: Config, i: nat, p: Prefix) {
    p.bits == cfg.length && p.addr == cfg.transit.addr + i * Size(p.bits) && i * Size(p.bits) < Size(cfg.transit.bits)
  }

  ghost predicate HeldBlock(l: Ledger, p: Prefix) {
    exists o :: o in l.allocations && l.allocations[o].transit == PrefixText(p)
  }

  ghost predicate HeldSource(l: Ledger, a: Addr) {
    exists o :: o in l.allocations && l.allocations[o].source == AddrText(a)
  }

  ghost predicate FirstFreeBlock(l: Ledger, cfg: Config, p: Prefix) {
    !HeldBlock(l, p) && exists i: nat :: NthBlock(cfg, i, p) && forall j: nat, q: Prefix :: j < i && NthBlock(cfg, j, q) ==> HeldBlock(l, q)
  }

  ghost predicate AllBlocksHeld(l: Ledger, cfg: Config) {
    forall j: nat, q: Prefix :: NthBlock(cfg, j, q) ==> HeldBlock(l, q)
  }

  ghost predicate FirstFreeSource(l: Ledger, cfg: Config, a: Addr) {
    && RegistryMeaning.Between(a, cfg.sources) && !HeldSource(l, a)
    && forall b: Addr :: RegistryMeaning.Between(b, cfg.sources) && b < a ==> HeldSource(l, b)
  }

  ghost predicate AllSourcesHeld(l: Ledger, cfg: Config) {
    forall a: Addr :: RegistryMeaning.Between(a, cfg.sources) ==> HeldSource(l, a)
  }

  lemma BlocksMean(cfg: Config, i: nat, p: Prefix)
    requires GoodConfig(cfg)
    ensures NthBlock(cfg, i, p) <==> i * Size(cfg.length) < Size(cfg.transit.bits) && p == BlockAt(cfg, i)
  {
    hide Size;
  }

  lemma HeldMeans(l: Ledger)
    ensures forall p: Prefix :: PrefixText(p) in Transits(l) <==> HeldBlock(l, p)
    ensures forall a: Addr :: AddrText(a) in Sources(l) <==> HeldSource(l, a)
  {
    hide PrefixText, AddrText;
  }

  lemma FirstBlockMeans(l: Ledger, cfg: Config)
    requires GoodConfig(cfg)
    ensures forall p: Prefix :: FirstBlock(p, Transits(l), cfg) <==> FirstFreeBlock(l, cfg, p)
    ensures BlocksUsed(Transits(l), cfg) <==> AllBlocksHeld(l, cfg)
  {
    hide PrefixText, Size, HeldBlock, Transits, NthBlock, SiteConfig.GoodNetwork;
    HeldMeans(l);
    forall i: nat, p: Prefix ensures NthBlock(cfg, i, p) <==> i * Size(cfg.length) < Size(cfg.transit.bits) && p == BlockAt(cfg, i) {
      BlocksMean(cfg, i, p);
    }
    forall i: nat | i * Size(cfg.length) < Size(cfg.transit.bits) ensures NthBlock(cfg, i, BlockAt(cfg, i)) {
    }
    forall p: Prefix ensures FirstBlock(p, Transits(l), cfg) <==> FirstFreeBlock(l, cfg, p) {
      if FirstBlock(p, Transits(l), cfg) {
        var i: nat :| i * Size(cfg.length) < Size(cfg.transit.bits) && BlockAt(cfg, i) == p
          && forall j: nat :: j < i && j * Size(cfg.length) < Size(cfg.transit.bits) ==> PrefixText(BlockAt(cfg, j)) in Transits(l);
        assert NthBlock(cfg, i, p);
      }
      if FirstFreeBlock(l, cfg, p) {
        var i: nat :| NthBlock(cfg, i, p) && forall j: nat, q: Prefix :: j < i && NthBlock(cfg, j, q) ==> HeldBlock(l, q);
        assert forall j: nat :: j < i && j * Size(cfg.length) < Size(cfg.transit.bits) ==> NthBlock(cfg, j, BlockAt(cfg, j));
      }
    }
  }

  lemma SourcesMean(l: Ledger, cfg: Config)
    requires GoodConfig(cfg)
    ensures forall a: Addr :: GatewayRegistry.FirstFree(a, Sources(l), cfg.sources) <==> FirstFreeSource(l, cfg, a)
    ensures GatewayRegistry.AllUsed(Sources(l), cfg.sources) <==> AllSourcesHeld(l, cfg)
  {
    hide AddrText, Size, HeldSource, Sources, GatewayRegistry.Candidate, RegistryMeaning.Between;
    HeldMeans(l);
    forall a: Addr ensures GatewayRegistry.Candidate(a, cfg.sources) <==> RegistryMeaning.Between(a, cfg.sources) {
      RegistryMeaning.CandidatesMean(GatewayRegistry.Pools(cfg.sources, 1024, 1024), a);
    }
    forall a: Addr | GatewayRegistry.Candidate(a, cfg.sources)
      ensures forall b: Addr :: b < a ==> (GatewayRegistry.Candidate(b, cfg.sources) <==> cfg.sources.addr < b)
    {
      RegistryMeaning.BelowCandidate(a, cfg.sources);
    }
  }

  /** The pair recorded under the source and its binding, everything else as before. */
  predicate GivenPair(l: Ledger, owner: string, uid: string, p: Prefix, a: Addr, r: Result<Ledger, Refusal>) {
    && r.Ok? && r.value.bindings == l.bindings[owner := uid] && owner in r.value.allocations
    && r.value.allocations == l.allocations[owner := r.value.allocations[owner]]
    && r.value.allocations[owner].transit == PrefixText(p) && r.value.allocations[owner].source == AddrText(a)
    && p.addr + 1 < SPACE && r.value.allocations[owner].router == AddrText(p.addr + 1)
  }

  lemma GivenMeans(l: Ledger, cfg: Config, owner: string, uid: string, p: Prefix, a: Addr, r: Result<Ledger, Refusal>)
    requires GoodConfig(cfg) && FirstBlock(p, Transits(l), cfg)
    ensures r == Ok(Added(l, owner, uid, Made(p, a))) <==> GivenPair(l, owner, uid, p, a, r)
  {
    hide PrefixText, AddrText, Size, Transits;
    BlockLegal(cfg, p);
    hide GoodConfig;
    if GivenPair(l, owner, uid, p, a, r) {
      assert r.value.allocations[owner] == Made(p, a);
    }
  }

  /** A source that holds an allocation gets it back for its own binding only, a binding already used is refused, and a new source
      gets the first free block, the router's address in it and the first free source address; it is refused exactly when one of
      the pools is used up. */
  lemma AllocatesMeans(l: Ledger, cfg: Config, owner: string, uid: string, r: Result<Ledger, Refusal>)
    requires GoodConfig(cfg)
    ensures Allocates(l, cfg, owner, uid, r) <==>
            if owner in l.allocations then r == if owner in l.bindings && l.bindings[owner] == uid then Ok(l) else Err(BindingChanged)
            else if exists o :: o in l.bindings && l.bindings[o] == uid then r == Err(SourceChanged)
            else if AllBlocksHeld(l, cfg) || AllSourcesHeld(l, cfg) then r == Err(Exhausted)
            else exists p: Prefix, a: Addr :: FirstFreeBlock(l, cfg, p) && FirstFreeSource(l, cfg, a) && GivenPair(l, owner, uid, p, a, r)
  {
    hide PrefixText, AddrText, Size, GoodConfig, FirstFreeBlock, FirstFreeSource, FirstBlock, BlocksUsed, Transits, Sources, AllBlocksHeld, AllSourcesHeld,
      GatewayRegistry.FirstFree, GatewayRegistry.AllUsed, GivenPair, Made, Added;
    FirstBlockMeans(l, cfg);
    SourcesMean(l, cfg);
    forall p: Prefix, a: Addr | FirstBlock(p, Transits(l), cfg) ensures r == Ok(Added(l, owner, uid, Made(p, a))) <==> GivenPair(l, owner, uid, p, a, r) {
      GivenMeans(l, cfg, owner, uid, p, a, r);
    }
    if r.Ok? {
      if p: Prefix, a: Addr :| FirstFreeBlock(l, cfg, p) && FirstFreeSource(l, cfg, a) && GivenPair(l, owner, uid, p, a, r) {
        assert Fresh(l, cfg, Made(p, a));
      }
    }
  }

  // ---- What the requests of a call do ----

  /** Bindings come once per identity and without a receipt; calls begin for a binding that exists. */
  lemma BindingsMean(s: System, cfg: Config, uid: string, owner: string, id: nat)
    requires GoodConfig(cfg)
    ensures Next(s, cfg, Bind(uid, owner)) ==
            if uid == "" || owner == "" || uid in s.born then s
            else System(s.stored, s.identity, s.bindings[uid := Binding(owner, None)], s.born + {uid}, s.calls, s.clock)
    ensures Next(s, cfg, Unbind(uid)) == System(s.stored, s.identity, s.bindings - {uid}, s.born, s.calls, s.clock)
    ensures Next(s, cfg, Begin(id, uid)) ==
            if id in s.calls || uid !in s.bindings then s
            else System(s.stored, s.identity, s.bindings, s.born, s.calls[id := Begun(uid, s.bindings[uid].owner)], s.clock)
    ensures Next(s, cfg, Stop(id)) == System(s.stored, s.identity, s.bindings, s.born, s.calls - {id}, s.clock)
  {
  }

  /** The readings: the bindings, with the call's own unchanged among them; the identity; the ledger, which may be missing only when
      nothing shows that there ever was one. */
  lemma ReadingsMean(s: System, cfg: Config, id: nat, uid: string, owner: string, seen: map<string, Binding>, identity: Option<nat>)
    requires GoodConfig(cfg)
    ensures Step(s, cfg, List(id), Begun(uid, owner)) ==
            (s, if uid in s.bindings && s.bindings[uid].owner == owner then Listed(uid, owner, s.bindings) else Refused)
    ensures Step(s, cfg, GetIdentity(id), Listed(uid, owner, seen)) == (s, Identified(uid, owner, seen, s.identity))
    ensures Step(s, cfg, GetLedger(id), Identified(uid, owner, seen, identity)) ==
            (s, if s.stored.Some? then Loaded(uid, owner, seen, identity, s.stored.value)
                else if identity.Some? || exists u :: u in seen && seen[u].receipt.Some? then Refused else Creating(uid, owner, seen))
  {
  }

  lemma CreationMeans(s: System, cfg: Config, id: nat, uid: string, owner: string, seen: map<string, Binding>)
    requires GoodConfig(cfg)
    ensures var (t, c) := Step(s, cfg, CreateLedger(id), Creating(uid, owner, seen));
      if s.stored.Some? then (t, c) == (s, Refused)
      else
        var st := Stored(s.clock, s.clock, Ledger(map[], map[]));
        t == s.(stored := Some(st), clock := s.clock + 1) && c == Loaded(uid, owner, seen, None, st)
  {
  }

  /** Every receipt seen names its own source, this ledger, and what the ledger holds for both. */
  ghost predicate ReceiptsMatch(seen: map<string, Binding>, st: Stored) {
    forall u :: u in seen && seen[u].receipt.Some? ==>
      var r := seen[u].receipt.value;
      && r.owner == seen[u].owner && r.ledgerUid == st.uid
      && r.owner in st.ledger.allocations && st.ledger.allocations[r.owner] == r.allocation
      && r.owner in st.ledger.bindings && st.ledger.bindings[r.owner] == u
  }

  /** The check goes on exactly for a readable ledger all receipts match, under the identity read, or under none when the ledger is
      empty, no receipt was seen and none has been recorded meanwhile, in which case it is recorded. */
  lemma CheckMeans(s: System, cfg: Config, id: nat, uid: string, owner: string, seen: map<string, Binding>, identity: Option<nat>, st: Stored)
    requires GoodConfig(cfg)
    ensures var (t, c) := Step(s, cfg, Check(id), Loaded(uid, owner, seen, identity, st));
      var fits := Readable(st.ledger, cfg) && ReceiptsMatch(seen, st);
      var first := identity.None? && st.ledger.allocations == map[] && s.identity.None? && forall u :: u in seen ==> seen[u].receipt.None?;
      && (c == HasRead(uid, owner, st) <==> fits && (identity == Some(st.uid) || first))
      && (c == Refused <==> !(fits && (identity == Some(st.uid) || first)))
      && t == if fits && first then s.(identity := Some(st.uid)) else s
  {
    hide Readable;
  }

  /** A reservation is a compare-and-swap on the ledger's version. */
  lemma ReservationMeans(s: System, cfg: Config, id: nat, uid: string, owner: string, st: Stored, r: Result<Ledger, Refusal>)
    requires GoodConfig(cfg) && Allocates(st.ledger, cfg, owner, uid, r)
    ensures var (t, c) := Step(s, cfg, Reserve(id, r), HasRead(uid, owner, st));
      && (r.Err? ==> t == s && c == Refused)
      && (r.Ok? ==>
            && owner in r.value.allocations
            && var stale := r.value != st.ledger && (s.stored.None? || s.stored.value.version != st.version);
            && c == (if stale then Refused else Committed(uid, owner, st.uid, r.value.allocations[owner]))
            && t == if stale || r.value == st.ledger then s else s.(stored := Some(Stored(st.uid, s.clock, r.value)), clock := s.clock + 1))
  {
    hide Allocates, GoodConfig;
    if r.Ok? {
      KeptReservation(st.ledger, cfg, owner, uid, r);
    }
  }

  /** The receipt is written once, on a binding that is still there; the call then returns its allocation. */
  lemma SigningMeans(s: System, cfg: Config, id: nat, uid: string, owner: string, ledgerUid: nat, a: Allocation)
    requires GoodConfig(cfg)
    ensures var (t, c) := Step(s, cfg, Sign(id), Committed(uid, owner, ledgerUid, a));
      if uid !in s.bindings then t == s && c == Refused
      else
        && c == Returned(uid, owner, a)
        && t == s.(bindings := s.bindings[uid := Binding(s.bindings[uid].owner,
                     if s.bindings[uid].receipt.Some? then s.bindings[uid].receipt else Some(Receipt(owner, ledgerUid, a)))])
  {
  }

  /** A request moves its own call only. */
  lemma EventMeans(s: System, cfg: Config, e: Event)
    requires GoodConfig(cfg) && !e.Bind? && !e.Unbind? && !e.Begin? && !e.Stop?
    ensures var t := Next(s, cfg, e);
      if e.id !in s.calls then t == s
      else
        var r := Step(s, cfg, e, s.calls[e.id]);
        t == System(r.0.stored, r.0.identity, r.0.bindings, r.0.born, r.0.calls[e.id := r.1], r.0.clock)
  {
    hide Step;
  }
}
