/** The location's retained transit and BFD address ledger (internal/localcontroller/allocation.go). */
module SiteLedger {
  import opened Wrappers
  import opened Ipv4
  import SiteConfig
  import GatewayRegistry

  datatype Allocation = Allocation(transit: string, router: string, source: string)

  /** Allocations by source UID, and the local binding each was made for. */
  datatype Ledger = Ledger(allocations: map<string, Allocation>, bindings: map<string, string>)

  datatype Config = Config(transit: Prefix, length: int, sources: Prefix)

  datatype Refusal = Corrupt | IdentityChanged | BindingChanged | SourceChanged | Exhausted

  predicate GoodConfig(cfg: Config) {
    && SiteConfig.GoodNetwork(cfg.transit) && SiteConfig.GoodNetwork(cfg.sources)
    && 16 <= cfg.length <= 29 && cfg.transit.bits <= cfg.length
  }

  // ---- What a stored ledger must satisfy ----

  predicate Inside(p: Prefix, pool: Prefix) {
    pool.Contains(p.addr) && pool.Contains(p.Last())
  }

  predicate GoodAllocation(a: Allocation, cfg: Config) {
    var p := SiteConfig.Network(a.transit);
    && p.Some? && p.value.bits == cfg.length && Inside(p.value, cfg.transit)
    && p.value.addr + 1 < SPACE && a.router == AddrText(p.value.addr + 1)
    && SiteConfig.Host(a.source, cfg.sources).Some?
  }

  ghost predicate Apart(a: Allocation, b: Allocation) {
    a.transit != b.transit && a.source != b.source
  }

  /** Every owner holds a good allocation for a binding of its own, and no two share anything. */
  ghost predicate Readable(l: Ledger, cfg: Config) {
    l.allocations.Keys == l.bindings.Keys && Checked(l, cfg, l.allocations.Keys)
  }

  /** What the owners checked so far occupy. */
  function TransitsOf(l: Ledger, done: set<string>): (t: set<string>) {
    set o | o in done && o in l.allocations :: l.allocations[o].transit
  }

  function SourcesOf(l: Ledger, done: set<string>): (t: set<string>) {
    set o | o in done && o in l.allocations :: l.allocations[o].source
  }

  function UidsOf(l: Ledger, done: set<string>): (t: set<string>) {
    set o | o in done && o in l.bindings :: l.bindings[o]
  }

  predicate GoodOwner(l: Ledger, cfg: Config, o: string) {
    o in l.allocations && o in l.bindings && o != "" && l.bindings[o] != "" && GoodAllocation(l.allocations[o], cfg)
  }

  /** Two owners share nothing. */
  ghost predicate OwnersApart(l: Ledger, o: string, q: string)
    requires o in l.allocations && q in l.allocations && o in l.bindings && q in l.bindings
  {
    Apart(l.allocations[o], l.allocations[q]) && l.bindings[o] != l.bindings[q]
  }

  ghost predicate Checked(l: Ledger, cfg: Config, done: set<string>) {
    && (forall o :: o in done ==> GoodOwner(l, cfg, o))
    && (forall o, q :: o in done && q in done && o != q ==> OwnersApart(l, o, q))
  }

  /** Nothing the owner holds is taken by an owner already checked. */
  predicate Untaken(l: Ledger, o: string, transits: set<string>, sources: set<string>, uids: set<string>)
    requires o in l.allocations && o in l.bindings
  {
    l.bindings[o] !in uids && l.allocations[o].transit !in transits && l.allocations[o].source !in sources
  }

  lemma TakenMeans(l: Ledger, done: set<string>, a: Allocation, uid: string)
    requires forall q :: q in done ==> q in l.allocations && q in l.bindings
    ensures a.transit !in TransitsOf(l, done) <==> forall q :: q in done ==> l.allocations[q].transit != a.transit
    ensures a.source !in SourcesOf(l, done) <==> forall q :: q in done ==> l.allocations[q].source != a.source
    ensures uid !in UidsOf(l, done) <==> forall q :: q in done ==> l.bindings[q] != uid
  {
  }

  lemma UntakenIsApart(l: Ledger, done: set<string>, o: string)
    requires o in l.allocations && o in l.bindings && (forall q :: q in done ==> q in l.allocations && q in l.bindings)
    ensures Untaken(l, o, TransitsOf(l, done), SourcesOf(l, done), UidsOf(l, done)) <==> forall q :: q in done ==> OwnersApart(l, o, q)
  {
    TakenMeans(l, done, l.allocations[o], l.bindings[o]);
    hide TransitsOf, SourcesOf, UidsOf;
  }

  lemma CheckOne(l: Ledger, cfg: Config, done: set<string>, o: string)
    requires Checked(l, cfg, done) && o in l.allocations && o !in done && done <= l.allocations.Keys
    ensures GoodOwner(l, cfg, o) && Untaken(l, o, TransitsOf(l, done), SourcesOf(l, done), UidsOf(l, done)) ==> Checked(l, cfg, done + {o})
    ensures !(GoodOwner(l, cfg, o) && Untaken(l, o, TransitsOf(l, done), SourcesOf(l, done), UidsOf(l, done))) ==> !Readable(l, cfg)
  {
    hide GoodAllocation, Untaken, TransitsOf, SourcesOf, UidsOf;
    hide OwnersApart;
    if o in l.bindings {
      UntakenIsApart(l, done, o);
      ApartSymmetric(l, cfg, done, o);
    }
  }

  lemma ApartSymmetric(l: Ledger, cfg: Config, done: set<string>, o: string)
    requires Checked(l, cfg, done) && o in l.allocations && o in l.bindings
    ensures forall q :: q in done ==> (OwnersApart(l, o, q) <==> OwnersApart(l, q, o))
  {
    hide GoodAllocation;
  }

  lemma OneMoreTaken(l: Ledger, done: set<string>, o: string)
    requires o in l.allocations && o in l.bindings
    ensures TransitsOf(l, done + {o}) == TransitsOf(l, done) + {l.allocations[o].transit}
    ensures SourcesOf(l, done + {o}) == SourcesOf(l, done) + {l.allocations[o].source}
    ensures UidsOf(l, done + {o}) == UidsOf(l, done) + {l.bindings[o]}
  {
  }

  /** Reading a stored ledger back. */
  method ReadState(l: Ledger, cfg: Config) returns (ok: bool)
    ensures ok <==> Readable(l, cfg)
  {
    hide GoodAllocation, GoodOwner, Readable, Checked, Untaken, TransitsOf, SourcesOf, UidsOf, OwnersApart;
    if |l.allocations| != |l.bindings| {
      CountsDiffer(l, cfg);
      return false;
    }
    var transits: set<string>, sources: set<string>, uids: set<string> := {}, {}, {};
    var todo := l.allocations.Keys;
    ghost var done: set<string> := {};
    NothingTaken(l, cfg);
    while todo != {}
      invariant todo <= l.allocations.Keys && done == l.allocations.Keys - todo
      invariant Checked(l, cfg, done)
      invariant transits == TransitsOf(l, done) && sources == SourcesOf(l, done) && uids == UidsOf(l, done)
    {
      var o :| o in todo;
      CheckOne(l, cfg, done, o);
      GoodOwnerBound(l, cfg, o);
      var good := GoodOwner(l, cfg, o);
      if !good || !Untaken(l, o, transits, sources, uids) {
        return false;
      }
      OneMoreTaken(l, done, o);
      transits, sources, uids := transits + {l.allocations[o].transit}, sources + {l.allocations[o].source}, uids + {l.bindings[o]};
      todo, done := todo - {o}, done + {o};
    }
    assert done == l.allocations.Keys;
    AllChecked(l, cfg);
    return true;
  }

  lemma GoodOwnerBound(l: Ledger, cfg: Config, o: string)
    ensures GoodOwner(l, cfg, o) ==> o in l.bindings
  {
    hide GoodAllocation;
  }

  lemma CountsDiffer(l: Ledger, cfg: Config)
    requires |l.allocations| != |l.bindings|
    ensures !Readable(l, cfg)
  {
    hide Checked;
    assert |l.allocations.Keys| == |l.allocations| && |l.bindings.Keys| == |l.bindings|;
  }

  lemma NothingTaken(l: Ledger, cfg: Config)
    ensures TransitsOf(l, {}) == {} && SourcesOf(l, {}) == {} && UidsOf(l, {}) == {} && Checked(l, cfg, {})
  {
  }

  lemma AllChecked(l: Ledger, cfg: Config)
    requires Checked(l, cfg, l.allocations.Keys) && |l.allocations| == |l.bindings|
    ensures Readable(l, cfg)
  {
    hide GoodAllocation, Apart;
    SameCount(l.allocations.Keys, l.bindings.Keys);
    assert |l.allocations.Keys| == |l.allocations| && |l.bindings.Keys| == |l.bindings|;
  }

  lemma SameCount(a: set<string>, b: set<string>)
    ensures a <= b && |a| == |b| ==> a == b
  {
    if a <= b && |a| == |b| {
      assert |b - a| == |b| - |a|;
    }
  }

  /** Transit blocks of different sources are aligned blocks of the pool that share no address. */
  lemma TransitBlocksDisjoint(l: Ledger, cfg: Config, o: string, q: string)
    requires Readable(l, cfg) && o in l.allocations && q in l.allocations && o != q
    ensures var p, r := SiteConfig.Network(l.allocations[o].transit), SiteConfig.Network(l.allocations[q].transit);
      && p.Some? && r.Some? && !p.value.Overlaps(r.value)
      && p.value.Canonical() && p.value.bits == cfg.length && Inside(p.value, cfg.transit)
  {
    hide SiteConfig.Host, PrefixText;
    assert GoodOwner(l, cfg, o) && GoodOwner(l, cfg, q) && OwnersApart(l, o, q);
    var p, r := SiteConfig.Network(l.allocations[o].transit).value, SiteConfig.Network(l.allocations[q].transit).value;
    if p.Overlaps(r) {
      SameBlock(p, r);
    }
  }

  lemma SameBlock(p: Prefix, r: Prefix)
    requires p.bits == r.bits && p.Canonical() && r.Canonical() && p.Overlaps(r)
    ensures p == r
  {
    DivIs(p.addr, Size(p.bits), Block(p.addr, p.bits), 0);
    DivIs(r.addr, Size(p.bits), Block(r.addr, p.bits), 0);
  }

  // ---- Scanning ----

  /** The i-th block of the pool. */
  function BlockAt(cfg: Config, i: nat): (p: Prefix)
    requires GoodConfig(cfg) && i * Size(cfg.length) < Size(cfg.transit.bits)
    ensures p.bits == cfg.length && p.addr == cfg.transit.addr + i * Size(cfg.length) && p.Canonical() && Inside(p, cfg.transit)
  {
    BlockInside(cfg, i);
    Prefix(cfg.transit.addr + i * Size(cfg.length), cfg.length)
  }

  lemma BlockRange(addr: int, i: int, s: int, n: int)
    requires s > 0 && n > 0 && i >= 0 && addr >= 0 && addr % (n * s) == 0 && i * s < n * s
    ensures addr <= addr + i * s && (addr + i * s) % s == 0 && addr + i * s + s <= addr + n * s
  {
    MultipleOf(addr, n * s, n, s);
    WholeBlocks(i, n, s);
    SumMultiple(addr, i, s);
    MulAtMost(0, i, s);
  }

  lemma StartInside(pool: Prefix, start: int, bits: Bits)
    requires pool.Canonical() && pool.addr <= start && start % Size(bits) == 0 && start + Size(bits) - 1 <= pool.Last()
    ensures 0 <= start < SPACE && Prefix(start, bits).Canonical() && Inside(Prefix(start, bits), pool)
  {
    hide Size;
    var p := Prefix(start, bits);
    PoolRange(p);
    GatewayRegistry.ContainsIsRange(pool, p.addr);
    GatewayRegistry.ContainsIsRange(pool, p.Last());
  }

  lemma BlockInside(cfg: Config, i: nat)
    requires GoodConfig(cfg) && i * Size(cfg.length) < Size(cfg.transit.bits)
    ensures 0 <= cfg.transit.addr + i * Size(cfg.length) < SPACE
    ensures var p := Prefix(cfg.transit.addr + i * Size(cfg.length), cfg.length);
      p.Canonical() && Inside(p, cfg.transit)
  {
    var pool, s, big := cfg.transit, Size(cfg.length), Size(cfg.transit.bits);
    assert pool.Canonical();
    var n := SizeRatio(pool.bits, cfg.length);
    PoolRange(pool);
    hide Size, SiteConfig.GoodNetwork, Inside;
    BlockRange(pool.addr, i, s, n);
    StartInside(pool, pool.addr + i * s, cfg.length);
  }

  lemma PoolRange(pool: Prefix)
    requires pool.Canonical()
    ensures pool.Last() == pool.addr + Size(pool.bits) - 1 < SPACE
  {
    hide Size;
    NetworkInSpace(pool.addr, pool.bits);
    DivIs(pool.addr, Size(pool.bits), Block(pool.addr, pool.bits), 0);
  }

  lemma MultipleOf(a: int, big: int, n: int, s: int)
    requires s > 0 && n > 0 && big == n * s && a >= 0 && a % big == 0
    ensures a % s == 0
  {
    var k := a / big;
    assert a == k * big;
    assert k * (n * s) == (k * n) * s;
    DivIs(a, s, k * n, 0);
  }

  lemma SumMultiple(a: int, i: int, s: int)
    requires s > 0 && a % s == 0
    ensures (a + i * s) % s == 0
  {
    assert a == a / s * s;
    assert a + i * s == (a / s + i) * s;
    DivIs(a + i * s, s, a / s + i, 0);
  }

  lemma WholeBlocks(i: int, n: int, s: int)
    requires s > 0 && i * s < n * s
    ensures i * s + s <= n * s
  {
    if i >= n {
      MulAtMost(n, i, s);
    }
    MulAtMost(i + 1, n, s);
    assert (i + 1) * s == i * s + s;
  }

  ghost predicate FirstBlock(p: Prefix, used: set<string>, cfg: Config) {
    exists i: nat :: GoodConfig(cfg) && i * Size(cfg.length) < Size(cfg.transit.bits) && BlockAt(cfg, i) == p && PrefixText(p) !in used
                     && forall j: nat :: j < i && j * Size(cfg.length) < Size(cfg.transit.bits) ==> PrefixText(BlockAt(cfg, j)) in used
  }

  ghost predicate BlocksUsed(used: set<string>, cfg: Config)
    requires GoodConfig(cfg)
  {
    forall j: nat :: j * Size(cfg.length) < Size(cfg.transit.bits) ==> PrefixText(BlockAt(cfg, j)) in used
  }

  /** First fit over the blocks of the pool, in index order. */
  method ScanBlocks(used: set<string>, cfg: Config) returns (free: Option<Prefix>)
    requires GoodConfig(cfg)
    ensures free.Some? ==> FirstBlock(free.value, used, cfg)
    ensures free.None? <==> BlocksUsed(used, cfg)
  {
    hide PrefixText;
    var n := SizeRatioOf(cfg);
    var i := 0;
    while i < n
      invariant 0 <= i <= n
      invariant forall j: nat :: j < i && j * Size(cfg.length) < Size(cfg.transit.bits) ==> PrefixText(BlockAt(cfg, j)) in used
    {
      Below(i, n, Size(cfg.length));
      var p := BlockAt(cfg, i);
      if PrefixText(p) !in used {
        return Some(p);
      }
      i := i + 1;
    }
    forall j: nat | j * Size(cfg.length) < Size(cfg.transit.bits) ensures PrefixText(BlockAt(cfg, j)) in used {
      if j >= n {
        MulAtMost(n, j, Size(cfg.length));
      }
    }
    return None;
  }

  lemma Below(i: int, n: int, s: int)
    requires i < n && s > 0
    ensures i * s < n * s
  {
    MulAtMost(i + 1, n, s);
  }

  /** How many blocks the pool has. */
  method SizeRatioOf(cfg: Config) returns (n: int)
    requires GoodConfig(cfg)
    ensures n > 0 && Size(cfg.transit.bits) == n * Size(cfg.length)
  {
    ghost var k := SizeRatio(cfg.transit.bits, cfg.length);
    n := Size(cfg.transit.bits) / Size(cfg.length);
    DivIs(Size(cfg.transit.bits), Size(cfg.length), k, 0);
  }

  // ---- One allocation ----

  function Transits(l: Ledger): (used: set<string>) {
    set o | o in l.allocations :: l.allocations[o].transit
  }

  function Sources(l: Ledger): (used: set<string>) {
    set o | o in l.allocations :: l.allocations[o].source
  }

  function Made(p: Prefix, a: Addr): (r: Allocation) {
    Allocation(PrefixText(p), if p.addr + 1 < SPACE then AddrText(p.addr + 1) else "", AddrText(a))
  }

  function Added(l: Ledger, owner: string, uid: string, a: Allocation): (m: Ledger) {
    Ledger(l.allocations[owner := a], l.bindings[owner := uid])
  }

  ghost predicate Fresh(l: Ledger, cfg: Config, a: Allocation) {
    exists p, ip: Addr :: FirstBlock(p, Transits(l), cfg) && GatewayRegistry.FirstFree(ip, Sources(l), cfg.sources) && a == Made(p, ip)
  }

  /** The ledger after one allocation: a retained one is returned unchanged, a new one is the first free pair. */
  ghost predicate Allocates(l: Ledger, cfg: Config, owner: string, uid: string, r: Result<Ledger, Refusal>)
    requires GoodConfig(cfg)
  {
    if owner in l.allocations then r == if owner in l.bindings && l.bindings[owner] == uid then Ok(l) else Err(BindingChanged)
    else if uid in l.bindings.Values then r == Err(SourceChanged)
    else if BlocksUsed(Transits(l), cfg) || GatewayRegistry.AllUsed(Sources(l), cfg.sources) then r == Err(Exhausted)
    else r.Ok? && exists a :: Fresh(l, cfg, a) && r.value == Added(l, owner, uid, a)
  }

  method Allocate(l: Ledger, cfg: Config, owner: string, uid: string) returns (r: Result<Ledger, Refusal>)
    requires GoodConfig(cfg)
    ensures Allocates(l, cfg, owner, uid, r)
  {
    hide FirstBlock, BlocksUsed, Made, Transits, Sources, GatewayRegistry.FirstFree, GatewayRegistry.AllUsed, SiteConfig.GoodNetwork;
    if owner in l.allocations {
      return if owner in l.bindings && l.bindings[owner] == uid then Ok(l) else Err(BindingChanged);
    }
    if uid in l.bindings.Values {
      return Err(SourceChanged);
    }
    var block := ScanBlocks(Transits(l), cfg);
    GatewayRegistry.PoolBelowTop(cfg.sources);
    var source := GatewayRegistry.ScanAddresses(Sources(l), cfg.sources);
    if block.None? || source.None? {
      return Err(Exhausted);
    }
    assert Fresh(l, cfg, Made(block.value, source.value));
    return Ok(Added(l, owner, uid, Made(block.value, source.value)));
  }

  // ---- What one allocation keeps ----

  /** No address of a prefix is link-local, looking at its ends. */
  predicate Clear(p: Prefix) {
    !LinkLocal(p.addr) && !LinkLocal(p.Last())
  }

  lemma GoodEnds(pool: Prefix, a: Addr)
    requires SiteConfig.GoodNetwork(pool) && pool.Contains(a) && a != 0 && a != 0xFFFF_FFFF
    ensures GlobalUnicast(a) <==> !LinkLocal(a)
  {
    Coarsen(a, pool.addr, 8, pool.bits);
    GatewayRegistry.Size8();
  }

  /** A block of the pool is a legal network exactly when it is not link-local. */
  lemma BlockLegal(cfg: Config, p: Prefix)
    requires GoodConfig(cfg) && p.bits == cfg.length && p.Canonical() && Inside(p, cfg.transit)
    ensures SiteConfig.GoodNetwork(p) <==> Clear(p)
    ensures p.addr + 1 < SPACE
  {
    var pool := cfg.transit;
    GatewayRegistry.ContainsIsRange(pool, p.addr);
    GatewayRegistry.ContainsIsRange(pool, p.Last());
    GatewayRegistry.PoolBelowTop(pool);
    PoolRange(p);
    assert pool.addr != 0;
    GoodEnds(pool, p.addr);
    GoodEnds(pool, p.Last());
  }

  /** The pair chosen is readable back exactly when neither the block nor the source is link-local. */
  lemma ChosenReadable(l: Ledger, cfg: Config, p: Prefix, ip: Addr)
    requires GoodConfig(cfg) && FirstBlock(p, Transits(l), cfg) && GatewayRegistry.FirstFree(ip, Sources(l), cfg.sources)
    ensures GoodAllocation(Made(p, ip), cfg) <==> Clear(p) && !LinkLocal(ip)
    ensures PrefixText(p) !in Transits(l) && AddrText(ip) !in Sources(l)
  {
    hide PrefixText, AddrText, Transits, Sources, Clear, SiteConfig.UsableHost;
    assert p.bits == cfg.length && p.Canonical() && Inside(p, cfg.transit);
    BlockLegal(cfg, p);
    NetworkText(p);
    GatewayRegistry.CandidateHost(cfg.sources, ip);
    GatewayRegistry.HostText(cfg.sources, ip);
  }

  lemma NetworkText(p: Prefix)
    ensures SiteConfig.Network(PrefixText(p)) == if SiteConfig.GoodNetwork(p) then Some(p) else None
  {
    var n := SiteConfig.Network(PrefixText(p));
    ParsePrinted(p);
  }

  /** A new allocation leaves a readable ledger readable exactly when what it chose is not link-local. */
  lemma AllocationReadable(l: Ledger, cfg: Config, owner: string, uid: string, p: Prefix, ip: Addr)
    requires GoodConfig(cfg) && Readable(l, cfg) && owner != "" && uid != "" && owner !in l.allocations && uid !in l.bindings.Values
    requires FirstBlock(p, Transits(l), cfg) && GatewayRegistry.FirstFree(ip, Sources(l), cfg.sources)
    ensures Readable(Added(l, owner, uid, Made(p, ip)), cfg) <==> Clear(p) && !LinkLocal(ip)
  {
    ChosenReadable(l, cfg, p, ip);
    SameKeys(l, cfg);
    hide FirstBlock, GatewayRegistry.FirstFree, Clear, LinkLocal, GoodAllocation, GoodConfig, Made, Transits, Sources, Readable, OwnersApart, Added, GoodOwner;
    var m := Added(l, owner, uid, Made(p, ip));
    NewApart(l, m, owner, uid, p, ip);
    AddedFacts(l, owner, uid, Made(p, ip));
    OldOwners(l, m, cfg, owner);
    NewOwnerGood(m, cfg, owner);
  }

  lemma NewOwnerGood(m: Ledger, cfg: Config, owner: string)
    requires owner != "" && owner in m.allocations && owner in m.bindings && m.bindings[owner] != ""
    ensures GoodOwner(m, cfg, owner) <==> GoodAllocation(m.allocations[owner], cfg)
  {
    hide GoodAllocation;
  }

  lemma AddedFacts(l: Ledger, owner: string, uid: string, a: Allocation)
    requires owner !in l.allocations && owner !in l.bindings
    ensures var m := Added(l, owner, uid, a);
      && m.allocations.Keys == l.allocations.Keys + {owner} && m.bindings.Keys == l.bindings.Keys + {owner}
      && m.allocations[owner] == a && m.bindings[owner] == uid
      && (forall o :: o in l.allocations ==> m.allocations[o] == l.allocations[o])
      && (forall o :: o in l.bindings ==> m.bindings[o] == l.bindings[o])
  {
  }

  lemma NewApart(l: Ledger, m: Ledger, owner: string, uid: string, p: Prefix, ip: Addr)
    requires l.allocations.Keys == l.bindings.Keys && owner !in l.allocations && uid !in l.bindings.Values
    requires m == Added(l, owner, uid, Made(p, ip)) && PrefixText(p) !in Transits(l) && AddrText(ip) !in Sources(l)
    ensures forall o :: o in l.allocations ==> OwnersApart(m, o, owner) && OwnersApart(m, owner, o)
  {
    hide PrefixText, AddrText;
    forall o | o in l.allocations
      ensures OwnersApart(m, o, owner) && OwnersApart(m, owner, o)
    {
      assert l.allocations[o].transit in Transits(l) && l.allocations[o].source in Sources(l) && l.bindings[o] in l.bindings.Values;
    }
  }

  lemma OldOwners(l: Ledger, m: Ledger, cfg: Config, owner: string)
    requires Readable(l, cfg) && owner !in l.allocations && m.allocations.Keys == l.allocations.Keys + {owner} && m.bindings.Keys == l.bindings.Keys + {owner}
    requires forall o :: o in l.allocations ==> m.allocations[o] == l.allocations[o]
    requires forall o :: o in l.bindings ==> m.bindings[o] == l.bindings[o]
    requires forall o :: o in l.allocations ==> OwnersApart(m, o, owner) && OwnersApart(m, owner, o)
    ensures Readable(m, cfg) <==> GoodOwner(m, cfg, owner)
  {
    hide GoodAllocation;
    forall o | o in l.allocations ensures GoodOwner(m, cfg, o) {
      assert GoodOwner(l, cfg, o);
    }
    forall o, q | o in l.allocations && q in l.allocations && o != q ensures OwnersApart(m, o, q) {
      assert OwnersApart(l, o, q);
    }
    if Readable(m, cfg) {
      assert owner in m.allocations;
    }
  }

  lemma SameKeys(l: Ledger, cfg: Config)
    requires Readable(l, cfg)
    ensures l.allocations.Keys == l.bindings.Keys
  {
  }

  /** No owner loses or changes what it holds. */
  ghost predicate Grows(a: Ledger, b: Ledger) {
    && (forall o :: o in a.allocations ==> o in b.allocations && b.allocations[o] == a.allocations[o])
    && (forall o :: o in a.bindings ==> o in b.bindings && b.bindings[o] == a.bindings[o])
  }

  lemma KeptReservation(l: Ledger, cfg: Config, owner: string, uid: string, r: Result<Ledger, Refusal>)
    requires GoodConfig(cfg) && Allocates(l, cfg, owner, uid, r) && r.Ok?
    ensures owner in r.value.allocations && owner in r.value.bindings && r.value.bindings[owner] == uid
  {
    hide Fresh, BlocksUsed, GatewayRegistry.AllUsed;
  }
}
