/** For which pools the site ledger always stays readable (internal/localcontroller/allocation.go). */
module LedgerPools {
  import opened Wrappers
  import opened Ipv4
  import opened SiteLedger
  import SiteConfig
  import GatewayRegistry

  const LINK_LOCAL := 0xA9FE_0000

  function HostCount(cfg: Config): (n: int) {
    Size(cfg.sources.bits) - 2
  }

  function BlockCount(cfg: Config): (n: int)
    requires GoodConfig(cfg)
  {
    Size(cfg.transit.bits) / Size(cfg.length)
  }

  /** Blocks, and source addresses, before 169.254.0.0. */
  function BlocksBelow(cfg: Config): (n: int)
    requires GoodConfig(cfg)
  {
    (LINK_LOCAL - cfg.transit.addr) / Size(cfg.length)
  }

  function HostsBelow(cfg: Config): (n: int) {
    LINK_LOCAL - cfg.sources.addr - 1
  }

  /** Each pool avoids 169.254.0.0/16, or the other pool runs out before its own blocks or addresses below that range do. */
  predicate SafePools(cfg: Config)
    requires GoodConfig(cfg)
  {
    && (GatewayRegistry.AvoidsLinkLocal(cfg.transit) || HostCount(cfg) <= BlocksBelow(cfg))
    && (GatewayRegistry.AvoidsLinkLocal(cfg.sources) || BlockCount(cfg) <= HostsBelow(cfg))
  }

  lemma InsideAvoids(pool: Prefix, a: Addr)
    requires GatewayRegistry.AvoidsLinkLocal(pool) && pool.Contains(a)
    ensures !LinkLocal(a)
  {
    GatewayRegistry.LinkLocalBlock(a);
    if LinkLocal(a) {
      SharedOverlap(pool, Prefix(0xA9FE_0000, 16), a);
    }
  }

  // ---- Counting ----

  /** The texts of n consecutive addresses. */
  ghost function HostTexts(first: int, n: nat): (s: set<string>)
    requires 0 <= first && first + n <= SPACE
  {
    if n == 0 then {} else HostTexts(first, n - 1) + {AddrText(first + n - 1)}
  }

  lemma {:induction false} HostTextsMembers(first: int, n: nat)
    requires 0 <= first && first + n <= SPACE
    ensures forall t :: t in HostTexts(first, n) <==> exists a: Addr :: first <= a < first + n && AddrText(a) == t
    ensures |HostTexts(first, n)| == n
  {
    hide AddrText;
    if n > 0 {
      HostTextsMembers(first, n - 1);
      var last: Addr := first + n - 1;
      if AddrText(last) in HostTexts(first, n - 1) {
        var a: Addr :| first <= a < first + n - 1 && AddrText(a) == AddrText(last);
        AddrTextInjective(a, last);
      }
      forall t ensures t in HostTexts(first, n) <==> exists a: Addr :: first <= a < first + n && AddrText(a) == t {
        if t == AddrText(last) {
          assert first <= last < first + n;
        }
      }
    }
  }

  /** An index below the count is one of the pool, and the other way round. */
  lemma BlockIndex(cfg: Config, i: int)
    requires GoodConfig(cfg)
    ensures i < BlockCount(cfg) <==> i * Size(cfg.length) < Size(cfg.transit.bits)
    ensures BlockCount(cfg) > 0
  {
    var n := SizeRatio(cfg.transit.bits, cfg.length);
    IndexBelow(Size(cfg.transit.bits), n, Size(cfg.length), i);
  }

  lemma IndexBelow(whole: int, n: int, s: int, i: int)
    requires s > 0 && n > 0 && whole == n * s
    ensures whole / s == n && (i < n <==> i * s < whole)
  {
    DivIs(whole, s, n, 0);
    if i < n {
      Below(i, n, s);
    } else {
      MulAtMost(n, i, s);
    }
  }

  ghost function BlockOf(cfg: Config, i: nat): (p: Prefix)
    requires GoodConfig(cfg) && i < BlockCount(cfg)
  {
    BlockIndex(cfg, i);
    BlockAt(cfg, i)
  }

  lemma BlocksDiffer(cfg: Config, i: nat, j: nat)
    requires GoodConfig(cfg) && i < BlockCount(cfg) && j < BlockCount(cfg) && PrefixText(BlockOf(cfg, i)) == PrefixText(BlockOf(cfg, j))
    ensures i == j
  {
    hide PrefixText, GoodConfig;
    BlockIndex(cfg, i);
    BlockIndex(cfg, j);
    PrefixTextInjective(BlockOf(cfg, i), BlockOf(cfg, j));
    if i < j {
      Below(i, j, Size(cfg.length));
    } else if j < i {
      Below(j, i, Size(cfg.length));
    }
  }

  /** The texts of the first n blocks. */
  ghost function BlockTexts(cfg: Config, n: nat): (s: set<string>)
    requires GoodConfig(cfg) && n <= BlockCount(cfg)
  {
    if n == 0 then {} else BlockTexts(cfg, n - 1) + {PrefixText(BlockOf(cfg, n - 1))}
  }

  lemma {:induction false} BlockTextsMembers(cfg: Config, n: nat)
    requires GoodConfig(cfg) && n <= BlockCount(cfg)
    ensures forall i: nat :: i < n ==> PrefixText(BlockOf(cfg, i)) in BlockTexts(cfg, n)
    ensures forall t :: t in BlockTexts(cfg, n) ==> exists i: nat :: i < n && PrefixText(BlockOf(cfg, i)) == t
    ensures |BlockTexts(cfg, n)| == n
  {
    hide PrefixText, GoodConfig, BlockOf, BlockCount;
    if n > 0 {
      BlockTextsMembers(cfg, n - 1);
      if PrefixText(BlockOf(cfg, n - 1)) in BlockTexts(cfg, n - 1) {
        var i: nat :| i < n - 1 && PrefixText(BlockOf(cfg, i)) == PrefixText(BlockOf(cfg, n - 1));
        BlocksDiffer(cfg, i, n - 1);
      }
    }
  }

  /** A readable ledger holds as many blocks and as many sources as it has owners. */
  lemma {:induction false} Counted(l: Ledger, cfg: Config, done: set<string>)
    requires Checked(l, cfg, done) && done <= l.allocations.Keys && done <= l.bindings.Keys
    ensures |TransitsOf(l, done)| == |done| && |SourcesOf(l, done)| == |done|
    decreases |done|
  {
    hide GoodOwner, OwnersApart, TransitsOf, SourcesOf, UidsOf, GoodAllocation;
    if done == {} {
      NothingTaken(l, cfg);
    } else {
      var o :| o in done;
      var rest := done - {o};
      Counted(l, cfg, rest);
      OneMoreTaken(l, rest, o);
      assert rest + {o} == done;
      assert Untaken(l, o, TransitsOf(l, rest), SourcesOf(l, rest), UidsOf(l, rest)) by {
        assert forall q :: q in rest ==> OwnersApart(l, o, q);
        UntakenIsApart(l, rest, o);
      }
    }
  }

  lemma OwnersCounted(l: Ledger, cfg: Config)
    requires Readable(l, cfg)
    ensures |Transits(l)| == |Sources(l)|
  {
    hide Checked;
    Counted(l, cfg, l.allocations.Keys);
    assert TransitsOf(l, l.allocations.Keys) == Transits(l) && SourcesOf(l, l.allocations.Keys) == Sources(l);
  }

  lemma SubsetCount(a: set<string>, b: set<string>)
    requires a <= b
    ensures |a| <= |b|
  {
    assert b == a + (b - a);
  }

  /** The retained transit blocks are blocks of the pool. */
  lemma TransitsAreBlocks(l: Ledger, cfg: Config)
    requires GoodConfig(cfg) && Readable(l, cfg)
    ensures BlockCount(cfg) >= 0 && Transits(l) <= BlockTexts(cfg, BlockCount(cfg))
  {
    BlockIndex(cfg, 0);
    BlockTextsMembers(cfg, BlockCount(cfg));
    forall t | t in Transits(l) ensures t in BlockTexts(cfg, BlockCount(cfg)) {
      var o :| o in l.allocations && l.allocations[o].transit == t;
      assert GoodOwner(l, cfg, o);
      var q := SiteConfig.Network(t).value;
      var i := IndexOf(cfg, q);
      SamePrefixText(t, q);
    }
  }

  lemma SamePrefixText(t: string, q: Prefix)
    requires SiteConfig.Network(t) == Some(q)
    ensures PrefixText(q) == t
  {
    hide PrefixText;
  }

  /** Every aligned block inside the pool has an index. */
  lemma IndexOf(cfg: Config, q: Prefix) returns (i: nat)
    requires GoodConfig(cfg) && q.bits == cfg.length && q.Canonical() && Inside(q, cfg.transit)
    ensures i < BlockCount(cfg) && BlockOf(cfg, i) == q
  {
    PoolAligned(cfg);
    InsideRange(cfg, q);
    hide GoodConfig, Inside, BlockOf, BlockCount;
    i := QuotientOf(q.addr, cfg.transit.addr, Size(cfg.length));
    IndexIs(cfg, q, i);
  }

  lemma InsideRange(cfg: Config, q: Prefix)
    requires GoodConfig(cfg) && Inside(q, cfg.transit)
    ensures cfg.transit.addr <= q.addr < cfg.transit.addr + Size(cfg.transit.bits)
  {
    GatewayRegistry.ContainsIsRange(cfg.transit, q.addr);
    PoolRange(cfg.transit);
  }

  lemma IndexIs(cfg: Config, q: Prefix, i: nat)
    requires GoodConfig(cfg) && q.bits == cfg.length && i * Size(cfg.length) == q.addr - cfg.transit.addr < Size(cfg.transit.bits)
    ensures i < BlockCount(cfg) && BlockOf(cfg, i) == q
  {
    hide GoodConfig, BlockCount;
    BlockIndex(cfg, i);
  }

  lemma PoolAligned(cfg: Config)
    requires GoodConfig(cfg)
    ensures cfg.transit.addr % Size(cfg.length) == 0
  {
    var n := SizeRatio(cfg.transit.bits, cfg.length);
    MultipleOf(cfg.transit.addr, Size(cfg.transit.bits), n, Size(cfg.length));
  }

  lemma QuotientOf(a: int, b: int, s: int) returns (i: nat)
    requires s > 0 && a % s == 0 && b % s == 0 && a >= b
    ensures i * s == a - b
  {
    DifferenceMultiple(a, b, s);
    i := (a - b) / s;
  }

  lemma DifferenceMultiple(a: int, b: int, s: int)
    requires s > 0 && a % s == 0 && b % s == 0 && a >= b
    ensures (a - b) / s * s == a - b && (a - b) / s >= 0
  {
    var i, j := a / s, b / s;
    assert a == i * s && b == j * s;
    assert a - b == (i - j) * s;
    DivIs(a - b, s, i - j, 0);
  }

  /** The retained sources are addresses strictly inside their pool. */
  lemma SourcesAreHosts(l: Ledger, cfg: Config)
    requires GoodConfig(cfg) && Readable(l, cfg)
    ensures HostCount(cfg) >= 0 && 0 <= cfg.sources.addr + 1 && cfg.sources.addr + 1 + HostCount(cfg) <= SPACE
    ensures Sources(l) <= HostTexts(cfg.sources.addr + 1, HostCount(cfg))
  {
    hide AddrText;
    HostRange(cfg);
    HostTextsMembers(cfg.sources.addr + 1, HostCount(cfg));
    forall t | t in Sources(l) ensures t in HostTexts(cfg.sources.addr + 1, HostCount(cfg)) {
      var o :| o in l.allocations && l.allocations[o].source == t;
      assert GoodOwner(l, cfg, o);
      var a := SiteConfig.Host(t, cfg.sources).value;
      GatewayRegistry.ContainsIsRange(cfg.sources, a);
    }
  }

  lemma HostRange(cfg: Config)
    requires GoodConfig(cfg)
    ensures HostCount(cfg) >= 2 && 0 <= cfg.sources.addr + 1 && cfg.sources.addr + 1 + HostCount(cfg) == cfg.sources.Last() < SPACE
  {
    PoolRange(cfg.sources);
    SizeAtLeastFour(cfg.sources.bits);
  }

  lemma SizeAtLeastFour(bits: Bits)
    requires bits <= 30
    ensures Size(bits) >= 4
  {
    var n := SizeRatio(bits, 30);
    assert Size(30) == 4;
    MulAtMost(1, n, 4);
  }

  // ---- Below the link-local range ----

  /** A pool that meets the range holds whole blocks below it. */
  lemma BelowRange(cfg: Config)
    requires GoodConfig(cfg) && !GatewayRegistry.AvoidsLinkLocal(cfg.transit)
    ensures 0 <= BlocksBelow(cfg) < BlockCount(cfg)
    ensures BlocksBelow(cfg) * Size(cfg.length) == LINK_LOCAL - cfg.transit.addr
  {
    var pool, s := cfg.transit, Size(cfg.length);
    GatewayRegistry.LinkLocalInside(pool);
    PoolRange(pool);
    GatewayRegistry.Size16();
    PoolAligned(cfg);
    var k := SizeRatio(16, cfg.length);
    DivIs(LINK_LOCAL, 0x1_0000, 0xA9FE, 0);
    MultipleOf(LINK_LOCAL, 0x1_0000, k, s);
    DifferenceMultiple(LINK_LOCAL, pool.addr, s);
    BlockIndex(cfg, BlocksBelow(cfg));
  }

  /** The blocks before the range are clear of it, and the next one is not. */
  lemma BlocksClear(cfg: Config, i: nat)
    requires GoodConfig(cfg) && !GatewayRegistry.AvoidsLinkLocal(cfg.transit) && i < BlockCount(cfg)
    ensures i < BlocksBelow(cfg) ==> Clear(BlockOf(cfg, i))
    ensures i == BlocksBelow(cfg) ==> !Clear(BlockOf(cfg, i))
  {
    BlockIndex(cfg, i);
    BelowRange(cfg);
    BlockEnds(cfg, i);
    if i < BlocksBelow(cfg) {
      MulAtMost(i + 1, BlocksBelow(cfg), Size(cfg.length));
      EndsBelow(BlockOf(cfg, i));
    }
  }

  lemma BlocksClearBelow(cfg: Config, i: nat)
    requires GoodConfig(cfg) && !GatewayRegistry.AvoidsLinkLocal(cfg.transit) && i < BlockCount(cfg) && !Clear(BlockOf(cfg, i))
    ensures BlocksBelow(cfg) <= i
  {
    hide Clear;
    BlocksClear(cfg, i);
  }

  lemma BlockEnds(cfg: Config, i: nat)
    requires GoodConfig(cfg) && i < BlockCount(cfg)
    ensures BlockOf(cfg, i).addr == cfg.transit.addr + i * Size(cfg.length)
    ensures BlockOf(cfg, i).Last() == cfg.transit.addr + (i + 1) * Size(cfg.length) - 1
  {
    hide GoodConfig, BlockCount;
    BlockIndex(cfg, i);
    var p := BlockOf(cfg, i);
    PoolRange(p);
    OneMoreTimes(i, Size(cfg.length));
  }

  lemma OneMoreTimes(i: int, s: int)
    ensures (i + 1) * s == i * s + s
  {
  }

  lemma EndsBelow(p: Prefix)
    requires p.addr < LINK_LOCAL && p.Last() < LINK_LOCAL
    ensures Clear(p)
  {
  }

  lemma AvoidsClear(cfg: Config, p: Prefix)
    requires GatewayRegistry.AvoidsLinkLocal(cfg.transit) && Inside(p, cfg.transit)
    ensures Clear(p)
  {
    InsideAvoids(cfg.transit, p.addr);
    InsideAvoids(cfg.transit, p.Last());
  }

  // ---- Safe pools never choose a link-local pair ----

  lemma BlockChosenClear(l: Ledger, cfg: Config, p: Prefix, ip: Addr)
    requires GoodConfig(cfg) && SafePools(cfg) && Readable(l, cfg)
    requires FirstBlock(p, Transits(l), cfg) && GatewayRegistry.FirstFree(ip, Sources(l), cfg.sources)
    ensures Clear(p)
  {
    hide PrefixText, AddrText, Transits, Sources, Readable, Clear, GatewayRegistry.AvoidsLinkLocal, GatewayRegistry.AllUsed;
    if GatewayRegistry.AvoidsLinkLocal(cfg.transit) {
      AvoidsClear(cfg, p);
    } else if !Clear(p) {
      BelowRange(cfg);
      var b := BlocksBelow(cfg);
      var i: nat :| i * Size(cfg.length) < Size(cfg.transit.bits) && BlockAt(cfg, i) == p
                    && forall j: nat :: j < i && j * Size(cfg.length) < Size(cfg.transit.bits) ==> PrefixText(BlockAt(cfg, j)) in Transits(l);
      BlockIndex(cfg, i);
      BlocksClearBelow(cfg, i);
      BlockTextsMembers(cfg, b);
      forall t | t in BlockTexts(cfg, b) ensures t in Transits(l) {
        var j: nat :| j < b && PrefixText(BlockOf(cfg, j)) == t;
        BlockIndex(cfg, j);
      }
      SubsetCount(BlockTexts(cfg, b), Transits(l));
      OwnersCounted(l, cfg);
      SourceLeft(l, cfg, ip);
    }
  }

  /** A free source address means fewer owners than addresses. */
  lemma SourceLeft(l: Ledger, cfg: Config, ip: Addr)
    requires GoodConfig(cfg) && Readable(l, cfg) && GatewayRegistry.Candidate(ip, cfg.sources) && AddrText(ip) !in Sources(l)
    ensures |Sources(l)| < HostCount(cfg)
  {
    hide AddrText;
    SourcesAreHosts(l, cfg);
    HostRange(cfg);
    HostTextsMembers(cfg.sources.addr + 1, HostCount(cfg));
    SubsetCount(Sources(l) + {AddrText(ip)}, HostTexts(cfg.sources.addr + 1, HostCount(cfg)));
  }

  lemma BlockLeft(l: Ledger, cfg: Config, p: Prefix)
    requires GoodConfig(cfg) && Readable(l, cfg) && FirstBlock(p, Transits(l), cfg)
    ensures |Transits(l)| < BlockCount(cfg)
  {
    hide PrefixText, Readable, GoodConfig, Transits;
    TransitsAreBlocks(l, cfg);
    var i := ChosenIndex(cfg, p, Transits(l));
    hide FirstBlock, BlockOf, BlockCount, BlockTexts;
    BlockTextsMembers(cfg, BlockCount(cfg));
    SubsetCount(Transits(l) + {PrefixText(p)}, BlockTexts(cfg, BlockCount(cfg)));
  }

  lemma ChosenIndex(cfg: Config, p: Prefix, used: set<string>) returns (i: nat)
    requires GoodConfig(cfg) && FirstBlock(p, used, cfg)
    ensures i < BlockCount(cfg) && BlockOf(cfg, i) == p && PrefixText(p) !in used
  {
    hide PrefixText;
    i :| i * Size(cfg.length) < Size(cfg.transit.bits) && BlockAt(cfg, i) == p;
    BlockIndex(cfg, i);
  }

  lemma SourceChosenClear(l: Ledger, cfg: Config, p: Prefix, ip: Addr)
    requires GoodConfig(cfg) && SafePools(cfg) && Readable(l, cfg)
    requires FirstBlock(p, Transits(l), cfg) && GatewayRegistry.FirstFree(ip, Sources(l), cfg.sources)
    ensures !LinkLocal(ip)
  {
    hide PrefixText, AddrText, Transits, Sources, Readable, GatewayRegistry.AvoidsLinkLocal;
    GatewayRegistry.ContainsIsRange(cfg.sources, ip);
    if GatewayRegistry.AvoidsLinkLocal(cfg.sources) {
      InsideAvoids(cfg.sources, ip);
    } else if LinkLocal(ip) {
      GatewayRegistry.LinkLocalInside(cfg.sources);
      var first, h := cfg.sources.addr + 1, HostsBelow(cfg);
      HostTextsMembers(first, h);
      assert HostTexts(first, h) <= Sources(l);
      SubsetCount(HostTexts(first, h), Sources(l));
      OwnersCounted(l, cfg);
      BlockLeft(l, cfg, p);
    }
  }

  lemma SafeAllocation(l: Ledger, cfg: Config, owner: string, uid: string, r: Result<Ledger, Refusal>)
    requires GoodConfig(cfg) && SafePools(cfg) && Readable(l, cfg) && owner != "" && uid != ""
    requires Allocates(l, cfg, owner, uid, r) && r.Ok?
    ensures Readable(r.value, cfg) && Grows(l, r.value) && owner in r.value.allocations && owner in r.value.bindings && r.value.bindings[owner] == uid
  {
    hide FirstBlock, GatewayRegistry.FirstFree, BlocksUsed, GatewayRegistry.AllUsed, Readable, SafePools, GoodConfig, Made, Clear, Transits, Sources;
    KeptReservation(l, cfg, owner, uid, r);
    if owner !in l.allocations {
      var a :| Fresh(l, cfg, a) && r.value == Added(l, owner, uid, a);
      hide Allocates;
      var p, ip: Addr :| FirstBlock(p, Transits(l), cfg) && GatewayRegistry.FirstFree(ip, Sources(l), cfg.sources) && a == Made(p, ip);
      BlockChosenClear(l, cfg, p, ip);
      SourceChosenClear(l, cfg, p, ip);
      SameKeys(l, cfg);
      AllocationReadable(l, cfg, owner, uid, p, ip);
    }
  }

  // ---- Unsafe pools do ----

  ghost function SourceOf(cfg: Config, n: nat): (a: Addr)
    requires GoodConfig(cfg) && n < HostCount(cfg)
  {
    HostRange(cfg);
    cfg.sources.addr + 1 + n
  }

  /** The ledger after n owners on empty pools: the i-th block with the i-th address. */
  ghost function Diagonal(cfg: Config, n: nat): (l: Ledger)
    requires GoodConfig(cfg) && n <= BlockCount(cfg) && n <= HostCount(cfg)
  {
    if n == 0 then Ledger(map[], map[])
    else
      Added(Diagonal(cfg, n - 1), HostKey(cfg, n - 1), HostKey(cfg, n - 1), Made(BlockOf(cfg, n - 1), SourceOf(cfg, n - 1)))
  }

  ghost function HostKey(cfg: Config, i: nat): (k: string)
    requires GoodConfig(cfg) && i < HostCount(cfg)
  {
    AddrText(SourceOf(cfg, i))
  }

  /** The pair the n-th owner is given. */
  ghost predicate PairClear(cfg: Config, i: nat)
    requires GoodConfig(cfg) && i < BlockCount(cfg) && i < HostCount(cfg)
  {
    Clear(BlockOf(cfg, i)) && !LinkLocal(SourceOf(cfg, i))
  }

  /** Everything a diagonal ledger holds. */
  ghost predicate Holding(l: Ledger, transits: set<string>, sources: set<string>) {
    && Transits(l) == transits && Sources(l) == sources && l.allocations.Keys == sources && l.bindings.Keys == sources
    && forall o :: o in l.bindings ==> l.bindings[o] == o
  }

  lemma {:induction false} DiagonalHolds(cfg: Config, n: nat)
    requires GoodConfig(cfg) && n <= BlockCount(cfg) && n <= HostCount(cfg)
    ensures 0 <= cfg.sources.addr + 1 && cfg.sources.addr + 1 + n <= SPACE
    ensures Holding(Diagonal(cfg, n), BlockTexts(cfg, n), HostTexts(cfg.sources.addr + 1, n))
  {
    hide AddrText, PrefixText, GoodConfig, BlockOf, BlockCount, HostCount, Holding;
    HostRange(cfg);
    if n == 0 {
      NothingHeld();
    } else {
      DiagonalHolds(cfg, n - 1);
      DiagonalFresh(cfg, n - 1);
      HoldingOneMore(Diagonal(cfg, n - 1), BlockTexts(cfg, n - 1), HostTexts(cfg.sources.addr + 1, n - 1), BlockOf(cfg, n - 1), SourceOf(cfg, n - 1));
    }
  }

  lemma NothingHeld()
    ensures Holding(Ledger(map[], map[]), {}, {})
  {
  }

  lemma HoldingOneMore(l: Ledger, transits: set<string>, sources: set<string>, p: Prefix, a: Addr)
    requires Holding(l, transits, sources) && AddrText(a) !in sources
    ensures Holding(Added(l, AddrText(a), AddrText(a), Made(p, a)), transits + {PrefixText(p)}, sources + {AddrText(a)})
  {
    hide AddrText, PrefixText;
    var k := AddrText(a);
    var made := Made(p, a);
    assert made.transit == PrefixText(p) && made.source == k;
    hide Made;
    AddedValues(l, k, k, made);
    AddedFacts(l, k, k, made);
    hide Added, Transits, Sources;
  }

  lemma AddedValues(l: Ledger, owner: string, uid: string, a: Allocation)
    requires owner !in l.allocations
    ensures Transits(Added(l, owner, uid, a)) == Transits(l) + {a.transit} && Sources(Added(l, owner, uid, a)) == Sources(l) + {a.source}
  {
    var m := Added(l, owner, uid, a);
    assert forall o :: o in l.allocations ==> m.allocations[o] == l.allocations[o];
    assert m.allocations[owner] == a;
  }

  /** The n-th key is not among the first n. */
  lemma DiagonalFresh(cfg: Config, n: nat)
    requires GoodConfig(cfg) && n < HostCount(cfg)
    ensures 0 <= cfg.sources.addr + 1 && cfg.sources.addr + 1 + n < SPACE
    ensures HostKey(cfg, n) !in HostTexts(cfg.sources.addr + 1, n) && HostKey(cfg, n) != ""
    ensures HostTexts(cfg.sources.addr + 1, n + 1) == HostTexts(cfg.sources.addr + 1, n) + {HostKey(cfg, n)}
  {
    HostRange(cfg);
    var last := SourceOf(cfg, n);
    NonEmptyText(last);
    NextText(cfg.sources.addr + 1, n);
  }

  lemma NonEmptyText(a: Addr)
    ensures AddrText(a) != ""
  {
    GatewayRegistry.TextShape(a);
  }

  lemma NextText(first: int, n: nat)
    requires 0 <= first && first + n < SPACE
    ensures AddrText(first + n) !in HostTexts(first, n)
  {
    hide AddrText;
    HostTextsMembers(first, n);
    if AddrText(first + n) in HostTexts(first, n) {
      var a: Addr :| first <= a < first + n && AddrText(a) == AddrText(first + n);
      AddrTextInjective(a, first + n);
    }
  }

  /** On the diagonal the scan chooses the next block and the next address. */
  lemma DiagonalNext(cfg: Config, n: nat)
    requires GoodConfig(cfg) && n < BlockCount(cfg) && n < HostCount(cfg)
    ensures FirstBlock(BlockOf(cfg, n), Transits(Diagonal(cfg, n)), cfg)
    ensures GatewayRegistry.FirstFree(SourceOf(cfg, n), Sources(Diagonal(cfg, n)), cfg.sources)
  {
    hide Diagonal, HostCount, BlockCount;
    HostRange(cfg);
    DiagonalHolds(cfg, n);
    hide Transits, Sources;
    NextBlock(cfg, n);
    NextSource(cfg, n);
  }

  lemma NextSource(cfg: Config, n: nat)
    requires GoodConfig(cfg) && n < HostCount(cfg)
    ensures 0 <= cfg.sources.addr + 1 && cfg.sources.addr + 1 + n < SPACE
    ensures GatewayRegistry.FirstFree(SourceOf(cfg, n), HostTexts(cfg.sources.addr + 1, n), cfg.sources)
  {
    hide AddrText;
    HostRange(cfg);
    DiagonalFresh(cfg, n);
    HostTextsMembers(cfg.sources.addr + 1, n);
  }

  lemma NextBlock(cfg: Config, n: nat)
    requires GoodConfig(cfg) && n < BlockCount(cfg)
    ensures FirstBlock(BlockOf(cfg, n), BlockTexts(cfg, n), cfg)
  {
    hide PrefixText, GoodConfig;
    BlockIndex(cfg, n);
    BlockTextsMembers(cfg, n);
    if PrefixText(BlockOf(cfg, n)) in BlockTexts(cfg, n) {
      var i: nat :| i < n && PrefixText(BlockOf(cfg, i)) == PrefixText(BlockOf(cfg, n));
      BlocksDiffer(cfg, i, n);
    }
    forall j: nat | j < n && j * Size(cfg.length) < Size(cfg.transit.bits) ensures PrefixText(BlockAt(cfg, j)) in BlockTexts(cfg, n) {
      BlockIndex(cfg, j);
      assert PrefixText(BlockOf(cfg, j)) in BlockTexts(cfg, n);
    }
    assert BlockAt(cfg, n) == BlockOf(cfg, n);
  }

  /** As long as its pairs are clear, a diagonal ledger is readable; the first pair that is not ends that. */
  lemma {:induction false} DiagonalReadable(cfg: Config, n: nat)
    requires GoodConfig(cfg) && n <= BlockCount(cfg) && n <= HostCount(cfg)
    requires forall i: nat :: i < n ==> PairClear(cfg, i)
    ensures Readable(Diagonal(cfg, n), cfg)
  {
    hide GoodConfig, PairClear, BlockCount, HostCount;
    if n == 0 {
      assert Diagonal(cfg, 0) == Ledger(map[], map[]);
    } else {
      hide Readable, Diagonal;
      DiagonalReadable(cfg, n - 1);
      DiagonalStep(cfg, n - 1);
    }
  }

  lemma DiagonalStep(cfg: Config, n: nat)
    requires GoodConfig(cfg) && n < BlockCount(cfg) && n < HostCount(cfg) && Readable(Diagonal(cfg, n), cfg)
    ensures HostKey(cfg, n) != "" && HostKey(cfg, n) !in Diagonal(cfg, n).allocations
    ensures HostKey(cfg, n) !in Diagonal(cfg, n).bindings.Values
    ensures Fresh(Diagonal(cfg, n), cfg, Made(BlockOf(cfg, n), SourceOf(cfg, n)))
    ensures Diagonal(cfg, n + 1) == Added(Diagonal(cfg, n), HostKey(cfg, n), HostKey(cfg, n), Made(BlockOf(cfg, n), SourceOf(cfg, n)))
    ensures Readable(Diagonal(cfg, n + 1), cfg) <==> PairClear(cfg, n)
  {
    hide AddrText, PrefixText, Readable, FirstBlock, GatewayRegistry.FirstFree, Made, Added, BlockCount, HostCount, BlockOf, Transits, Sources, GoodConfig;
    DiagonalHolds(cfg, n);
    DiagonalFresh(cfg, n);
    DiagonalNext(cfg, n);
    AllocationReadable(Diagonal(cfg, n), cfg, HostKey(cfg, n), HostKey(cfg, n), BlockOf(cfg, n), SourceOf(cfg, n));
  }

  /** In unsafe pools the diagonal runs into the link-local range while both pools last. */
  lemma FirstUnclear(cfg: Config) returns (n: nat)
    requires GoodConfig(cfg) && !SafePools(cfg)
    ensures n < BlockCount(cfg) && n < HostCount(cfg) && !PairClear(cfg, n)
    ensures forall i: nat :: i < n ==> PairClear(cfg, i)
  {
    hide Clear, GatewayRegistry.AvoidsLinkLocal;
    HostRange(cfg);
    var t, s := GatewayRegistry.AvoidsLinkLocal(cfg.transit), GatewayRegistry.AvoidsLinkLocal(cfg.sources);
    if !t {
      BelowRange(cfg);
    }
    if !s {
      GatewayRegistry.LinkLocalInside(cfg.sources);
    }
    n := if !t && (s || BlocksBelow(cfg) <= HostsBelow(cfg)) && HostCount(cfg) > BlocksBelow(cfg) then BlocksBelow(cfg) else HostsBelow(cfg);
    if !t {
      BlocksClear(cfg, n);
    }
    SourceBelow(cfg, n, s);
    forall i: nat | i < n ensures PairClear(cfg, i) {
      if t {
        BlockIndex(cfg, i);
        AvoidsClear(cfg, BlockOf(cfg, i));
      } else {
        BlocksClear(cfg, i);
      }
      SourceBelow(cfg, i, s);
    }
  }

  lemma SourceBelow(cfg: Config, i: nat, avoids: bool)
    requires GoodConfig(cfg) && i < HostCount(cfg) && (avoids <==> GatewayRegistry.AvoidsLinkLocal(cfg.sources))
    ensures avoids || i < HostsBelow(cfg) ==> !LinkLocal(SourceOf(cfg, i))
    ensures i == HostsBelow(cfg) ==> LinkLocal(SourceOf(cfg, i))
  {
    HostRange(cfg);
    var a := SourceOf(cfg, i);
    GatewayRegistry.ContainsIsRange(cfg.sources, a);
    if avoids {
      InsideAvoids(cfg.sources, a);
    }
  }

  /** Every allocation keeps every readable ledger readable exactly for the safe pools: in any other configuration owners
      simply arriving one after the other fill a readable ledger from which the next allocation cannot be read back. */
  lemma LedgersThatStayReadable(cfg: Config)
    requires GoodConfig(cfg)
    ensures SafePools(cfg) <==>
            forall l, owner, uid, r :: Readable(l, cfg) && owner != "" && uid != "" && Allocates(l, cfg, owner, uid, r) && r.Ok? ==> Readable(r.value, cfg)
  {
    if SafePools(cfg) {
      forall l, owner, uid, r | Readable(l, cfg) && owner != "" && uid != "" && Allocates(l, cfg, owner, uid, r) && r.Ok?
        ensures Readable(r.value, cfg)
      {
        SafeAllocation(l, cfg, owner, uid, r);
      }
    } else {
      var n := FirstUnclear(cfg);
      DiagonalReadable(cfg, n);
      DiagonalStep(cfg, n);
      NextAllocated(cfg, n);
    }
  }

  lemma NextAllocated(cfg: Config, n: nat)
    requires GoodConfig(cfg) && n < BlockCount(cfg) && n < HostCount(cfg) && Readable(Diagonal(cfg, n), cfg)
    ensures Allocates(Diagonal(cfg, n), cfg, HostKey(cfg, n), HostKey(cfg, n), Ok(Diagonal(cfg, n + 1)))
  {
    hide AddrText, PrefixText, Readable, Made, Added;
    DiagonalStep(cfg, n);
    DiagonalNext(cfg, n);
    GatewayRegistry.NotAllUsed(SourceOf(cfg, n), Sources(Diagonal(cfg, n)), cfg.sources);
  }

  /** 169.252.0.0/14 cut into /29 blocks is safe beside the two sources of 10.0.0.0/30, and not beside 10.0.0.0/8. */
  lemma SafeAndUnsafe()
    ensures var small := Config(Prefix(0xA9FC_0000, 14), 29, Prefix(0x0A00_0000, 30)); GoodConfig(small) && SafePools(small)
    ensures var large := Config(Prefix(0xA9FC_0000, 14), 29, Prefix(0x0A00_0000, 8)); GoodConfig(large) && !SafePools(large)
  {
    GatewayRegistry.LegalPoolWithLinkLocal();
    GatewayRegistry.Size8();
    assert Size(29) == 8 && Size(30) == 4;
  }
}
