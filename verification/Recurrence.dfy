/** A run of the authority and two locations in which a recurring snapshot releases a claim too early
    (internal/platformcontroller/reconciler.go, internal/platformplan/plan.go). */
module Recurrence {
  import opened Wrappers
  import opened Ordering
  import opened Admission
  import opened Links
  import opened Authority
  import Snapshot
  import SiteConfig
  import Ipv4

  /** The prefixes of three subnets, "z" and "x" at location "a" and "y" at "b", and the gateways of both locations. */
  datatype Scene = Scene(x: string, y: string, z: string, ga: seq<Snapshot.Gateway>, gb: seq<Snapshot.Gateway>)

  /** Legal prefixes that do not overlap, and legal inventories of two gateways or more, as connected locations have. */
  ghost predicate Legal(g: Scene) {
    && SiteConfig.Network(g.x).Some? && SiteConfig.Network(g.y).Some? && SiteConfig.Network(g.z).Some?
    && !Clash(g.x, g.y) && !Clash(g.x, g.z) && !Clash(g.y, g.z)
    && Snapshot.ValidInventory(g.ga) && Snapshot.ValidInventory(g.gb) && |g.ga| >= 2 && |g.gb| >= 2
  }

  const VPC := Snapshot.Vpc("v", "vpc", "project", "")
  const CFG := Snapshot.Config(map["default" := "wireguard-bgp"], {"a", "b"})
  const NAMES := ["a", "b"]
  const ORDER := ["z"] + ["y"] + ["x"]

  function Pools(g: Scene): (ctx: Context) {
    Context("v", map["a" := [g.z, g.x], "b" := [g.y]], {}, false)
  }

  function Read(g: Scene, listing: seq<string>): (r: Reading) {
    Reading(ORDER, Pools(g), VPC, CFG, listing, NAMES)
  }

  // ---- Subnets and claims ----

  function New(uid: string, cidr: string, location: string): (s: Subnet) {
    Subnet(uid, cidr, location, "", false, false)
  }

  function Held(uid: string, cidr: string, location: string): (s: Subnet) {
    New(uid, cidr, location).(guarded := true)
  }

  function Z(g: Scene): (s: Subnet) {
    Held("z", g.z, "a")
  }

  function Y(g: Scene): (s: Subnet) {
    Held("y", g.y, "b")
  }

  function X(g: Scene): (s: Subnet) {
    Held("x", g.x, "a")
  }

  function Dying(g: Scene): (s: Subnet) {
    X(g).(deleting := true)
  }

  /** Every subnet of the list is guarded, valid and holds its claim. */
  ghost predicate AllHeld(list: seq<Subnet>, claims: seq<Claim>, ctx: Context) {
    forall s :: s in list ==> s.guarded && Valid(s, ctx) && Own(claims, s.uid) == Some(ClaimOf(s))
  }

  lemma {:induction false} AdmitsHeld(list: seq<Subnet>, claims: seq<Claim>, ctx: Context)
    requires AllHeld(list, claims, ctx)
    ensures Admit(list, claims, ctx) == Admitted(claims, list)
  {
    hide Valid, Clash;
    if list != [] {
      var front, last := list[..|list| - 1], list[|list| - 1];
      AdmitsHeld(front, claims, ctx);
      assert last in list && front + [last] == list;
    }
  }

  lemma GuardedValid(n: Subnet, ctx: Context)
    requires Valid(n, ctx)
    ensures Valid(n.(guarded := true), ctx)
  {
  }

  /** A new subnet is guarded first, and claims its prefix in the next pass. */
  lemma AdmitsNew(list: seq<Subnet>, claims: seq<Claim>, ctx: Context, n: Subnet)
    requires AllHeld(list, claims, ctx) && Valid(n, ctx) && !n.guarded && !n.deleting && n.location !in ctx.detaching && !ctx.vpcDeleting
    requires Own(claims, n.uid).None? && forall c :: c in claims ==> !Clash(n.cidr, c.cidr)
    ensures Admit(list + [n], claims, ctx) == Guard(n.uid)
    ensures var m := n.(guarded := true); Admit(list + [m], claims, ctx) == Admitted(claims + [ClaimOf(m)], list + [m])
  {
    GuardedValid(n, ctx);
    hide Valid, Clash, AllHeld, Own;
    var m := n.(guarded := true);
    assert (list + [n])[..|list|] == list && (list + [m])[..|list|] == list;
    AdmitsHeld(list, claims, ctx);
  }

  lemma RunMore(events: seq<Event>, e: Event)
    ensures Run(events + [e]) == Next(Run(events), e)
  {
    assert (events + [e])[..|events|] == events;
  }

  lemma Submits(s: System, n: Subnet)
    requires n.uid !in s.born && !n.guarded && !n.deleting
    ensures Next(s, Submit(n)) == s.(subnets := s.subnets[n.uid := n], born := s.born + {n.uid})
  {
  }

  lemma Guards(s: System, ctx: Context, uid: string)
    requires Admit(Listed(s.subnets, ORDER), s.claims, ctx) == Guard(uid) && uid in s.subnets
    ensures Next(s, Event.Pass(ORDER, ctx)) == s.(subnets := s.subnets[uid := s.subnets[uid].(guarded := true)])
  {
    hide Admit, Listed;
  }

  lemma Claims(s: System, ctx: Context, claims: seq<Claim>, accepted: seq<Subnet>)
    requires Admit(Listed(s.subnets, ORDER), s.claims, ctx) == Admitted(claims, accepted)
    ensures Next(s, Event.Pass(ORDER, ctx)) == s.(claims := claims)
  {
    hide Admit, Listed;
  }

  /** Submission, guard and claim of one more subnet. */
  lemma Joins(events: seq<Event>, list: seq<Subnet>, g: Scene, n: Subnet) returns (more: seq<Event>)
    requires var s := Run(events);
      && AllHeld(list, s.claims, Pools(g)) && Listed(s.subnets, ORDER) == list && n.uid !in s.born
      && Valid(n, Pools(g)) && n == New(n.uid, n.cidr, n.location)
      && Own(s.claims, n.uid).None? && (forall c :: c in s.claims ==> !Clash(n.cidr, c.cidr))
      && forall m: Subnet :: m.uid == n.uid ==> Listed(s.subnets[n.uid := m], ORDER) == list + [m]
    ensures var s := Run(events); var m := n.(guarded := true);
      Run(more) == s.(subnets := s.subnets[n.uid := m], born := s.born + {n.uid}, claims := s.claims + [ClaimOf(m)])
  {
    hide Run, Next, Valid, AllHeld, Admit, Clash, Listed, Own;
    var s, m := Run(events), n.(guarded := true);
    AdmitsNew(list, s.claims, Pools(g), n);
    var e1, e2 := Submit(n), Event.Pass(ORDER, Pools(g));
    RunMore(events, e1);
    RunMore(events + [e1], e2);
    RunMore(events + [e1] + [e2], e2);
    more := events + [e1] + [e2] + [e2];
    Submits(s, n);
    var s1 := s.(subnets := s.subnets[n.uid := n], born := s.born + {n.uid});
    Guards(s1, Pools(g), n.uid);
    var s2 := s1.(subnets := s.subnets[n.uid := m]);
    assert s1.subnets[n.uid := m] == s2.subnets;
    Claims(s2, Pools(g), s.claims + [ClaimOf(m)], list + [m]);
  }

  function One(subnets: map<string, Subnet>, uid: string): (r: seq<Subnet>) {
    if uid in subnets then [subnets[uid]] else []
  }

  lemma ListedAll(subnets: map<string, Subnet>)
    ensures Listed(subnets, ORDER) == One(subnets, "z") + One(subnets, "y") + One(subnets, "x")
  {
    assert ORDER[..2] == ["z"] + ["y"] && ORDER[..2][..1] == ["z"] && ORDER[..2][..1][..0] == [];
    assert Listed(subnets, []) == [];
    assert Listed(subnets, ["z"]) == One(subnets, "z");
  }

  /** A prefix lies in a pool of its own. */
  lemma InOwnPool(cidr: string)
    requires SiteConfig.Network(cidr).Some?
    ensures InPool(SiteConfig.Network(cidr).value, cidr)
  {
  }

  lemma AllValid(g: Scene, s: Subnet)
    requires Legal(g) && s.vpcUid == ""
    requires (s.location == "a" && s.cidr in {g.z, g.x}) || (s.location == "b" && s.cidr == g.y)
    ensures Valid(s, Pools(g))
  {
    hide InPool, SiteConfig.Network, Clash;
    InOwnPool(s.cidr);
    assert s.cidr in Pools(g).pools[s.location];
  }

  const BORN := {"z", "y"}

  function Base(g: Scene): (subnets: map<string, Subnet>) {
    map["z" := Z(g), "y" := Y(g)]
  }

  function Two(g: Scene): (claims: seq<Claim>) {
    [ClaimOf(Z(g))] + [ClaimOf(Y(g))]
  }

  function Three(g: Scene): (claims: seq<Claim>) {
    Two(g) + [ClaimOf(X(g))]
  }

  predicate Ours(g: Scene, s: Subnet) {
    s == Z(g) || s == Y(g) || s == X(g) || s == Dying(g)
  }

  lemma SceneHeld(g: Scene, list: seq<Subnet>, claims: seq<Claim>)
    requires Legal(g) && (forall s :: s in list ==> Ours(g, s) && ClaimOf(s) in claims)
    requires forall c :: c in claims ==> c in Three(g)
    ensures AllHeld(list, claims, Pools(g))
  {
    hide Valid, Own, Legal;
    forall s | s in list ensures s.guarded && Valid(s, Pools(g)) && Own(claims, s.uid) == Some(ClaimOf(s)) {
      AllValid(g, s);
    }
  }

  /** The three subnets are valid, and what they claim does not clash. */
  lemma Fits(g: Scene)
    requires Legal(g)
    ensures Valid(New("x", g.x, "a"), Pools(g)) && Valid(New("y", g.y, "b"), Pools(g)) && Valid(New("z", g.z, "a"), Pools(g))
    ensures !Clash(g.y, g.z) && !Clash(g.x, g.y) && !Clash(g.x, g.z)
    ensures Pools(g).detaching == {} && !Pools(g).vpcDeleting
    ensures forall claims, n: Subnet :: (forall c :: c in claims ==> c in Three(g) && c.uid != n.uid) ==> Own(claims, n.uid).None?
  {
    hide Valid, InPool, SiteConfig.Network, Clash, Snapshot.ValidInventory;
    AllValid(g, New("x", g.x, "a"));
    AllValid(g, New("y", g.y, "b"));
    AllValid(g, New("z", g.z, "a"));
  }

  lemma RunNone()
    ensures Run([]) == EMPTY
  {
  }

  /** The subnets "z" and "y" are admitted. */
  lemma Begins(g: Scene) returns (events: seq<Event>)
    requires Legal(g)
    ensures Run(events) == System(Base(g), BORN, Two(g), map[], [])
  {
    hide Legal, Valid, Admit, Clash, SiteConfig.Network, Next, Listed, Own, AllHeld, Pools, Run;
    var y := New("y", g.y, "b");
    Fits(g);
    var first := BeginsZ(g);
    SceneHeld(g, [Z(g)], [ClaimOf(Z(g))]);
    ListedAll(map["z" := Z(g)]);
    forall m: Subnet ensures Listed(map["z" := Z(g)]["y" := m], ORDER) == [Z(g)] + [m] {
      ListedAll(map["z" := Z(g)]["y" := m]);
    }
    events := Joins(first, [Z(g)], g, y);
    assert Base(g) == map["z" := Z(g)]["y" := Y(g)];
  }

  lemma BeginsZ(g: Scene) returns (events: seq<Event>)
    requires Legal(g)
    ensures Run(events) == System(map["z" := Z(g)], {"z"}, [ClaimOf(Z(g))], map[], [])
  {
    hide Legal, Valid, Admit, Clash, SiteConfig.Network, Next, Listed, Own, AllHeld, Pools, Run;
    var z := New("z", g.z, "a");
    Fits(g);
    SceneHeld(g, [], []);
    RunNone();
    ListedAll(map[]);
    forall m: Subnet ensures Listed(map["z" := m], ORDER) == [m] {
      ListedAll(map["z" := m]);
    }
    events := Joins([], [], g, z);
  }

  /** The subnet "x" is submitted, guarded and claimed. */
  lemma Enters(g: Scene, events: seq<Event>, links: map<string, Link>) returns (more: seq<Event>)
    requires Legal(g) && Run(events) == System(Base(g), BORN, Two(g), links, [])
    ensures Run(more) == System(Base(g)["x" := X(g)], BORN + {"x"}, Three(g), links, [])
  {
    hide Legal, Valid, Admit, Clash, SiteConfig.Network, Next, Listed, Own, AllHeld, Pools, Run;
    var x := New("x", g.x, "a");
    Fits(g);
    SceneHeld(g, [Z(g)] + [Y(g)], Two(g));
    ListedAll(Base(g));
    forall m: Subnet ensures Listed(Base(g)["x" := m], ORDER) == [Z(g)] + [Y(g)] + [m] {
      ListedAll(Base(g)["x" := m]);
    }
    more := Joins(events, [Z(g)] + [Y(g)], g, x);
  }

  // ---- What the locations do ----

  /** A link without the history of its statuses. */
  datatype View = View(issued: seq<Content>, at: Option<nat>, now: Status, told: Status, touched: set<string>)

  function Look(l: Link): (v: View) {
    View(l.issued, l.at, Now(l), Told(l), l.touched)
  }

  predicate Tidy(l: Link) {
    (l.told.Some? ==> l.told.value < |l.past|) && (l.at.Some? ==> l.at.value < |l.issued|)
  }

  function LinkAll(l: Link, moves: seq<LinkEvent>): (m: Link) {
    if moves == [] then l else LinkNext(LinkAll(l, moves[..|moves| - 1]), moves[|moves| - 1])
  }

  function Sites(location: string, moves: seq<LinkEvent>): (events: seq<Event>) {
    if moves == [] then [] else Sites(location, moves[..|moves| - 1]) + [Site(location, moves[|moves| - 1])]
  }

  lemma SiteStep(s: System, location: string, move: LinkEvent)
    requires location in s.links && !move.Issue?
    ensures Next(s, Site(location, move)) == s.(links := s.links[location := LinkNext(s.links[location], move)])
  {
    hide LinkNext;
  }

  lemma {:induction false} SitesRun(events: seq<Event>, location: string, moves: seq<LinkEvent>)
    requires location in Run(events).links && forall m :: m in moves ==> !m.Issue?
    ensures Run(events + Sites(location, moves)) == Run(events).(links := Run(events).links[location := LinkAll(Run(events).links[location], moves)])
  {
    hide Run, Next, LinkNext;
    if moves == [] {
      assert events + Sites(location, moves) == events;
      assert Run(events).links[location := Run(events).links[location]] == Run(events).links;
    } else {
      var front, last := moves[..|moves| - 1], moves[|moves| - 1];
      SitesRun(events, location, front);
      assert events + Sites(location, moves) == events + Sites(location, front) + [Site(location, last)];
      RunMore(events + Sites(location, front), Site(location, last));
      SiteStep(Run(events + Sites(location, front)), location, last);
    }
  }

  lemma ThreeMoves(l: Link, a: LinkEvent, b: LinkEvent, c: LinkEvent)
    ensures LinkAll(l, [a, b, c]) == LinkNext(LinkNext(LinkNext(l, a), b), c)
  {
    hide LinkNext;
    assert [a, b, c][..2] == [a, b] && [a, b][..1] == [a] && [a][..0] == [];
    assert LinkAll(l, []) == l && LinkAll(l, [a]) == LinkNext(l, a);
  }

  lemma AcceptLook(l: Link, k: nat)
    requires Tidy(l) && MayAccept(l, k)
    ensures var m := LinkNext(l, Accept(k)); Tidy(m) && Look(m) == Look(l).(at := Some(k)) && m.past == l.past
  {
  }

  lemma ApplyLook(l: Link)
    requires Tidy(l) && l.at.Some?
    ensures var c := l.issued[l.at.value]; var m := LinkNext(l, Apply);
      Tidy(m) && Look(m) == View(l.issued, l.at, Done(c, l.at.value, Now(l).gateways), Told(l), Configured(c)) && |m.past| == |l.past| + 1
  {
    hide Configured, Active;
  }

  lemma WorkLook(l: Link, cidrs: set<string>, natives: set<string>, gateways: seq<Snapshot.Gateway>)
    requires Tidy(l) && MayWork(l, cidrs, natives)
    ensures var m := LinkNext(l, Work(cidrs, natives, gateways));
      Tidy(m) && Look(m) == Look(l).(now := Status(Now(l).applied, natives, gateways), touched := l.touched + cidrs) && |m.past| == |l.past| + 1
  {
    hide MayWork;
  }

  lemma ReportLook(l: Link)
    requires Tidy(l) && l.past != []
    ensures var m := LinkNext(l, Report(|l.past| - 1)); Tidy(m) && Look(m) == Look(l).(told := Now(l))
  {
  }

  function Done(c: Content, k: nat, gateways: seq<Snapshot.Gateway>): (s: Status) {
    Status(Some(k), Active(c), gateways)
  }

  /** A location accepts snapshot k, applies it completely and reports it. */
  function Acking(l: Link, k: nat): (moves: seq<LinkEvent>) {
    [Accept(k), Apply, Report(|l.past|)]
  }

  lemma Acks(l: Link, k: nat)
    requires Tidy(l) && MayAccept(l, k)
    ensures var m := LinkAll(l, Acking(l, k)); var c := l.issued[k];
      Tidy(m) && Look(m) == View(l.issued, Some(k), Done(c, k, Now(l).gateways), Done(c, k, Now(l).gateways), Configured(c))
  {
    hide LinkNext, Configured, Active, MayAccept;
    ThreeMoves(l, Accept(k), Apply, Report(|l.past|));
    AcceptLook(l, k);
    var l1 := LinkNext(l, Accept(k));
    ApplyLook(l1);
    ReportLook(LinkNext(l1, Apply));
  }

  /** A location accepts its first snapshot and reports its gateways. */
  function Opening(gateways: seq<Snapshot.Gateway>): (moves: seq<LinkEvent>) {
    [Accept(0), Work({}, {}, gateways), Report(0)]
  }

  lemma Opens(c: Content, gateways: seq<Snapshot.Gateway>)
    ensures var m := LinkAll(NEW_LINK.(issued := [c]), Opening(gateways));
      Tidy(m) && Look(m) == View([c], Some(0), Status(None, {}, gateways), Status(None, {}, gateways), {})
  {
    var l := NEW_LINK.(issued := [c]);
    assert MayAccept(l, 0) && Now(l) == BLANK;
    hide LinkNext, Configured, Active, MayAccept;
    ThreeMoves(l, Accept(0), Work({}, {}, gateways), Report(0));
    AcceptLook(l, 0);
    var l1 := LinkNext(l, Accept(0));
    WorkLook(l1, {}, {}, gateways);
    ReportLook(LinkNext(l1, Work({}, {}, gateways)));
  }

  /** A location accepts snapshot k and configures some of its prefixes without getting done; the last move repeats. */
  function Straying(l: Link, k: nat, cidrs: set<string>): (moves: seq<LinkEvent>) {
    [Accept(k), Accept(k), Work(cidrs, Now(l).natives, Now(l).gateways)]
  }

  lemma Strays(l: Link, k: nat, cidrs: set<string>)
    requires Tidy(l) && MayAccept(l, k) && cidrs <= Configured(l.issued[k])
    ensures var m := LinkAll(l, Straying(l, k, cidrs));
      Tidy(m) && Look(m) == Look(l).(at := Some(k), touched := l.touched + cidrs)
  {
    hide LinkNext, Configured, Active;
    ThreeMoves(l, Accept(k), Accept(k), Work(cidrs, Now(l).natives, Now(l).gateways));
    AcceptLook(l, k);
    var l1 := LinkNext(l, Accept(k));
    AcceptLook(l1, k);
    WorkLook(LinkNext(l1, Accept(k)), cidrs, Now(l).natives, Now(l).gateways);
  }

  lemma Issues(l: Link, c: Content)
    requires Tidy(l)
    ensures var m := LinkNext(l, Issue(c)); Tidy(m) && Look(m) == Look(l).(issued := l.issued + [c])
  {
  }

  // ---- What the compiler wants ----

  /** A subnet as it stands in its location's snapshot. */
  function In(s: Subnet): (b: Snapshot.BindingSubnet) {
    Snapshot.Bound(Snapshot.Subnet(s.uid, s.uid, s.cidr, s.location, "v", s.deleting))
  }

  function AllIn(list: seq<Subnet>): (r: seq<Snapshot.BindingSubnet>) {
    if list == [] then [] else AllIn(list[..|list| - 1]) + [In(list[|list| - 1])]
  }

  /** "x" as it may stand: not there, there, or going. */
  predicate Third(g: Scene, third: seq<Subnet>) {
    third == [] || third == [X(g)] || third == [Dying(g)]
  }

  function Everything(g: Scene, third: seq<Subnet>): (list: seq<Subnet>) {
    [Z(g)] + [Y(g)] + third
  }

  function AtA(g: Scene, third: seq<Subnet>): (r: seq<Snapshot.BindingSubnet>) {
    [In(Z(g))] + AllIn(third)
  }

  function ContentA(g: Scene, third: seq<Subnet>, gateways: seq<Snapshot.Gateway>): (c: Content) {
    Snapshot.Content("v", "vpc", "project", "a", "default", "wireguard-bgp", Sort(AtA(g, third), Snapshot.UidKey), NAMES,
                     Sort([Snapshot.Remote("b", g.y)], Snapshot.RemoteKey), Sort(Snapshot.PeersAt(gateways, "b", "a"), Snapshot.PeerKey), false)
  }

  function ContentB(g: Scene, exports: seq<Snapshot.Remote>, gateways: seq<Snapshot.Gateway>): (c: Content) {
    Snapshot.Content("v", "vpc", "project", "b", "default", "wireguard-bgp", Sort([In(Y(g))], Snapshot.UidKey), NAMES,
                     Sort(exports, Snapshot.RemoteKey), Sort(Snapshot.PeersAt(gateways, "a", "b"), Snapshot.PeerKey), false)
  }

  lemma LocalsMore(list: seq<Subnet>, s: Subnet, location: string)
    ensures Snapshot.Locals(VPC, Bind(list + [s], "v"), location) ==
            Snapshot.Locals(VPC, Bind(list, "v"), location) + if s.location == location then [In(s)] else []
  {
    hide Snapshot.FirstHost;
    var t := Snapshot.Subnet(s.uid, s.uid, s.cidr, s.location, "v", s.deleting);
    assert Bind(list + [s], "v") == Bind(list, "v") + [t];
    assert (Bind(list, "v") + [t])[..|list|] == Bind(list, "v");
  }

  lemma LocalsSplit(g: Scene, third: seq<Subnet>)
    requires Third(g, third)
    ensures Snapshot.Locals(VPC, Bind(Everything(g, third), "v"), "a") == AtA(g, third)
    ensures Snapshot.Locals(VPC, Bind(Everything(g, third), "v"), "b") == [In(Y(g))]
  {
    hide Snapshot.Locals, In, Bind;
    assert [] + [Z(g)] == [Z(g)];
    LocalsNone("a");
    LocalsNone("b");
    LocalsMore([], Z(g), "a");
    LocalsMore([], Z(g), "b");
    LocalsMore([Z(g)], Y(g), "a");
    LocalsMore([Z(g)], Y(g), "b");
    if third == [] {
      assert Everything(g, third) == [Z(g)] + [Y(g)];
    } else {
      LocalsMore([Z(g)] + [Y(g)], third[0], "a");
      LocalsMore([Z(g)] + [Y(g)], third[0], "b");
      assert third == [third[0]] && third[..0] == [];
      assert AllIn(third[..0]) == [];
    }
  }

  lemma LocalsNone(location: string)
    ensures Snapshot.Locals(VPC, Bind([], "v"), location) == []
  {
    assert Bind([], "v") == [];
  }

  /** The bindings listed are of these two locations and carry these gateways. */
  ghost predicate Known(s: System, listing: seq<string>, ga: seq<Snapshot.Gateway>, gb: seq<Snapshot.Gateway>) {
    var e := Bindings(s.links, listing);
    && Distinct(listing) && (forall l :: l in listing <==> l in s.links)
    && (forall b :: b in e ==> b.vpcUid == "v" && b.namespace == "project" && b.spec.content.location in {"a", "b"} && Snapshot.ValidInventory(b.gateways))
    && (forall subnets :: Snapshot.Locals(VPC, subnets, "b") != [] ==> Snapshot.Peers(VPC, subnets, e, "a") == Snapshot.PeersAt(gb, "b", "a"))
    && (forall subnets :: Snapshot.Locals(VPC, subnets, "a") != [] ==> Snapshot.Peers(VPC, subnets, e, "b") == Snapshot.PeersAt(ga, "a", "b"))
  }

  lemma NamesListed()
    ensures Listing(NAMES, {"a", "b"}, Self)
  {
    assert !Below("b", "a");
  }

  lemma Decides(g: Scene, s: System, listing: seq<string>, third: seq<Subnet>)
    requires Legal(g) && Third(g, third) && Listed(s.subnets, ORDER) == Everything(g, third)
    requires s.claims == Three(g) || (s.claims == Two(g) && third == [])
    ensures Decided(s, Read(g, listing)) && Accepted(s, Read(g, listing)) == Everything(g, third)
  {
    hide Legal, AllHeld, Admit, Listed, Pools;
    SceneHeld(g, Everything(g, third), s.claims);
    AdmitsHeld(Everything(g, third), s.claims, Pools(g));
  }

  lemma Networks(g: Scene)
    requires Legal(g)
    ensures SiteConfig.Network(g.x).Some? && SiteConfig.Network(g.y).Some? && SiteConfig.Network(g.z).Some?
  {
  }

  lemma Placed(g: Scene, s: Subnet)
    requires Legal(g) && Ours(g, s)
    ensures s.cidr in {g.x, g.y, g.z} && SiteConfig.Network(s.cidr).Some? && s.location in {"a", "b"}
  {
    hide Legal, SiteConfig.Network;
    Networks(g);
  }

  lemma Places(g: Scene, third: seq<Subnet>)
    requires Legal(g) && Third(g, third)
    ensures forall t :: t in Bind(Everything(g, third), "v") ==> Snapshot.Placeable(t, CFG)
    ensures Snapshot.SubnetLocations(VPC, Bind(Everything(g, third), "v")) == {"a", "b"}
  {
    hide Legal, SiteConfig.Network, Ours, Everything, Third, Bind;
    var list, all := Everything(g, third), Bind(Everything(g, third), "v");
    FirstTwo(g, third);
    assert all[0] in all && all[1] in all;
    forall i | 0 <= i < |all| ensures Snapshot.Placeable(all[i], CFG) && all[i].location in {"a", "b"} && Snapshot.Belongs(VPC, all[i]) {
      assert Ours(g, list[i]) by { AllOurs(g, third, i); }
      Placed(g, list[i]);
      BoundVpc(list, i);
    }
  }

  lemma AllOurs(g: Scene, third: seq<Subnet>, i: nat)
    requires Third(g, third) && i < |Everything(g, third)|
    ensures Ours(g, Everything(g, third)[i])
  {
  }

  lemma BoundVpc(list: seq<Subnet>, i: nat)
    requires i < |list|
    ensures Bind(list, "v")[i].vpcUid == "v"
  {
  }

  lemma FirstTwo(g: Scene, third: seq<Subnet>)
    ensures var all := Bind(Everything(g, third), "v"); |all| >= 2 && all[0].location == "a" && all[1].location == "b"
  {
  }

  lemma KnownBuilds(s: System, listing: seq<string>, ga: seq<Snapshot.Gateway>, gb: seq<Snapshot.Gateway>, subnets: seq<Snapshot.Subnet>)
    requires Known(s, listing, ga, gb) && Snapshot.SubnetLocations(VPC, subnets) == {"a", "b"}
    requires forall t :: t in subnets ==> Snapshot.Placeable(t, CFG)
    ensures var e := Bindings(s.links, listing);
      Snapshot.Buildable(VPC, subnets, e, CFG) && Snapshot.NameSet(VPC, subnets, e) == {"a", "b"}
  {
    hide Bindings, Snapshot.Placeable, Snapshot.ValidInventory, Snapshot.SubnetLocations, Snapshot.ReadsInventory, Snapshot.Locals,
      Snapshot.Peers, Snapshot.PeersAt;
  }

  lemma KnownPeers(s: System, listing: seq<string>, ga: seq<Snapshot.Gateway>, gb: seq<Snapshot.Gateway>, subnets: seq<Snapshot.Subnet>)
    requires Known(s, listing, ga, gb)
    requires Snapshot.Locals(VPC, subnets, "a") != [] && Snapshot.Locals(VPC, subnets, "b") != []
    ensures var e := Bindings(s.links, listing);
      && Snapshot.Peers(VPC, subnets, e, "a") == Snapshot.PeersAt(gb, "b", "a")
      && Snapshot.Peers(VPC, subnets, e, "b") == Snapshot.PeersAt(ga, "a", "b")
    ensures Distinct(listing) && forall l :: l in listing <==> l in s.links
  {
    hide Bindings, Snapshot.ValidInventory, Snapshot.Locals, Snapshot.Peers, Snapshot.PeersAt;
  }

  lemma RemotesBoth(g: Scene, subnets: seq<Snapshot.Subnet>, e: seq<Snapshot.Binding>, third: seq<Subnet>)
    requires Snapshot.Locals(VPC, subnets, "a") == AtA(g, third) && Snapshot.Locals(VPC, subnets, "b") == [In(Y(g))]
    ensures Snapshot.Remotes(VPC, subnets, e, NAMES, "a") == [Snapshot.Remote("b", g.y)]
    ensures Snapshot.Remotes(VPC, subnets, e, NAMES, "b") == Snapshot.Exports(e, "a", AtA(g, third))
    ensures Snapshot.Populated(VPC, subnets, NAMES) == NAMES
  {
    hide Snapshot.Locals, Snapshot.Withdrawn, AtA, In;
    assert AtA(g, third) != [] by { SomeAtA(g, third); }
    YNotDeleting(g);
    assert NAMES[..1] == ["a"] && ["a"][..0] == [] && [In(Y(g))][..0] == [];
    assert Snapshot.Exports(e, "b", []) == [];
    assert Snapshot.Remotes(VPC, subnets, e, [], "a") == [] && Snapshot.Remotes(VPC, subnets, e, [], "b") == [];
    assert Snapshot.Remotes(VPC, subnets, e, ["a"], "a") == [];
    assert Snapshot.Populated(VPC, subnets, []) == [] && Snapshot.Populated(VPC, subnets, ["a"]) == ["a"];
  }

  lemma SomeAtA(g: Scene, third: seq<Subnet>)
    ensures AtA(g, third) != []
  {
  }

  lemma YNotDeleting(g: Scene)
    ensures !In(Y(g)).deleting && In(Y(g)).cidr == g.y
  {
  }

  /** What the pass compiles in a known situation. */
  lemma Compiled(g: Scene, s: System, listing: seq<string>, third: seq<Subnet>, ga: seq<Snapshot.Gateway>, gb: seq<Snapshot.Gateway>)
    requires Legal(g) && Third(g, third) && Listed(s.subnets, ORDER) == Everything(g, third)
    requires s.claims == Three(g) || (s.claims == Two(g) && third == [])
    requires Known(s, listing, ga, gb)
    ensures var r := Read(g, listing);
      && Compiles(s, r) && Accepted(s, r) == Everything(g, third) && Wanted(s, r, 0) == ContentA(g, third, gb)
      && Wanted(s, r, 1) == ContentB(g, Snapshot.Exports(Bindings(s.links, listing), "a", AtA(g, third)), ga)
  {
    hide Legal, Decided, Accepted, Listed, Bindings, Bind, Everything, AtA, In, Snapshot.Locals, Snapshot.Exports, Snapshot.PeersAt,
      Known, Third, Snapshot.Placeable, Snapshot.SubnetLocations, Listing, Snapshot.Peers, Snapshot.Buildable, Snapshot.NameSet,
      Snapshot.Remotes, Snapshot.Populated,
      Two, Three;
    var r, e, subnets := Read(g, listing), Bindings(s.links, listing), Bind(Everything(g, third), "v");
    Decides(g, s, listing, third);
    Places(g, third);
    NamesListed();
    KnownBuilds(s, listing, ga, gb, subnets);
    LocalsSplit(g, third);
    SomeAtA(g, third);
    KnownPeers(s, listing, ga, gb, subnets);
    RemotesBoth(g, subnets, e, third);
  }

  // ---- Single writes ----

  ghost predicate HasContent(l: Link, location: string) {
    l.issued != [] && Latest(l).location == location && Latest(l).vpcUid == "v" && Latest(l).namespace == "project"
    && Latest(l).profile == "wireguard-bgp" && Tidy(l) && Snapshot.ValidInventory(Told(l).gateways)
  }

  lemma KnownNone(s: System)
    requires s.links == map[]
    ensures Known(s, [], [], [])
  {
  }

  lemma KnownOne(s: System, la: Link)
    requires s.links == map["a" := la] && HasContent(la, "a")
    ensures Known(s, ["a"], Told(la).gateways, [])
  {
    hide Snapshot.ValidInventory, Snapshot.Locals, Snapshot.PeersAt;
    assert ["a"][..0] == [] && Bindings(s.links, []) == [];
    assert Bindings(s.links, ["a"]) == [BindingOf(la)];
    PeersOne(BindingOf(la));
    assert Snapshot.PeersAt([], "b", "a") == [] by { NoPeers(); }
  }

  lemma NoPeers()
    ensures Snapshot.PeersAt([], "b", "a") == []
  {
  }

  lemma PeersOne(b: Snapshot.Binding)
    requires b.spec.content.location == "a"
    ensures forall subnets :: Snapshot.Peers(VPC, subnets, [b], "a") == []
    ensures forall subnets :: Snapshot.Locals(VPC, subnets, "a") != [] ==> Snapshot.Peers(VPC, subnets, [b], "b") == Snapshot.PeersAt(b.gateways, "a", "b")
  {
    hide Snapshot.Locals, Snapshot.PeersAt;
    assert [b][..0] == [];
    assert forall subnets, n :: Snapshot.Peers(VPC, subnets, [], n) == [];
  }

  lemma PeersTwo(b: Snapshot.Binding, c: Snapshot.Binding)
    requires b.spec.content.location == "a" && c.spec.content.location == "b"
    ensures forall subnets :: Snapshot.Locals(VPC, subnets, "b") != [] ==> Snapshot.Peers(VPC, subnets, [b, c], "a") == Snapshot.PeersAt(c.gateways, "b", "a")
    ensures forall subnets :: Snapshot.Locals(VPC, subnets, "a") != [] ==> Snapshot.Peers(VPC, subnets, [b, c], "b") == Snapshot.PeersAt(b.gateways, "a", "b")
  {
    PeersOne(b);
    hide Snapshot.Locals, Snapshot.PeersAt;
    assert [b, c][..1] == [b];
  }

  /** Both locations have a binding. */
  ghost predicate Both(s: System, la: Link, lb: Link) {
    s.links == map["a" := la, "b" := lb] && HasContent(la, "a") && HasContent(lb, "b")
  }

  lemma BindingsBoth(s: System, la: Link, lb: Link)
    requires Both(s, la, lb)
    ensures Bindings(s.links, NAMES) == [BindingOf(la), BindingOf(lb)]
  {
    hide Snapshot.ValidInventory, BindingOf;
    assert NAMES[..1] == ["a"] && ["a"][..0] == [];
    assert Bindings(s.links, []) == [] && Bindings(s.links, ["a"]) == [BindingOf(la)];
  }

  lemma KnownBoth(s: System, la: Link, lb: Link)
    requires Both(s, la, lb)
    ensures Known(s, NAMES, Told(la).gateways, Told(lb).gateways)
  {
    hide Snapshot.ValidInventory, Snapshot.Locals, Snapshot.PeersAt, Snapshot.Peers, Bindings;
    BindingsBoth(s, la, lb);
    PeersTwo(BindingOf(la), BindingOf(lb));
  }

  lemma Publishes(s: System, r: Reading, i: nat)
    requires Due(s, r, i)
    ensures Next(s, Publish(r, i)) == s.(links := s.links[r.names[i] := LinkNext(LinkAt(s.links, r.names[i]), Issue(Wanted(s, r, i)))])
  {
    hide Due, Wanted, LinkNext;
  }

  /** The subnets and claims of one situation, with "x" as it may stand. */
  ghost predicate Stands(s: System, g: Scene, third: seq<Subnet>) {
    && Legal(g) && Third(g, third) && Listed(s.subnets, ORDER) == Everything(g, third)
    && (s.claims == Three(g) || (s.claims == Two(g) && third == []))
  }

  function RemoteZ(g: Scene): (r: Snapshot.Remote) {
    Snapshot.Remote("a", g.z)
  }

  function RemoteX(g: Scene): (r: Snapshot.Remote) {
    Snapshot.Remote("a", g.x)
  }

  lemma ExportsAre(g: Scene, e: seq<Snapshot.Binding>, third: seq<Subnet>)
    requires Third(g, third) && (third == [Dying(g)] ==> Snapshot.Withdrawn(e, "a", Snapshot.NativeName("x")))
    ensures Snapshot.Exports(e, "a", AtA(g, third)) == [RemoteZ(g)] + if third == [X(g)] then [RemoteX(g)] else []
  {
    hide Snapshot.Withdrawn, Snapshot.FirstHost;
    assert [In(Z(g))][..0] == [] && Snapshot.Exports(e, "a", []) == [];
    assert Snapshot.Exports(e, "a", [In(Z(g))]) == [RemoteZ(g)];
    if third == [] {
      assert AtA(g, third) == [In(Z(g))];
    } else {
      assert third[..0] == [] && AllIn(third) == [In(third[0])] && AtA(g, third)[..1] == [In(Z(g))];
    }
  }

  lemma Profiles(g: Scene, third: seq<Subnet>, gateways: seq<Snapshot.Gateway>, exports: seq<Snapshot.Remote>)
    ensures ContentA(g, third, gateways).profile == "wireguard-bgp" && ContentB(g, exports, gateways).profile == "wireguard-bgp"
  {
  }

  lemma Replaced(la: Link, lb: Link, l: Link)
    ensures map["a" := la, "b" := lb]["a" := l] == map["a" := l, "b" := lb]
    ensures map["a" := la, "b" := lb]["b" := l] == map["a" := la, "b" := l]
  {
  }

  lemma DueFirst(s: System, r: Reading, l: Link)
    requires Compiles(s, r) && r.names == NAMES && "a" in s.links && s.links["a"] == l && l.issued != []
    requires Latest(l) != Wanted(s, r, 0) && Latest(l).profile == Wanted(s, r, 0).profile
    ensures Due(s, r, 0)
  {
    hide Compiles, Wanted;
  }

  lemma DueSecond(s: System, r: Reading, la: Link, lb: Link)
    requires Compiles(s, r) && r.names == NAMES && s.links == map["a" := la, "b" := lb] && la.issued != [] && lb.issued != []
    requires Latest(la) == Wanted(s, r, 0) && Latest(lb) != Wanted(s, r, 1) && Latest(lb).profile == Wanted(s, r, 1).profile
    ensures Due(s, r, 1)
  {
    hide Compiles, Wanted;
  }

  /** Location "a" is issued the snapshot the pass wants for it. */
  lemma PublishesA(g: Scene, events: seq<Event>, third: seq<Subnet>, la: Link, lb: Link)
    requires var s := Run(events); Stands(s, g, third) && Both(s, la, lb) && Latest(la) != ContentA(g, third, Told(lb).gateways)
    ensures var s := Run(events);
      Run(events + [Publish(Read(g, NAMES), 0)]) == s.(links := map["a" := LinkNext(la, Issue(ContentA(g, third, Told(lb).gateways))), "b" := lb])
  {
    hide Run, Legal, Listed, Third, Everything, Known, Compiles, Wanted, Next, LinkNext, Snapshot.ValidInventory, Snapshot.Exports, AtA,
      Accepted, Bindings, Two, Three, Due, Current, ContentA, ContentB, Tidy, Told;
    var s, r := Run(events), Read(g, NAMES);
    RunMore(events, Publish(r, 0));
    KnownBoth(s, la, lb);
    Compiled(g, s, NAMES, third, Told(la).gateways, Told(lb).gateways);
    Profiles(g, third, Told(lb).gateways, []);
    DueFirst(s, r, la);
    Publishes(s, r, 0);
    Replaced(la, lb, LinkNext(la, Issue(ContentA(g, third, Told(lb).gateways))));
  }

  /** Location "b" is issued the snapshot the pass wants for it, once "a" has its own. */
  lemma PublishesB(g: Scene, events: seq<Event>, third: seq<Subnet>, la: Link, lb: Link, exports: seq<Snapshot.Remote>)
    requires var s := Run(events); Stands(s, g, third) && Both(s, la, lb) && Latest(la) == ContentA(g, third, Told(lb).gateways)
    requires exports == Snapshot.Exports([BindingOf(la), BindingOf(lb)], "a", AtA(g, third)) && Latest(lb) != ContentB(g, exports, Told(la).gateways)
    ensures var s := Run(events);
      Run(events + [Publish(Read(g, NAMES), 1)]) == s.(links := map["a" := la, "b" := LinkNext(lb, Issue(ContentB(g, exports, Told(la).gateways)))])
  {
    hide Run, Legal, Listed, Third, Everything, Known, Compiles, Wanted, Next, LinkNext, Snapshot.ValidInventory, Snapshot.Exports, AtA,
      Accepted, Bindings, Two, Three, BindingOf, Due, Current, ContentA, ContentB, Tidy, Told;
    var s, r := Run(events), Read(g, NAMES);
    RunMore(events, Publish(r, 1));
    KnownBoth(s, la, lb);
    BindingsBoth(s, la, lb);
    Compiled(g, s, NAMES, third, Told(la).gateways, Told(lb).gateways);
    Profiles(g, third, Told(la).gateways, exports);
    DueSecond(s, r, la, lb);
    Publishes(s, r, 1);
    Replaced(la, lb, LinkNext(lb, Issue(ContentB(g, exports, Told(la).gateways))));
  }

  // ---- The run ----

  lemma AHas(g: Scene, l: Link, third: seq<Subnet>, gateways: seq<Snapshot.Gateway>)
    requires Tidy(l) && l.issued != [] && Latest(l) == ContentA(g, third, gateways) && Snapshot.ValidInventory(Told(l).gateways)
    ensures HasContent(l, "a")
  {
    hide Snapshot.ValidInventory;
  }

  lemma BHas(g: Scene, l: Link, exports: seq<Snapshot.Remote>, gateways: seq<Snapshot.Gateway>)
    requires Tidy(l) && l.issued != [] && Latest(l) == ContentB(g, exports, gateways) && Snapshot.ValidInventory(Told(l).gateways)
    ensures HasContent(l, "b")
  {
    hide Snapshot.ValidInventory;
  }

  /** The snapshots of "a" without gateways of "b", and with "x" not there, there and going; and those of "b". */
  function A0(g: Scene): (c: Content) {
    ContentA(g, [], [])
  }

  function A1(g: Scene): (c: Content) {
    ContentA(g, [], g.gb)
  }

  function A2(g: Scene): (c: Content) {
    ContentA(g, [X(g)], g.gb)
  }

  function A3(g: Scene): (c: Content) {
    ContentA(g, [Dying(g)], g.gb)
  }

  function B1(g: Scene): (c: Content) {
    ContentB(g, [RemoteZ(g)], g.ga)
  }

  function B2(g: Scene): (c: Content) {
    ContentB(g, [RemoteZ(g)] + [RemoteX(g)], g.ga)
  }

  lemma {:induction false} PeersCount(gateways: seq<Snapshot.Gateway>, from: string, location: string)
    ensures |Snapshot.PeersAt(gateways, from, location)| == |gateways|
  {
    hide Snapshot.Shown;
    if gateways != [] {
      PeersCount(gateways[..|gateways| - 1], from, location);
    }
  }

  /** Consecutive snapshots differ. */
  lemma Differ(g: Scene)
    requires Legal(g)
    ensures A0(g) != A1(g) && A1(g) != A2(g) && A2(g) != A3(g) && A3(g) != A1(g) && B1(g) != B2(g)
  {
    hide Snapshot.PeersAt, In, Snapshot.ValidInventory, Clash, SiteConfig.Network;
    PeersCount(g.gb, "b", "a");
    PeersCount([], "b", "a");
    assert |A0(g).peers| == 0 && |A1(g).peers| > 0;
    Counts(g);
    DyingDiffers(g);
  }

  lemma Counts(g: Scene)
    ensures |A1(g).subnets| == 1 && |A2(g).subnets| == 2 && |A3(g).subnets| == 2 && |B1(g).remotes| == 1 && |B2(g).remotes| == 2
  {
    hide Snapshot.PeersAt, In;
    AtAThird(g, X(g));
    AtAThird(g, Dying(g));
  }

  lemma AtAThird(g: Scene, s: Subnet)
    ensures AtA(g, [s]) == [In(Z(g))] + [In(s)]
  {
    hide In;
    assert [s][..0] == [] && AllIn([]) == [];
  }

  lemma Sorted(g: Scene, third: seq<Subnet>, gateways: seq<Snapshot.Gateway>)
    ensures forall b :: b in ContentA(g, third, gateways).subnets <==> b in AtA(g, third)
  {
    hide AtA, Snapshot.PeersAt;
    SameMembers(Sort(AtA(g, third), Snapshot.UidKey), AtA(g, third));
  }

  /** The going "x" is in no list of active ones. */
  lemma DyingDiffers(g: Scene)
    ensures A2(g) != A3(g)
    ensures forall b :: b in A3(g).subnets ==> b == In(Z(g)) || b == In(Dying(g))
  {
    hide In, ContentA, AtA;
    AtAThird(g, X(g));
    AtAThird(g, Dying(g));
    Sorted(g, [X(g)], g.gb);
    Sorted(g, [Dying(g)], g.gb);
    assert In(X(g)) in [In(Z(g))] + [In(X(g))];
    InDiffer(g);
  }

  lemma InDiffer(g: Scene)
    ensures In(X(g)) != In(Z(g)) && In(X(g)) != In(Dying(g)) && In(Z(g)).uid == "z" && In(Dying(g)).deleting
  {
    hide Snapshot.FirstHost;
  }

  /** What the snapshots ask for. */
  lemma Asks(g: Scene)
    ensures g.x in Configured(B2(g)) && "ps-x" !in Active(A3(g))
    ensures !A0(g).deleting && !A1(g).deleting && !A2(g).deleting && !A3(g).deleting && !B1(g).deleting && !B2(g).deleting
  {
    hide In, AtA, Snapshot.PeersAt, Sort;
    DyingDiffers(g);
    InDiffer(g);
    assert forall b :: b in A3(g).subnets && !b.deleting ==> Snapshot.NativeName(b.uid) == "ps-z";
    SameMembers(Sort([RemoteZ(g)] + [RemoteX(g)], Snapshot.RemoteKey), [RemoteZ(g)] + [RemoteX(g)]);
    assert RemoteX(g) in [RemoteZ(g)] + [RemoteX(g)] && RemoteX(g) in B2(g).remotes;
  }

  lemma BaseListed(g: Scene)
    ensures Listed(Base(g), ORDER) == Everything(g, [])
    ensures Listed(Base(g)["x" := X(g)], ORDER) == Everything(g, [X(g)])
    ensures Listed(Base(g)["x" := Dying(g)], ORDER) == Everything(g, [Dying(g)])
  {
    hide Listed;
    ListedAll(Base(g));
    ListedAll(Base(g)["x" := X(g)]);
    ListedAll(Base(g)["x" := Dying(g)]);
  }

  /** "a" is issued its first snapshot and reports its gateways. */
  lemma FirstA(g: Scene) returns (events: seq<Event>, la: Link)
    requires Legal(g)
    ensures Run(events) == System(Base(g), BORN, Two(g), map["a" := la], [])
    ensures Tidy(la) && Look(la) == View([A0(g)], Some(0), Status(None, {}, g.ga), Status(None, {}, g.ga), {})
  {
    hide Run, Listed, Legal, Everything, Next, Compiles, Wanted, Known, ContentA, ContentB, Due, Accepted, Snapshot.Exports, LinkNext,
      LinkAll, Look, Tidy, Two, Three, Base, Bindings, Sites;
    var first := Begins(g);
    var s, r := Run(first), Read(g, []);
    BaseListed(g);
    KnownNone(s);
    Compiled(g, s, [], [], [], []);
    DueNew(s, r);
    Publishes(s, r, 0);
    RunMore(first, Publish(r, 0));
    FirstIssue(A0(g));
    var l := NEW_LINK.(issued := [A0(g)]);
    assert Run(first + [Publish(r, 0)]).links == map["a" := l];
    Opens(A0(g), g.ga);
    la := LinkAll(l, Opening(g.ga));
    events := first + [Publish(r, 0)] + Sites("a", Opening(g.ga));
    SitesRun(first + [Publish(r, 0)], "a", Opening(g.ga));
    assert map["a" := l]["a" := la] == map["a" := la];
  }

  lemma DueNew(s: System, r: Reading)
    requires Compiles(s, r) && r.names == NAMES && s.links == map[]
    ensures Due(s, r, 0) && r.names[0] == "a"
  {
    hide Compiles, Wanted;
  }

  lemma FirstIssue(c: Content)
    ensures LinkNext(NEW_LINK, Issue(c)) == NEW_LINK.(issued := [c])
  {
  }

  /** "b" is issued its first snapshot, reports its gateways and applies it. */
  lemma FirstB(g: Scene) returns (events: seq<Event>, la: Link, lb: Link)
    requires Legal(g)
    ensures Run(events) == System(Base(g), BORN, Two(g), map["a" := la, "b" := lb], [])
    ensures Tidy(la) && Look(la) == View([A0(g)], Some(0), Status(None, {}, g.ga), Status(None, {}, g.ga), {})
    ensures Tidy(lb) && Look(lb) == View([B1(g)], Some(0), Done(B1(g), 0, g.gb), Done(B1(g), 0, g.gb), Configured(B1(g)))
  {
    hide Run, Listed, Legal, Everything, Next, Compiles, Wanted, Known, ContentA, ContentB, Due, Accepted, Snapshot.Exports, LinkNext,
      LinkAll, Tidy, Two, Three, Base, Bindings, Sites, Configured, Active, Snapshot.ValidInventory, AtA;
    var first;
    first, la := FirstA(g);
    var s, r := Run(first), Read(g, ["a"]);
    BaseListed(g);
    LegalInventories(g);
    AHas(g, la, [], []);
    KnownOne(s, la);
    Compiled(g, s, ["a"], [], g.ga, []);
    ExportsAre(g, Bindings(s.links, ["a"]), []);
    DueB(s, r, la);
    Publishes(s, r, 1);
    RunMore(first, Publish(r, 1));
    FirstIssue(B1(g));
    var l := NEW_LINK.(issued := [B1(g)]);
    var next := first + [Publish(r, 1)];
    assert [RemoteZ(g)] + [] == [RemoteZ(g)];
    assert Run(next).links == map["a" := la, "b" := l];
    Opens(B1(g), g.gb);
    var m := LinkAll(l, Opening(g.gb));
    SitesRun(next, "b", Opening(g.gb));
    Replaced(la, l, m);
    MayAgain(m);
    Acks(m, 0);
    lb := LinkAll(m, Acking(m, 0));
    events := next + Sites("b", Opening(g.gb)) + Sites("b", Acking(m, 0));
    SitesRun(next + Sites("b", Opening(g.gb)), "b", Acking(m, 0));
    Replaced(la, m, lb);
  }

  lemma MayAgain(l: Link)
    requires l.at == Some(0) && |l.issued| == 1
    ensures MayAccept(l, 0)
  {
  }

  lemma LegalInventories(g: Scene)
    requires Legal(g)
    ensures Snapshot.ValidInventory(g.ga) && Snapshot.ValidInventory(g.gb)
  {
  }

  lemma DueB(s: System, r: Reading, la: Link)
    requires Compiles(s, r) && r.names == NAMES && s.links == map["a" := la] && la.issued != [] && Latest(la) == Wanted(s, r, 0)
    ensures Due(s, r, 1) && r.names[1] == "b"
  {
    hide Compiles, Wanted;
  }

  lemma IssueAccepts(l: Link, c: Content)
    requires Tidy(l) && l.at.Some? && !l.issued[l.at.value].deleting
    ensures MayAccept(LinkNext(l, Issue(c)), |l.issued|) && LinkNext(l, Issue(c)).issued == l.issued + [c]
  {
  }

  /** "a" is issued a new snapshot, applies it and reports it. */
  lemma AdvancesA(g: Scene, events: seq<Event>, third: seq<Subnet>, la: Link, lb: Link) returns (more: seq<Event>, m: Link)
    requires var s := Run(events); Stands(s, g, third) && Both(s, la, lb) && Latest(la) != ContentA(g, third, Told(lb).gateways)
    requires la.at.Some? && !la.issued[la.at.value].deleting
    ensures Run(more) == Run(events).(links := map["a" := m, "b" := lb])
    ensures var c, k := ContentA(g, third, Told(lb).gateways), |la.issued|;
      Tidy(m) && Look(m) == View(la.issued + [c], Some(k), Done(c, k, Now(la).gateways), Done(c, k, Now(la).gateways), Configured(c))
  {
    hide Run, Stands, Next, LinkNext, LinkAll, ContentA, Configured, Active, Sites, MayAccept, Snapshot.ValidInventory;
    var c, k := ContentA(g, third, Told(lb).gateways), |la.issued|;
    PublishesA(g, events, third, la, lb);
    var next, l := events + [Publish(Read(g, NAMES), 0)], LinkNext(la, Issue(c));
    Issues(la, c);
    IssueAccepts(la, c);
    Acks(l, k);
    m := LinkAll(l, Acking(l, k));
    more := next + Sites("a", Acking(l, k));
    SitesRun(next, "a", Acking(l, k));
    Replaced(l, lb, m);
  }

  lemma StandsNow(g: Scene, s: System, third: seq<Subnet>)
    requires Legal(g) && Third(g, third)
    requires s.subnets == if third == [] then Base(g) else Base(g)["x" := third[0]]
    requires s.claims == Three(g) || (s.claims == Two(g) && third == [])
    ensures Stands(s, g, third)
  {
    hide Legal, Listed;
    BaseListed(g);
  }

  lemma BothNow(g: Scene, s: System, la: Link, lb: Link, third: seq<Subnet>, gateways: seq<Snapshot.Gateway>, exports: seq<Snapshot.Remote>)
    requires Legal(g) && s.links == map["a" := la, "b" := lb] && Tidy(la) && Tidy(lb)
    requires la.issued != [] && Latest(la) == ContentA(g, third, gateways) && Told(la).gateways == g.ga
    requires lb.issued != [] && Latest(lb) == ContentB(g, exports, g.ga) && Told(lb).gateways == g.gb
    ensures Both(s, la, lb)
  {
    hide Legal, ContentA, ContentB, HasContent;
    LegalInventories(g);
    AHas(g, la, third, gateways);
    BHas(g, lb, exports, g.ga);
  }

  /** Both locations have applied and reported their snapshots. */
  lemma Settles(g: Scene) returns (events: seq<Event>, la: Link, lb: Link)
    requires Legal(g)
    ensures Run(events) == System(Base(g), BORN, Two(g), map["a" := la, "b" := lb], [])
    ensures Tidy(la) && Look(la) == View([A0(g)] + [A1(g)], Some(1), Done(A1(g), 1, g.ga), Done(A1(g), 1, g.ga), Configured(A1(g)))
    ensures Tidy(lb) && Look(lb) == View([B1(g)], Some(0), Done(B1(g), 0, g.gb), Done(B1(g), 0, g.gb), Configured(B1(g)))
  {
    hide Legal, Run, Stands, ContentA, ContentB, Configured, Active, Base, Two, Three, Both;
    var first, l;
    first, l, lb := FirstB(g);
    StandsNow(g, Run(first), []);
    BothNow(g, Run(first), l, lb, [], [], [RemoteZ(g)]);
    Differ(g);
    Asks(g);
    events, la := AdvancesA(g, first, [], l, lb);
  }

  /** "x" is created; "b" is issued a snapshot that names it and configures it without getting done, "a" gets done. */
  lemma Spreads(g: Scene) returns (events: seq<Event>, la: Link, lb: Link)
    requires Legal(g)
    ensures Run(events) == System(Base(g)["x" := X(g)], BORN + {"x"}, Three(g), map["a" := la, "b" := lb], [])
    ensures Tidy(la) && Look(la) == View([A0(g)] + [A1(g)] + [A2(g)], Some(2), Done(A2(g), 2, g.ga), Done(A2(g), 2, g.ga), Configured(A2(g)))
    ensures Tidy(lb) && Look(lb) == View([B1(g)] + [B2(g)], Some(1), Done(B1(g), 0, g.gb), Done(B1(g), 0, g.gb), Configured(B1(g)) + {g.x})
  {
    hide Legal, Run, Stands, ContentA, ContentB, Configured, Active, Base, Two, Three, Both, AtA, LinkNext, LinkAll, Sites, MayAccept;
    var first, l, k;
    first, l, k := Settles(g);
    var second := Enters(g, first, map["a" := l, "b" := k]);
    StandsNow(g, Run(second), [X(g)]);
    BothNow(g, Run(second), l, k, [], g.gb, [RemoteZ(g)]);
    Differ(g);
    Asks(g);
    var third;
    third, la := AdvancesA(g, second, [X(g)], l, k);
    StandsNow(g, Run(third), [X(g)]);
    BothNow(g, Run(third), la, k, [X(g)], g.gb, [RemoteZ(g)]);
    ExportsAre(g, [BindingOf(la), BindingOf(k)], [X(g)]);
    PublishesB(g, third, [X(g)], la, k, [RemoteZ(g)] + [RemoteX(g)]);
    var fourth, m := third + [Publish(Read(g, NAMES), 1)], LinkNext(k, Issue(B2(g)));
    Issues(k, B2(g));
    IssueAccepts(k, B2(g));
    Strays(m, 1, {g.x});
    lb := LinkAll(m, Straying(m, 1, {g.x}));
    SitesRun(fourth, "b", Straying(m, 1, {g.x}));
    Replaced(la, m, lb);
    events := fourth + Sites("b", Straying(m, 1, {g.x}));
  }

  lemma Deletes(g: Scene, s: System)
    requires s.subnets == Base(g)["x" := X(g)]
    ensures Next(s, Delete("x")) == s.(subnets := Base(g)["x" := Dying(g)])
  {
    assert Base(g)["x" := X(g)]["x" := Dying(g)] == Base(g)["x" := Dying(g)];
  }

  /** "a" has applied its current snapshot and no longer lists "x". */
  lemma WithdrawnNow(g: Scene, la: Link, lb: Link)
    requires la.issued != [] && lb.issued != [] && Latest(la) == A3(g)
    requires Told(la).applied == Some(|la.issued| - 1) && Told(la).natives == Active(A3(g))
    ensures Snapshot.Withdrawn([BindingOf(la), BindingOf(lb)], "a", Snapshot.NativeName("x"))
  {
    hide ContentA, Active, SameRevision;
    AtLocationA(g);
    Asks(g);
    var b := BindingOf(la);
    assert b.applied == b.spec.revision && b.spec.content.location == "a" && b.resources == Told(la).natives;
    XName();
  }

  lemma AtLocationA(g: Scene)
    ensures A3(g).location == "a"
  {
  }

  lemma XName()
    ensures Snapshot.NativeName("x") == "ps-x"
  {
  }

  /** "x" is deleted and acknowledged by its own location, and "b" is issued its first content again. */
  lemma Recurs(g: Scene) returns (events: seq<Event>, la: Link, lb: Link)
    requires Legal(g)
    ensures Run(events) == System(Base(g)["x" := Dying(g)], BORN + {"x"}, Three(g), map["a" := la, "b" := lb], [])
    ensures Tidy(la) && Look(la) == View([A0(g)] + [A1(g)] + [A2(g)] + [A3(g)], Some(3), Done(A3(g), 3, g.ga), Done(A3(g), 3, g.ga), Configured(A3(g)))
    ensures Tidy(lb) && Look(lb) == View([B1(g)] + [B2(g)] + [B1(g)], Some(1), Done(B1(g), 0, g.gb), Done(B1(g), 0, g.gb), Configured(B1(g)) + {g.x})
  {
    hide Legal, Run, Next, Stands, ContentA, ContentB, Configured, Active, Base, Two, Three, Both, AtA, LinkNext, LinkAll, Sites,
      MayAccept, Snapshot.Withdrawn;
    var first, l, k;
    first, l, k := Spreads(g);
    RunMore(first, Delete("x"));
    Deletes(g, Run(first));
    var second := first + [Delete("x")];
    StandsNow(g, Run(second), [Dying(g)]);
    BothNow(g, Run(second), l, k, [X(g)], g.gb, [RemoteZ(g)] + [RemoteX(g)]);
    Differ(g);
    Asks(g);
    var third;
    third, la := AdvancesA(g, second, [Dying(g)], l, k);
    StandsNow(g, Run(third), [Dying(g)]);
    BothNow(g, Run(third), la, k, [Dying(g)], g.gb, [RemoteZ(g)] + [RemoteX(g)]);
    WithdrawnNow(g, la, k);
    ExportsAre(g, [BindingOf(la), BindingOf(k)], [Dying(g)]);
    assert [RemoteZ(g)] + [] == [RemoteZ(g)];
    PublishesB(g, third, [Dying(g)], la, k, [RemoteZ(g)]);
    lb := LinkNext(k, Issue(B1(g)));
    Issues(k, B1(g));
    events := third + [Publish(Read(g, NAMES), 1)];
  }

  /** Nothing is left to publish. */
  lemma PublishedBoth(g: Scene, s: System, third: seq<Subnet>, la: Link, lb: Link, exports: seq<Snapshot.Remote>)
    requires Stands(s, g, third) && Both(s, la, lb) && Latest(la) == ContentA(g, third, Told(lb).gateways)
    requires exports == Snapshot.Exports([BindingOf(la), BindingOf(lb)], "a", AtA(g, third)) && Latest(lb) == ContentB(g, exports, Told(la).gateways)
    ensures Published(s, Read(g, NAMES)) && Accepted(s, Read(g, NAMES)) == Everything(g, third)
  {
    hide Legal, Listed, Third, Everything, Known, Compiles, Wanted, Snapshot.ValidInventory, Snapshot.Exports, AtA, Accepted, Bindings,
      Two, Three, BindingOf, ContentA, ContentB, Tidy, Told;
    KnownBoth(s, la, lb);
    BindingsBoth(s, la, lb);
    Compiled(g, s, NAMES, third, Told(la).gateways, Told(lb).gateways);
  }

  lemma MatchesNow(l: Link, k: nat)
    requires Told(l).applied == Some(k) && k < |l.issued| && l.issued[k] == Latest(l)
    ensures Matches(l)
  {
  }

  lemma Finalizes(s: System, r: Reading, uid: string)
    requires Finalizable(s, r, uid)
    ensures Next(s, Finalize(r, uid)) == s.(subnets := s.subnets - {uid})
  {
    hide Finalizable;
  }

  lemma Gone(g: Scene)
    ensures Base(g)["x" := Dying(g)] - {"x"} == Base(g) && "x" in Base(g)["x" := Dying(g)] && Base(g)["x" := Dying(g)]["x"] == Dying(g)
    ensures Dying(g) in Everything(g, [Dying(g)]) && Dying(g).deleting && Dying(g).location == "a"
  {
    assert Everything(g, [Dying(g)])[2] == Dying(g);
  }

  /** The finalizer of "x" goes, and "a" acknowledges again. */
  lemma Leaves(g: Scene) returns (events: seq<Event>, la: Link, lb: Link)
    requires Legal(g)
    ensures Run(events) == System(Base(g), BORN + {"x"}, Three(g), map["a" := la, "b" := lb], [])
    ensures Tidy(la) && la.issued == [A0(g)] + [A1(g)] + [A2(g)] + [A3(g)] + [A1(g)] && Told(la) == Done(A1(g), 4, g.ga)
    ensures Tidy(lb) && lb.issued == [B1(g)] + [B2(g)] + [B1(g)] && Told(lb) == Done(B1(g), 0, g.gb) && lb.touched == Configured(B1(g)) + {g.x}
  {
    hide Legal, Run, Next, Stands, ContentA, ContentB, Configured, Active, Base, Two, Three, Both, AtA, LinkNext, LinkAll, Sites,
      MayAccept, Snapshot.Withdrawn, Published, Accepted, Matches, Everything;
    var first, l;
    first, l, lb := Recurs(g);
    var s, r := Run(first), Read(g, NAMES);
    StandsNow(g, s, [Dying(g)]);
    BothNow(g, s, l, lb, [Dying(g)], g.gb, [RemoteZ(g)]);
    Differ(g);
    Asks(g);
    WithdrawnNow(g, l, lb);
    ExportsAre(g, [BindingOf(l), BindingOf(lb)], [Dying(g)]);
    assert [RemoteZ(g)] + [] == [RemoteZ(g)];
    PublishedBoth(g, s, [Dying(g)], l, lb, [RemoteZ(g)]);
    MatchesNow(l, 3);
    MatchesNow(lb, 0);
    Gone(g);
    XName();
    assert Finalizable(s, r, "x");
    Finalizes(s, r, "x");
    RunMore(first, Finalize(r, "x"));
    var second := first + [Finalize(r, "x")];
    StandsNow(g, Run(second), []);
    BothNow(g, Run(second), l, lb, [Dying(g)], g.gb, [RemoteZ(g)]);
    events, la := AdvancesA(g, second, [], l, lb);
  }

  lemma KeepsTwo(g: Scene)
    ensures Kept(Three(g), Base(g).Keys) == Two(g)
  {
    var z, y, x := ClaimOf(Z(g)), ClaimOf(Y(g)), ClaimOf(X(g));
    assert Three(g)[..2] == Two(g) && Two(g)[..1] == [z] && [z][..0] == [];
    assert Kept([], Base(g).Keys) == [] && Kept([z], Base(g).Keys) == [z];
  }

  lemma Releases(s: System, r: Reading)
    requires Published(s, r) && AllApplied(s.links) && HoldersListed(s, r.order)
    ensures Next(s, Release(r)) == s.(claims := Kept(s.claims, s.subnets.Keys))
  {
    hide Published, AllApplied, HoldersListed;
  }

  /** The prefix of "x" is nowhere in the first content of "b". */
  lemma OnlyOthers(g: Scene)
    requires Legal(g)
    ensures g.x !in Configured(B1(g)) && g.x != g.y && g.x != g.z
  {
    hide Clash, SiteConfig.Network, Snapshot.ValidInventory, Snapshot.PeersAt, Snapshot.FirstHost;
    SelfClash(g.x);
    SameMembers(Sort([RemoteZ(g)], Snapshot.RemoteKey), [RemoteZ(g)]);
    SameMembers(Sort([In(Y(g))], Snapshot.UidKey), [In(Y(g))]);
    assert forall b :: b in B1(g).subnets ==> b == In(Y(g));
    assert forall r :: r in B1(g).remotes ==> r == RemoteZ(g);
  }

  lemma HarmfulBetween(issued: seq<Content>, k: nat, j: nat, x: string)
    requires k < j < |issued| && issued[k] == issued[|issued| - 1] && !issued[k].deleting
    requires x in Configured(issued[j]) && x !in Configured(issued[k])
    ensures !Harmless(issued)
  {
    hide Configured;
  }

  lemma Harmful(g: Scene, issued: seq<Content>)
    requires Legal(g) && issued == [B1(g)] + [B2(g)] + [B1(g)]
    ensures !Harmless(issued)
  {
    hide B1, B2, Legal, Configured, Harmless;
    Asks(g);
    OnlyOthers(g);
    HarmfulBetween(issued, 0, 1, g.x);
  }

  /** For any three disjoint prefixes and any gateways of two locations: while location "b" is busy with a snapshot that names
      "x", deleting "x" brings its first content back, whose old acknowledgement counts for the new snapshot; so "x" is
      finalized and its claim released although "b" still has the prefix configured. */
  lemma RecurrenceReleasesEarly(g: Scene) returns (events: seq<Event>, r: Reading)
    requires Legal(g)
    ensures var s := Run(events); var t := Next(s, Release(r));
      && ClaimOf(X(g)) in s.claims && (forall c :: c in t.claims ==> c in s.claims && c.cidr != g.x)
      && "b" in t.links && g.x in t.links["b"].touched && Matches(t.links["b"]) && !Harmless(t.links["b"].issued)
  {
    hide Legal, Run, Next, Stands, ContentA, ContentB, Configured, Active, Both, AtA, Snapshot.Withdrawn, Published, Accepted, Matches,
      Everything, Harmless, Kept, Read;
    var la, lb;
    events, la, lb := Leaves(g);
    r := Read(g, NAMES);
    var s := Run(events);
    StandsNow(g, s, []);
    BothNow(g, s, la, lb, [], g.gb, [RemoteZ(g)]);
    ExportsAre(g, [BindingOf(la), BindingOf(lb)], []);
    assert [RemoteZ(g)] + [] == [RemoteZ(g)];
    PublishedBoth(g, s, [], la, lb, [RemoteZ(g)]);
    MatchesNow(la, 4);
    MatchesNow(lb, 0);
    OrderRead(g);
    Releases(s, r);
    KeepsTwo(g);
    OnlyOthers(g);
    Harmful(g, lb.issued);
  }

  lemma OrderRead(g: Scene)
    ensures Read(g, NAMES).order == ORDER && "z" in ORDER && "y" in ORDER && "x" in ORDER
  {
  }

  /** 10.n.0.0/30 */
  function Small(n: nat): (p: Ipv4.Prefix)
    requires n < 100
  {
    Ipv4.Prefix(0x0A00_0000 + n * 0x1_0000, 30)
  }

  lemma SmallApart(n: nat, m: nat)
    requires n < m < 100
    ensures SiteConfig.GoodNetwork(Small(n)) && SiteConfig.GoodNetwork(Small(m)) && !Small(n).Overlaps(Small(m))
  {
    assert Ipv4.Size(32) == 1 && Ipv4.Size(31) == 2 && Ipv4.Size(30) == 4;
  }

  lemma Printed(p: Ipv4.Prefix, q: Ipv4.Prefix)
    requires SiteConfig.GoodNetwork(p) && SiteConfig.GoodNetwork(q) && !p.Overlaps(q)
    ensures SiteConfig.Network(Ipv4.PrefixText(p)) == Some(p) && !Clash(Ipv4.PrefixText(p), Ipv4.PrefixText(q))
  {
    hide Ipv4.PrefixText, Ipv4.ParsePrefix, SiteConfig.GoodNetwork;
    Ipv4.ParsePrinted(p);
    Ipv4.ParsePrinted(q);
  }

  function GatewayOf(id: string): (g: Snapshot.Gateway) {
    var ip := Ipv4.AddrText(0x0B00_0001);
    Snapshot.Gateway(id, id, id, ip, ip, "", [], true)
  }

  lemma TwoGateways()
    ensures Snapshot.ValidInventory([GatewayOf("1"), GatewayOf("2")])
  {
    hide Ipv4.AddrText, Ipv4.ParseAddr;
    Ipv4.ParsePrinted(Ipv4.Prefix(0x0B00_0001, 32));
    assert Snapshot.ValidGateway(GatewayOf("1")) && Snapshot.ValidGateway(GatewayOf("2"));
  }

  /** Such prefixes and gateways exist: 10.1.0.0/30, 10.2.0.0/30 and 10.3.0.0/30. */
  lemma SceneExists() returns (g: Scene)
    ensures Legal(g)
  {
    hide Ipv4.PrefixText, Clash, SiteConfig.Network, Snapshot.ValidInventory, GatewayOf, Small;
    SmallApart(1, 2);
    SmallApart(1, 3);
    SmallApart(2, 3);
    Printed(Small(1), Small(2));
    Printed(Small(1), Small(3));
    Printed(Small(2), Small(3));
    SmallApart(3, 4);
    Printed(Small(3), Small(4));
    TwoGateways();
    var gateways := [GatewayOf("1"), GatewayOf("2")];
    g := Scene(Ipv4.PrefixText(Small(1)), Ipv4.PrefixText(Small(2)), Ipv4.PrefixText(Small(3)), gateways, gateways);
    ClashSymmetric(g.y, g.z);
  }
}
