/** A run in which a location's pools shrink under an admitted subnet, so its next snapshot drops the subnet unacknowledged
    (internal/platformcontroller/reconciler.go, internal/platformplan/plan.go). */
module PoolChange {
  import opened Wrappers
  import opened Ordering
  import opened Admission
  import opened Links
  import opened Authority
  import opened Recurrence
  import opened Discipline
  import Snapshot
  import SiteConfig
  import SiteController

  /** The pool of "z" is taken from location "a", which keeps that of "x". */
  function Shrunk(g: Scene): (r: Reading) {
    Reading(ORDER, Context("v", map["a" := [g.x], "b" := [g.y]], {}, false), VPC, CFG, NAMES, NAMES)
  }

  lemma OutsidePool(g: Scene)
    requires Legal(g)
    ensures SiteConfig.Network(g.z).Some? && !InPool(SiteConfig.Network(g.z).value, g.x)
  {
    hide Snapshot.ValidInventory;
  }

  lemma Verdicts(g: Scene)
    requires Legal(g)
    ensures Valid(Y(g), Shrunk(g).ctx) && !Valid(Z(g), Shrunk(g).ctx)
  {
    hide Legal, SiteConfig.Network, InPool;
    Networks(g);
    InOwnPool(g.y);
    OutsidePool(g);
    assert g.y in Shrunk(g).ctx.pools["b"];
  }

  lemma OwnsBoth(g: Scene)
    ensures Own(Two(g), "y") == Some(ClaimOf(Y(g))) && Own(Two(g), "z") == Some(ClaimOf(Z(g)))
  {
  }

  lemma AdmitsOnlyY(g: Scene, s: System)
    requires Legal(g) && Listed(s.subnets, ORDER) == [Z(g)] + [Y(g)] && s.claims == Two(g)
    ensures Decided(s, Shrunk(g)) && Accepted(s, Shrunk(g)) == [Y(g)]
  {
    hide Legal, Listed, Clash, Valid, Own, Two;
    Verdicts(g);
    OwnsBoth(g);
    var ctx, list := Shrunk(g).ctx, [Z(g)] + [Y(g)];
    assert list[..1] == [Z(g)] && [Z(g)][..0] == [];
    assert Admit([], s.claims, ctx) == Admitted(s.claims, []);
    assert Admit([Z(g)], s.claims, ctx) == Admitted(s.claims, []);
  }

  lemma PlacesY(g: Scene)
    requires Legal(g)
    ensures forall t :: t in Bind([Y(g)], "v") ==> Snapshot.Placeable(t, CFG)
    ensures Snapshot.SubnetLocations(VPC, Bind([Y(g)], "v")) == {"b"}
  {
    hide Legal, SiteConfig.Network;
    Networks(g);
    var all := Bind([Y(g)], "v");
    assert all[0] in all && all == [all[0]];
  }

  lemma CompilesY(g: Scene, s: System, la: Link, lb: Link)
    requires Legal(g) && Listed(s.subnets, ORDER) == [Z(g)] + [Y(g)] && s.claims == Two(g) && Both(s, la, lb)
    ensures Compiles(s, Shrunk(g)) && Accepted(s, Shrunk(g)) == [Y(g)]
  {
    hide Legal, Listed, Decided, Accepted, Bind, Bindings, BindingOf, Snapshot.Placeable, Snapshot.ValidInventory,
      Snapshot.SubnetLocations, Snapshot.ReadsInventory, Listing, Two;
    AdmitsOnlyY(g, s);
    PlacesY(g);
    NamesListed();
    BindingsBoth(s, la, lb);
    BoundBoth(la, lb);
    var e, all := Bindings(s.links, NAMES), Bind([Y(g)], "v");
    assert BindingOf(la) in e && BindingOf(lb) in e;
    assert Snapshot.NameSet(VPC, all, e) == {"a", "b"};
  }

  lemma BoundBoth(la: Link, lb: Link)
    requires HasContent(la, "a") && HasContent(lb, "b")
    ensures BindingOf(la).spec.content.location == "a" && BindingOf(lb).spec.content.location == "b"
    ensures forall l :: l == la || l == lb ==>
              BindingOf(l).vpcUid == "v" && BindingOf(l).namespace == "project" && Snapshot.ValidInventory(BindingOf(l).gateways)
  {
    hide Snapshot.ValidInventory;
  }

  lemma ProfileOf(s: System, r: Reading, i: nat)
    requires Compiles(s, r) && i < |r.names| && r.vpc == VPC && r.cfg == CFG
    ensures Wanted(s, r, i).profile == "wireguard-bgp"
  {
    hide Snapshot.Buildable, Listing;
  }

  /** The snapshots of "a" so far list "z" alone, and nothing drains. */
  lemma OnlyZ(g: Scene, gateways: seq<Snapshot.Gateway>)
    ensures forall b :: b in ContentA(g, [], gateways).subnets <==> b == Entry(Z(g))
    ensures Entry(Z(g)).uid == "z" && !Entry(Z(g)).deleting
  {
    hide Snapshot.FirstHost, ContentA;
    Sorted(g, [], gateways);
    assert AtA(g, []) == [In(Z(g))] && In(Z(g)) == Entry(Z(g));
  }

  lemma NothingAbsent(g: Scene, l: Link)
    requires l.issued == [A0(g)] + [A1(g)]
    ensures Absent(l) == {}
  {
    hide ContentA, Entry;
    OnlyZ(g, []);
    OnlyZ(g, g.gb);
    assert l.issued[0] == A0(g) && l.issued[1] == A1(g);
  }

  lemma NotRetained(s: System, r: Reading, l: Link, c: Content, t: Snapshot.BindingSubnet)
    requires Decided(s, r) && t in c.subnets && t.uid in s.subnets && Absent(l) == {} && s.subnets[t.uid] !in Accepted(s, r)
    ensures !Retains(s, r, l, c)
  {
    hide Accepted, Decided;
  }

  /** Subnet "z" is applied at "a", public and not deleting; with its pool taken from "a" the pass issues "a" a snapshot without
      it, which is none the location can rely on. */
  lemma PoolWithdrawn(g: Scene, w: SiteController.World) returns (events: seq<Event>, r: Reading, l: Link)
    requires Legal(g)
    ensures var s := Run(events);
      && Due(s, r, 0) && r.names[0] == "a" && "a" in s.links && s.links["a"] == l && l.issued != [] && UpToDate(l)
      && "z" in s.subnets && !s.subnets["z"].deleting && ClaimOf(s.subnets["z"]) in s.claims
      && (w.spec.content == Latest(l) ==> !SiteController.Successor(SiteOf(w, l), Wanted(s, r, 0)))
  {
    hide Legal, Run, ContentA, ContentB, Configured, Active, Compiles, Wanted, Accepted, Decided, SiteController.Successor, Listed, Both,
      Retains, Entry, Due, Current, Disjoint;
    var lb;
    events, l, lb := Settles(g);
    r := Shrunk(g);
    var s := Run(events);
    BaseListed(g);
    BothNow(g, s, l, lb, [], g.gb, [RemoteZ(g)]);
    CompilesY(g, s, l, lb);
    ProfileOf(s, r, 0);
    Profiles(g, [], g.gb, []);
    ClaimsAlwaysDisjoint(events);
    OnlyZ(g, g.gb);
    WantedMembers(s, r, 0, Entry(Z(g)));
    DueFirst(s, r, l);
    if w.spec.content == Latest(l) {
      NothingAbsent(g, l);
      SucceedsExactly(events, r, 0, w, 1);
      NotRetained(s, r, l, Latest(l), Entry(Z(g)));
    }
  }
}
