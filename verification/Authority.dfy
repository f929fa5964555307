/** The authority's protocol with its locations: prefix claims are admitted, snapshots compiled, issued, acknowledged and
    withdrawn, and claims released (internal/platformcontroller/reconciler.go, internal/platformplan/plan.go), as steps
    that interleave with the locations' own and with delayed statuses. */
module Authority {
  import opened Wrappers
  import opened Ordering
  import opened Admission
  import opened Links
  import Snapshot
  import SiteConfig

  /** Public subnets by UID, every UID ever used, the claims of the VPC's status, its bindings by location, and the
      locations' ends of bindings since retired. */
  datatype System = System(subnets: map<string, Subnet>, born: set<string>, claims: seq<Claim>, links: map<string, Link>, retired: seq<Link>)

  /** What one pass over the VPC reads: its subnets in order, its bindings in listing order, the VPC and the configuration;
      `names` is the sorted list of locations it computes. */
  datatype Reading = Reading(order: seq<string>, ctx: Context, vpc: Snapshot.Vpc, cfg: Snapshot.Config, listing: seq<string>, names: seq<string>)

  /** One write of a pass, or one act of the environment. */
  datatype Event =
    | Submit(subnet: Subnet)
    | Delete(uid: string)
    | Pass(order: seq<string>, ctx: Context)
    | Publish(r: Reading, i: nat)
    | Finalize(r: Reading, uid: string)
    | Release(r: Reading)
    | Retire(location: string)
    | Site(location: string, move: LinkEvent)
    | Late(k: nat, move: LinkEvent)

  const EMPTY := System(map[], {}, [], map[], [])

  /** The subnets of one listing, in its order. */
  function Listed(subnets: map<string, Subnet>, order: seq<string>): (r: seq<Subnet>) {
    if order == [] then []
    else
      var last := order[|order| - 1];
      Listed(subnets, order[..|order| - 1]) + if last in subnets then [subnets[last]] else []
  }

  /** A snapshot compiled from accepted subnets names no other prefix. */
  predicate CompiledFrom(c: Content, accepted: seq<Subnet>) {
    Named(c) <= set s | s in accepted :: s.cidr
  }

  // ---- What a pass computes ----

  /** The accepted subnets as the snapshot compiler receives them. */
  function Bind(accepted: seq<Subnet>, vpcUid: string): (r: seq<Snapshot.Subnet>)
    ensures |r| == |accepted|
    ensures forall i :: 0 <= i < |r| ==> r[i].uid == accepted[i].uid && r[i].cidr == accepted[i].cidr && r[i].location == accepted[i].location
  {
    seq(|accepted|, i requires 0 <= i < |accepted| =>
      Snapshot.Subnet(accepted[i].uid, accepted[i].uid, accepted[i].cidr, accepted[i].location, vpcUid, accepted[i].deleting))
  }

  /** A binding as the authority stores it: its snapshot, and the status last reported. */
  function BindingOf(l: Link): (b: Snapshot.Binding)
    requires l.issued != []
  {
    var c, seen := Latest(l), Told(l).applied;
    Snapshot.Binding(c.vpcUid, c.namespace, Snapshot.Sealed(c),
                     if seen.Some? && seen.value < |l.issued| then Snapshot.RevisionOf(l.issued[seen.value]) else Snapshot.Unset,
                     Told(l).natives, Told(l).gateways)
  }

  /** The bindings of one listing, in its order. */
  function Bindings(links: map<string, Link>, listing: seq<string>): (r: seq<Snapshot.Binding>) {
    if listing == [] then []
    else
      var last := listing[|listing| - 1];
      Bindings(links, listing[..|listing| - 1]) + if last in links && links[last].issued != [] then [BindingOf(links[last])] else []
  }

  /** Admission has nothing left to write. */
  ghost predicate Decided(s: System, r: Reading) {
    var o := Admit(Listed(s.subnets, r.order), s.claims, r.ctx);
    o.Admitted? && o.claims == s.claims
  }

  ghost function Accepted(s: System, r: Reading): (a: seq<Subnet>)
    requires Decided(s, r)
  {
    Admit(Listed(s.subnets, r.order), s.claims, r.ctx).accepted
  }

  /** The pass gets as far as compiling the snapshots. */
  ghost predicate Compiles(s: System, r: Reading) {
    && Decided(s, r) && r.ctx.vpcUid == r.vpc.uid
    && Distinct(r.listing) && (forall l :: l in r.listing <==> l in s.links)
    && Snapshot.Buildable(r.vpc, Bind(Accepted(s, r), r.vpc.uid), Bindings(s.links, r.listing), r.cfg)
    && Listing(r.names, Snapshot.NameSet(r.vpc, Bind(Accepted(s, r), r.vpc.uid), Bindings(s.links, r.listing)), Self)
  }

  /** The snapshot the compiler gives the i-th location. */
  ghost function Wanted(s: System, r: Reading, i: nat): (c: Content)
    requires Compiles(s, r) && i < |r.names|
  {
    Snapshot.PlanFor(r.vpc, Bind(Accepted(s, r), r.vpc.uid), Bindings(s.links, r.listing), r.names, r.cfg.classes[Snapshot.ClassOf(r.vpc)])[i].content
  }

  ghost predicate Current(s: System, r: Reading, i: nat)
    requires Compiles(s, r) && i < |r.names|
  {
    r.names[i] in s.links && s.links[r.names[i]].issued != [] && Latest(s.links[r.names[i]]) == Wanted(s, r, i)
  }

  /** The first location whose binding is missing or has another snapshot, of the same transport. */
  ghost predicate Due(s: System, r: Reading, i: nat) {
    && Compiles(s, r) && i < |r.names| && !Current(s, r, i)
    && (forall j :: 0 <= j < i ==> Current(s, r, j))
    && (r.names[i] in s.links && s.links[r.names[i]].issued != [] ==> Latest(s.links[r.names[i]]).profile == Wanted(s, r, i).profile)
  }

  /** Every binding has the snapshot the compiler wants. */
  ghost predicate Published(s: System, r: Reading) {
    Compiles(s, r) && forall i :: 0 <= i < |r.names| ==> Current(s, r, i)
  }

  ghost predicate AllApplied(links: map<string, Link>) {
    forall l :: l in links ==> Matches(links[l])
  }

  /** The finalizer of a deleted subnet may go: every location matches and its own no longer lists the native subnet. */
  ghost predicate Finalizable(s: System, r: Reading, uid: string) {
    && Published(s, r) && AllApplied(s.links)
    && uid in s.subnets && s.subnets[uid].deleting && s.subnets[uid] in Accepted(s, r)
    && s.subnets[uid].location in s.links && Snapshot.NativeName(uid) !in Told(s.links[s.subnets[uid].location]).natives
  }

  /** A tombstone's cleanup is acknowledged and nothing is listed any more. */
  predicate Retirable(l: Link) {
    Matches(l) && Latest(l).deleting && Told(l).natives == {} && Told(l).gateways == []
  }

  /** The claims kept at release: those whose public subnet still exists. */
  function Kept(claims: seq<Claim>, present: set<string>): (r: seq<Claim>) {
    if claims == [] then []
    else
      var last := claims[|claims| - 1];
      Kept(claims[..|claims| - 1], present) + if last.uid in present then [last] else []
  }

  function LinkAt(links: map<string, Link>, location: string): (l: Link) {
    if location in links then links[location] else NEW_LINK
  }

  /** A listing may miss a subnet submitted since, but none that already holds a claim. */
  ghost predicate HoldersListed(s: System, order: seq<string>) {
    forall c :: c in s.claims && c.uid in s.subnets ==> c.uid in order
  }

  /** One event; a step whose condition does not hold changes nothing. */
  ghost function Next(s: System, e: Event): (t: System) {
    match e
    case Submit(n) =>
      if n.uid in s.born || n.guarded || n.deleting then s else s.(subnets := s.subnets[n.uid := n], born := s.born + {n.uid})
    case Delete(uid) =>
      if uid !in s.subnets then s
      else if !s.subnets[uid].guarded then s.(subnets := s.subnets - {uid})
      else s.(subnets := s.subnets[uid := s.subnets[uid].(deleting := true)])
    case Pass(order, ctx) =>
      (match Admit(Listed(s.subnets, order), s.claims, ctx)
       case Guard(uid) => if uid in s.subnets then s.(subnets := s.subnets[uid := s.subnets[uid].(guarded := true)]) else s
       case Unguard(uid) => s.(subnets := s.subnets - {uid})
       case Admitted(claims, _) => s.(claims := claims))
    case Publish(r, i) =>
      if Due(s, r, i) then s.(links := s.links[r.names[i] := LinkNext(LinkAt(s.links, r.names[i]), Issue(Wanted(s, r, i)))]) else s
    case Finalize(r, uid) => if Finalizable(s, r, uid) then s.(subnets := s.subnets - {uid}) else s
    case Release(r) =>
      if Published(s, r) && AllApplied(s.links) && HoldersListed(s, r.order) then s.(claims := Kept(s.claims, s.subnets.Keys)) else s
    case Retire(location) =>
      if location in s.links && Retirable(s.links[location]) then
        s.(links := s.links - {location}, retired := s.retired + [s.links[location]])
      else s
    case Site(location, move) =>
      if location in s.links && !move.Issue? then s.(links := s.links[location := LinkNext(s.links[location], move)]) else s
    case Late(k, move) =>
      if k < |s.retired| && !move.Issue? then s.(retired := s.retired[k := LinkNext(s.retired[k], move)]) else s
  }

  ghost function Run(events: seq<Event>): (s: System) {
    if events == [] then EMPTY else Next(Run(events[..|events| - 1]), events[|events| - 1])
  }

  // ---- Claims are always disjoint ----

  /** Claims are disjoint, and subnets are kept under their own UID. */
  ghost predicate ClaimsSound(s: System) {
    Disjoint(s.claims) && forall u :: u in s.subnets ==> s.subnets[u].uid == u
  }

  lemma {:induction false} KeptMembers(claims: seq<Claim>, present: set<string>)
    ensures forall c :: c in Kept(claims, present) <==> c in claims && c.uid in present
  {
    if claims != [] {
      KeptMembers(claims[..|claims| - 1], present);
      assert claims == claims[..|claims| - 1] + [claims[|claims| - 1]];
    }
  }

  lemma {:induction false} KeptDisjoint(claims: seq<Claim>, present: set<string>)
    requires Disjoint(claims)
    ensures Disjoint(Kept(claims, present))
    ensures forall c :: c in Kept(claims, present) <==> c in claims && c.uid in present
  {
    KeptMembers(claims, present);
    hide Clash, SiteConfig.Network, Disjoint;
    if claims != [] {
      var front, last := claims[..|claims| - 1], claims[|claims| - 1];
      FrontDisjoint(claims);
      KeptDisjoint(front, present);
      var kept := Kept(front, present);
      forall i | 0 <= i < |kept| ensures kept[i].uid != last.uid && !Clash(kept[i].cidr, last.cidr) {
        assert kept[i] in kept;
        LastApart(claims, kept[i]);
      }
      AppendDisjoint(kept, last);
      assert kept + [] == kept;
    } else {
      assert Kept(claims, present) == claims;
    }
  }

  lemma FrontDisjoint(claims: seq<Claim>)
    requires claims != [] && Disjoint(claims)
    ensures Disjoint(claims[..|claims| - 1]) && SiteConfig.Network(claims[|claims| - 1].cidr).Some?
  {
    hide Clash, SiteConfig.Network;
  }

  lemma AppendDisjoint(claims: seq<Claim>, c: Claim)
    requires Disjoint(claims) && SiteConfig.Network(c.cidr).Some?
    requires forall i :: 0 <= i < |claims| ==> claims[i].uid != c.uid && !Clash(claims[i].cidr, c.cidr)
    ensures Disjoint(claims + [c])
  {
    hide Clash, SiteConfig.Network;
  }

  lemma LastApart(claims: seq<Claim>, c: Claim)
    requires claims != [] && Disjoint(claims) && c in claims[..|claims| - 1]
    ensures c.uid != claims[|claims| - 1].uid && !Clash(c.cidr, claims[|claims| - 1].cidr)
  {
    hide Clash, SiteConfig.Network;
    var i :| 0 <= i < |claims| - 1 && claims[..|claims| - 1][i] == c;
    assert claims[i] == c;
  }

  lemma NextClaims(s: System, e: Event)
    requires ClaimsSound(s)
    ensures ClaimsSound(Next(s, e))
  {
    hide Disjoint, Due, Published, AllApplied, Finalizable, Retirable, LinkNext;
    match e {
      case Pass(order, ctx) =>
        if Admit(Listed(s.subnets, order), s.claims, ctx).Admitted? {
          AdmitKeepsDisjoint(Listed(s.subnets, order), s.claims, ctx);
        }
      case Release(_) => KeptDisjoint(s.claims, s.subnets.Keys);
      case _ =>
    }
  }

  /** In every reachable state of every run the prefix claims are pairwise disjoint. */
  lemma {:induction false} ClaimsAlwaysDisjoint(events: seq<Event>)
    ensures ClaimsSound(Run(events))
  {
    if events != [] {
      ClaimsAlwaysDisjoint(events[..|events| - 1]);
      NextClaims(Run(events[..|events| - 1]), events[|events| - 1]);
    }
  }

  // ---- What issued snapshots name ----

  /** Every prefix a compiled snapshot names is an accepted subnet's. */
  lemma BuildNamesAccepted(v: Snapshot.Vpc, accepted: seq<Subnet>, existing: seq<Snapshot.Binding>, names: seq<string>, profile: string, i: int)
    requires 0 <= i < |names|
    ensures CompiledFrom(Snapshot.PlanFor(v, Bind(accepted, v.uid), existing, names, profile)[i].content, accepted)
  {
    hide Snapshot.Locals, Snapshot.Remotes, Snapshot.Peers, Snapshot.Populated, Snapshot.Exports, Snapshot.Exported;
    var subnets := Bind(accepted, v.uid);
    var c := Snapshot.PlanFor(v, subnets, existing, names, profile)[i].content;
    var all := Snapshot.Locals(v, subnets, names[i]);
    Snapshot.LocalsMembers(v, subnets, names[i]);
    SameMembers(Sort(all, Snapshot.UidKey), all);
    forall b | b in c.subnets ensures exists s :: s in accepted && s.cidr == b.cidr {
      BoundAccepted(v, accepted, names[i], b);
    }
    var away := Snapshot.Remotes(v, subnets, existing, names, names[i]);
    Snapshot.RemotesMembers(v, subnets, existing, names, names[i]);
    SameMembers(Sort(away, Snapshot.RemoteKey), away);
    forall r | r in c.remotes ensures exists s :: s in accepted && s.cidr == r.cidr {
      Snapshot.ExportsOfLocals(v, subnets, existing, r.location, r);
      var t :| t in subnets && t.cidr == r.cidr;
      var k :| 0 <= k < |subnets| && subnets[k] == t;
      assert accepted[k] in accepted;
    }
  }

  lemma BoundAccepted(v: Snapshot.Vpc, accepted: seq<Subnet>, location: string, b: Snapshot.BindingSubnet)
    requires b in Snapshot.LocalSet(v, Bind(accepted, v.uid), location)
    ensures exists s :: s in accepted && s.cidr == b.cidr
  {
    var subnets := Bind(accepted, v.uid);
    var t :| t in subnets && Snapshot.Bound(t) == b;
    var k :| 0 <= k < |subnets| && subnets[k] == t;
    assert accepted[k] in accepted;
  }

  lemma {:induction false} ListedMembers(subnets: map<string, Subnet>, order: seq<string>, s: Subnet)
    requires s in Listed(subnets, order) && forall u :: u in subnets ==> subnets[u].uid == u
    ensures s.uid in subnets && subnets[s.uid] == s
  {
    if order != [] && s in Listed(subnets, order[..|order| - 1]) {
      ListedMembers(subnets, order[..|order| - 1], s);
    }
  }

  /** The prefixes of accepted subnets are claimed by claims whose subnets exist. */
  lemma AcceptedClaimed(s: System, r: Reading, c: Content)
    requires ClaimsSound(s) && Decided(s, r) && CompiledFrom(c, Accepted(s, r))
    ensures Named(c) <= ClaimedCidrs(s.claims) && Named(c) <= ClaimedCidrs(Kept(s.claims, s.subnets.Keys))
  {
    hide Admit, Named, Disjoint;
    var o := Admit(Listed(s.subnets, r.order), s.claims, r.ctx);
    AdmitKeepsDisjoint(Listed(s.subnets, r.order), s.claims, r.ctx);
    KeptDisjoint(s.claims, s.subnets.Keys);
    forall x | x in Named(c) ensures x in ClaimedCidrs(s.claims) && x in ClaimedCidrs(Kept(s.claims, s.subnets.Keys)) {
      var t :| t in o.accepted && t.cidr == x;
      ListedMembers(s.subnets, r.order, t);
      assert ClaimOf(t) in s.claims && ClaimOf(t) in Kept(s.claims, s.subnets.Keys);
    }
  }

  /** A wanted snapshot is that of its location and names accepted prefixes only. */
  lemma WantedFits(s: System, r: Reading, i: nat)
    requires Compiles(s, r) && i < |r.names|
    ensures Wanted(s, r, i).location == r.names[i] && CompiledFrom(Wanted(s, r, i), Accepted(s, r))
  {
    hide CompiledFrom, Bind;
    BuildNamesAccepted(r.vpc, Accepted(s, r), Bindings(s.links, r.listing), r.names, r.cfg.classes[Snapshot.ClassOf(r.vpc)], i);
  }

  // ---- What every run keeps ----

  ghost predicate LinkShaped(l: Link, location: string) {
    l.issued != [] && LinkSound(l) && forall k :: 0 <= k < |l.issued| ==> l.issued[k].location == location
  }

  /** A location's end that has applied a tombstone: nothing is configured there, and nothing it may still accept changes that. */
  ghost predicate Clean(l: Link) {
    LinkSound(l) && l.at.Some? && l.issued[l.at.value].deleting && l.touched == {} && Now(l).natives == {}
  }

  ghost predicate Shaped(s: System) {
    (forall n :: n in s.links ==> LinkShaped(s.links[n], n)) && forall l :: l in s.retired ==> Clean(l)
  }

  lemma ShapedNext(l: Link, location: string, e: LinkEvent)
    requires LinkShaped(l, location) && (e.Issue? ==> e.content.location == location)
    ensures LinkShaped(LinkNext(l, e), location)
  {
    LinkNextSound(l, e);
    hide LinkSound, Configured, Active;
  }

  lemma CleanNext(l: Link, e: LinkEvent)
    requires Clean(l) && !e.Issue?
    ensures Clean(LinkNext(l, e))
  {
    LinkNextSound(l, e);
    hide LinkSound, Named;
  }

  /** A tombstone that matches, whatever was issued before it, has left nothing. */
  lemma RetirableClean(l: Link)
    requires LinkSound(l) && Retirable(l)
    ensures Clean(l)
  {
    SameRevisionMeans(l.issued[Told(l).applied.value], Latest(l));
    hide SameRevision, Configured, Active;
    assert Told(l) == l.past[l.told.value];
  }

  lemma NextShaped(s: System, e: Event)
    requires Shaped(s)
    ensures Shaped(Next(s, e))
  {
    hide LinkNext, LinkShaped, Clean, Published, AllApplied, Finalizable, Compiles, Wanted, Admit, Retirable;
    match e {
      case Publish(r, i) =>
        if Due(s, r, i) {
          WantedFits(s, r, i);
          IssueShaped(LinkAt(s.links, r.names[i]), r.names[i], Wanted(s, r, i));
        }
      case Retire(n) =>
        if n in s.links && Retirable(s.links[n]) {
          assert LinkSound(s.links[n]) by { ShapedSound(s.links[n], n); }
          RetirableClean(s.links[n]);
        }
      case Site(n, move) =>
        if n in s.links && !move.Issue? {
          ShapedNext(s.links[n], n, move);
        }
      case Late(k, move) =>
        if k < |s.retired| && !move.Issue? {
          CleanNext(s.retired[k], move);
        }
      case _ =>
    }
  }

  lemma ShapedSound(l: Link, location: string)
    requires LinkShaped(l, location)
    ensures LinkSound(l) && l.issued != []
  {
  }

  lemma IssueShaped(l: Link, location: string, c: Content)
    requires l == NEW_LINK || LinkShaped(l, location)
    requires c.location == location
    ensures LinkShaped(LinkNext(l, Issue(c)), location)
  {
    assert LinkSound(NEW_LINK);
    LinkNextSound(l, Issue(c));
    hide LinkSound;
  }

  lemma {:induction false} RunShaped(events: seq<Event>)
    ensures Shaped(Run(events))
  {
    hide Shaped;
    if events != [] {
      RunShaped(events[..|events| - 1]);
      NextShaped(Run(events[..|events| - 1]), events[|events| - 1]);
    } else {
      assert Shaped(EMPTY) by { EmptyShaped(); }
    }
  }

  lemma EmptyShaped()
    ensures Shaped(EMPTY)
  {
  }

  /** A location whose binding was retired at any time of any run has nothing configured and no native subnet, then and
      ever after, whatever it may still accept. */
  lemma RetiredIsClean(events: seq<Event>, l: Link)
    requires l in Run(events).retired
    ensures l.touched == {} && Now(l).natives == {}
  {
    hide Run;
    RunShaped(events);
  }

  // ---- Claims cover everything configured ----

  function ClaimedCidrs(claims: seq<Claim>): (r: set<string>) {
    set c | c in claims :: c.cidr
  }

  /** Whatever a location has configured, or may still configure, is claimed. */
  ghost predicate Covered(l: Link, claimed: set<string>) {
    && l.touched <= claimed
    && forall k :: 0 <= k < |l.issued| && MayAccept(l, k) ==> Configured(l.issued[k]) <= claimed
  }

  ghost predicate AllCovered(s: System) {
    forall n :: n in s.links ==> Covered(s.links[n], ClaimedCidrs(s.claims))
  }

  ghost predicate Sound(s: System) {
    ClaimsSound(s) && Shaped(s) && AllCovered(s)
  }

  /** At no location may anything issued since an earlier occurrence of its latest snapshot configure more. */
  ghost predicate AllHarmless(s: System) {
    forall n :: n in s.links ==> Harmless(s.links[n].issued)
  }

  lemma CoveredNext(l: Link, e: LinkEvent, claimed: set<string>)
    requires LinkSound(l) && Covered(l, claimed) && (e.Issue? ==> Configured(e.content) <= claimed)
    ensures Covered(LinkNext(l, e), claimed)
  {
    hide Configured, Active, Traced, NeverRevived;
    var m := LinkNext(l, e);
    forall k | 0 <= k < |m.issued| && MayAccept(m, k) ensures Configured(m.issued[k]) <= claimed {
      if k < |l.issued| {
        assert MayAccept(l, k) && m.issued[k] == l.issued[k];
      }
    }
  }

  lemma CoveredMore(l: Link, claimed: set<string>, more: set<string>)
    requires Covered(l, claimed) && claimed <= more
    ensures Covered(l, more)
  {
    hide Configured, MayAccept;
  }

  lemma NewLinkCovered(claimed: set<string>)
    ensures LinkSound(NEW_LINK) && Covered(NEW_LINK, claimed)
  {
  }

  lemma ConfiguredNamed(c: Content)
    ensures Configured(c) <= Named(c)
  {
  }

  /** The latest snapshot of a published binding is the wanted one. */
  lemma LatestWanted(s: System, r: Reading, n: string) returns (i: nat)
    requires Shaped(s) && Published(s, r) && n in s.links
    ensures i < |r.names| && r.names[i] == n && Latest(s.links[n]) == Wanted(s, r, i)
  {
    hide Wanted, LinkSound, Snapshot.Buildable, Decided, Bind;
    ListedBinding(s.links, r.listing, n);
    assert BindingOf(s.links[n]).spec.content.location == n;
    assert n in r.names;
    i :| 0 <= i < |r.names| && r.names[i] == n;
    assert Current(s, r, i);
  }

  lemma {:induction false} ListedBinding(links: map<string, Link>, listing: seq<string>, n: string)
    requires n in listing && n in links && links[n].issued != []
    ensures BindingOf(links[n]) in Bindings(links, listing)
  {
    hide BindingOf;
    if n != listing[|listing| - 1] {
      ListedBinding(links, listing[..|listing| - 1], n);
    }
  }

  /** When every location matches, what is configured anywhere, or may still be, is claimed by a subnet that still exists. */
  lemma ReleaseCovers(s: System, r: Reading, n: string)
    requires Sound(s) && AllHarmless(s) && n in s.links && AllApplied(s.links) && Published(s, r)
    ensures Covered(s.links[n], ClaimedCidrs(Kept(s.claims, s.subnets.Keys)))
    ensures Named(Latest(s.links[n])) <= ClaimedCidrs(Kept(s.claims, s.subnets.Keys))
  {
    hide Named, Disjoint, SameRevision, ClaimsSound, LinkSound, Matches, Harmless, MayAccept, ClaimedCidrs, Kept, Decided, Compiles,
      Current, Wanted, CompiledFrom;
    var i := LatestWanted(s, r, n);
    CompilesDecided(s, r);
    WantedFits(s, r, i);
    AcceptedClaimed(s, r, Latest(s.links[n]));
    ConfiguredNamed(Latest(s.links[n]));
    MatchConfines(s.links[n]);
    hide Configured;
  }

  lemma NextCovered(s: System, e: Event)
    requires Sound(s) && (e.Release? ==> AllHarmless(s))
    ensures AllCovered(Next(s, e))
  {
    hide ClaimsSound, Shaped, Covered, AllHarmless, Admit, Matches, AllApplied, Published, Due, Finalizable, Retirable, Wanted, Compiles,
      Kept, ClaimedCidrs, LinkNext;
    match e {
      case Pass(_, _) => PassCovered(s, e);
      case Publish(_, _) => PublishCovered(s, e);
      case Release(_) => ReleaseCovered(s, e);
      case Site(_, _) => SiteCovered(s, e);
      case _ =>
    }
  }

  lemma PassCovered(s: System, e: Event)
    requires Sound(s) && e.Pass?
    ensures AllCovered(Next(s, e))
  {
    hide Admit, Covered, Disjoint, Shaped;
    var o := Admit(Listed(s.subnets, e.order), s.claims, e.ctx);
    if o.Admitted? {
      AdmitKeepsDisjoint(Listed(s.subnets, e.order), s.claims, e.ctx);
      forall n | n in s.links ensures Covered(s.links[n], ClaimedCidrs(o.claims)) {
        CoveredMore(s.links[n], ClaimedCidrs(s.claims), ClaimedCidrs(o.claims));
      }
    }
  }

  lemma PublishCovered(s: System, e: Event)
    requires Sound(s) && e.Publish?
    ensures AllCovered(Next(s, e))
  {
    hide Covered, ClaimsSound, Shaped, Wanted, CompiledFrom, Compiles, ClaimedCidrs, Kept, LinkNext, Named, Current, Decided;
    if Due(s, e.r, e.i) {
      var c, n := Wanted(s, e.r, e.i), e.r.names[e.i];
      assert Decided(s, e.r) by { CompilesDecided(s, e.r); }
      WantedFits(s, e.r, e.i);
      AcceptedClaimed(s, e.r, c);
      ConfiguredNamed(c);
      var l := LinkAt(s.links, n);
      NewLinkCovered(ClaimedCidrs(s.claims));
      assert LinkSound(l) && Covered(l, ClaimedCidrs(s.claims)) by {
        if n in s.links {
          LinksShaped(s, n);
        }
      }
      CoveredNext(l, Issue(c), ClaimedCidrs(s.claims));
    }
  }

  lemma CompilesDecided(s: System, r: Reading)
    requires Compiles(s, r)
    ensures Decided(s, r)
  {
  }

  lemma LinksShaped(s: System, n: string)
    requires Shaped(s) && n in s.links
    ensures LinkSound(s.links[n]) && s.links[n].issued != []
  {
  }

  lemma ReleaseCovered(s: System, e: Event)
    requires Sound(s) && AllHarmless(s) && e.Release?
    ensures AllCovered(Next(s, e))
  {
    hide Covered, ClaimsSound, Shaped, Published, AllApplied, AllHarmless, Named;
    if Published(s, e.r) && AllApplied(s.links) {
      forall n | n in s.links ensures Covered(s.links[n], ClaimedCidrs(Kept(s.claims, s.subnets.Keys))) {
        ReleaseCovers(s, e.r, n);
      }
    }
  }

  lemma SiteCovered(s: System, e: Event)
    requires Sound(s) && e.Site?
    ensures AllCovered(Next(s, e))
  {
    hide Covered, ClaimsSound, Shaped, LinkNext;
    if e.location in s.links && !e.move.Issue? {
      LinksShaped(s, e.location);
      CoveredNext(s.links[e.location], e.move, ClaimedCidrs(s.claims));
    }
  }

  // ---- Whole runs ----

  /** Whenever claims are released, every location's history is harmless: exactly what the acknowledgement test needs there. */
  ghost predicate Steady(events: seq<Event>) {
    forall k :: 0 <= k < |events| && events[k].Release? ==> AllHarmless(Run(events[..k]))
  }

  lemma {:induction false} RunSound(events: seq<Event>)
    requires Steady(events)
    ensures Sound(Run(events))
  {
    hide ClaimsSound, AllHarmless, Shaped, AllCovered;
    ClaimsAlwaysDisjoint(events);
    RunShaped(events);
    if events != [] {
      var front := events[..|events| - 1];
      assert forall k :: 0 <= k < |front| ==> front[..k] == events[..k] && front[k] == events[k];
      RunSound(front);
      NextCovered(Run(front), events[|events| - 1]);
    } else {
      assert AllCovered(EMPTY) by { EmptyCovered(); }
    }
  }

  lemma EmptyCovered()
    ensures AllCovered(EMPTY)
  {
  }

  /** A location's end of a binding, in use or retired. */
  ghost predicate Anywhere(s: System, l: Link) {
    l in s.links.Values || l in s.retired
  }

  lemma TouchedClaimed(s: System, l: Link)
    requires Sound(s) && Anywhere(s, l)
    ensures l.touched <= ClaimedCidrs(s.claims)
  {
    hide ClaimsSound, LinkShaped, ClaimedCidrs, Configured, MayAccept, LinkSound;
  }

  /** Whatever is configured at any location at any time, its binding in use or retired, is held by a claim, so nothing
      configured anywhere in the VPC ever overlaps anything else configured in it, however far apart the locations'
      snapshots are. */
  lemma ConfiguredNeverOverlaps(events: seq<Event>, l: Link, m: Link, x: string, y: string)
    requires Steady(events) && Anywhere(Run(events), l) && Anywhere(Run(events), m) && x in l.touched && y in m.touched
    ensures exists c :: c in Run(events).claims && c.cidr == x
    ensures x == y || !Clash(x, y)
  {
    hide Run, Steady, Clash, Shaped, AllCovered, Disjoint, Anywhere;
    RunSound(events);
    TouchedClaimed(Run(events), l);
    TouchedClaimed(Run(events), m);
    ClaimedApart(Run(events).claims, x, y);
  }

  lemma ClaimedApart(claims: seq<Claim>, x: string, y: string)
    requires Disjoint(claims) && x in ClaimedCidrs(claims) && y in ClaimedCidrs(claims)
    ensures exists c :: c in claims && c.cidr == x
    ensures x == y || !Clash(x, y)
  {
    hide Clash, SiteConfig.Network;
    var i :| 0 <= i < |claims| && claims[i].cidr == x;
    var j :| 0 <= j < |claims| && claims[j].cidr == y;
    assert claims[i] in claims;
    ClashSymmetric(x, y);
  }

  lemma KeptApartAll(claims: seq<Claim>, present: set<string>, c: Claim)
    requires Disjoint(claims) && c in claims && c.uid !in present
    ensures forall x :: x in ClaimedCidrs(Kept(claims, present)) ==> x != c.cidr && !Clash(x, c.cidr)
  {
    hide Disjoint, Clash, Kept, ClaimedCidrs;
    forall x | x in ClaimedCidrs(Kept(claims, present)) ensures x != c.cidr && !Clash(x, c.cidr) {
      KeptApart(claims, present, c, x);
    }
  }

  lemma SelfClash(cidr: string)
    requires SiteConfig.Network(cidr).Some?
    ensures Clash(cidr, cidr)
  {
  }

  lemma KeptApart(claims: seq<Claim>, present: set<string>, c: Claim, x: string)
    requires Disjoint(claims) && c in claims && c.uid !in present && x in ClaimedCidrs(Kept(claims, present))
    ensures x != c.cidr && !Clash(x, c.cidr)
  {
    hide Clash, SiteConfig.Network;
    KeptDisjoint(claims, present);
    var d :| d in Kept(claims, present) && d.cidr == x;
    var i :| 0 <= i < |claims| && claims[i] == c;
    var j :| 0 <= j < |claims| && claims[j] == d;
    ClashSymmetric(c.cidr, d.cidr);
    SelfClash(c.cidr);
  }

  lemma ReleaseGuard(s: System, r: Reading, c: Claim)
    requires c in s.claims && c !in Next(s, Release(r)).claims
    ensures Published(s, r) && AllApplied(s.links) && c.uid !in s.subnets
  {
    KeptMembers(s.claims, s.subnets.Keys);
    hide Published, AllApplied, Kept;
  }

  /** A claim is released only when every location has reported a snapshot as applied that, like its current one, names the
      claim's prefix neither as its own nor as remote, and nothing is configured anywhere that overlaps it. */
  lemma ReleasedOnlyWhenWithdrawn(events: seq<Event>, r: Reading, c: Claim)
    requires Steady(events + [Release(r)]) && c in Run(events).claims && c !in Next(Run(events), Release(r)).claims
    ensures c.uid !in Run(events).subnets
    ensures forall n :: n in Run(events).links ==> Withdrawn(Run(events).links[n], c.cidr)
    ensures forall l, x :: Anywhere(Run(events), l) && x in l.touched ==> !Clash(x, c.cidr)
  {
    hide Run, Steady, Sound, Next, AllHarmless, Published, AllApplied, Withdrawn, Anywhere, Clash;
    var s := Run(events);
    SteadyFront(events, Release(r));
    RunSound(events);
    ReleaseGuard(s, r, c);
    forall n | n in s.links ensures Withdrawn(s.links[n], c.cidr) {
      ReleaseWithdraws(s, r, c, n);
    }
    forall l, x | Anywhere(s, l) && x in l.touched ensures !Clash(x, c.cidr) {
      ReleaseClears(s, r, c, l, x);
    }
  }

  lemma SteadyFront(events: seq<Event>, e: Event)
    requires Steady(events + [e])
    ensures Steady(events) && (e.Release? ==> AllHarmless(Run(events)))
  {
    var all := events + [e];
    assert all[..|events|] == events && all[|events|] == e;
    assert forall k :: 0 <= k < |events| ==> all[..k] == events[..k] && all[k] == events[k];
  }

  /** The location has reported a snapshot as applied that does not name the prefix, and neither does its current one. */
  predicate Withdrawn(l: Link, cidr: string) {
    var seen := Told(l).applied;
    && l.issued != [] && cidr !in Named(Latest(l))
    && seen.Some? && seen.value < |l.issued| && cidr !in Named(l.issued[seen.value])
  }

  lemma ReleaseWithdraws(s: System, r: Reading, c: Claim, n: string)
    requires Sound(s) && AllHarmless(s) && n in s.links && c in s.claims && c.uid !in s.subnets && Published(s, r) && AllApplied(s.links)
    ensures Withdrawn(s.links[n], c.cidr)
  {
    hide Shaped, AllCovered, AllHarmless, Published, Named, Kept, ClaimedCidrs, Disjoint, SameRevision, Clash, Covered;
    LinksShaped(s, n);
    ReleaseCovers(s, r, n);
    KeptApartAll(s.claims, s.subnets.Keys, c);
    SameRevisionMeans(s.links[n].issued[Told(s.links[n]).applied.value], Latest(s.links[n]));
  }

  lemma ReleaseClears(s: System, r: Reading, c: Claim, l: Link, x: string)
    requires Sound(s) && AllHarmless(s) && c in s.claims && c.uid !in s.subnets && Published(s, r) && AllApplied(s.links)
    requires Anywhere(s, l) && x in l.touched
    ensures !Clash(x, c.cidr)
  {
    hide AllCovered, AllHarmless, Published, Named, Kept, ClaimedCidrs, Disjoint, SameRevision, Clash, LinkShaped, AllApplied, Configured,
      MayAccept, LinkSound;
    KeptApartAll(s.claims, s.subnets.Keys, c);
    if l in s.links.Values {
      var n :| n in s.links && s.links[n] == l;
      ReleaseCovers(s, r, n);
    }
  }

  // ---- What the compiler may rely on ----

  /** Subnets accepted under disjoint claims are what the snapshot compiler expects. */
  lemma AcceptedAreAdmitted(v: Snapshot.Vpc, accepted: seq<Subnet>, claims: seq<Claim>)
    requires Disjoint(claims) && (forall s :: s in accepted ==> ClaimOf(s) in claims)
    requires forall i, j :: 0 <= i < j < |accepted| ==> accepted[i].uid != accepted[j].uid
    ensures Snapshot.Admitted(v, Bind(accepted, v.uid))
  {
    hide SiteConfig.Network, Clash;
    var subnets := Bind(accepted, v.uid);
    forall i, j | 0 <= i < j < |subnets| ensures Snapshot.Apart(subnets[i], subnets[j]) {
      assert accepted[i] in accepted && accepted[j] in accepted;
      ClaimsApart(claims, ClaimOf(accepted[i]), ClaimOf(accepted[j]));
      SelfClash(subnets[i].cidr);
      NoClashNoOverlap(subnets[i].cidr, subnets[j].cidr);
    }
  }

  lemma ClaimsApart(claims: seq<Claim>, c: Claim, d: Claim)
    requires Disjoint(claims) && c in claims && d in claims && c.uid != d.uid
    ensures !Clash(c.cidr, d.cidr) && SiteConfig.Network(c.cidr).Some? && SiteConfig.Network(d.cidr).Some?
  {
    hide Clash, SiteConfig.Network;
    var i :| 0 <= i < |claims| && claims[i] == c;
    var j :| 0 <= j < |claims| && claims[j] == d;
    ClashSymmetric(c.cidr, d.cidr);
  }

  lemma NoClashNoOverlap(s: string, t: string)
    requires !Clash(s, t) && SiteConfig.Network(s).Some? && SiteConfig.Network(t).Some?
    ensures !SiteConfig.Network(s).value.Overlaps(SiteConfig.Network(t).value)
  {
  }
}
