/** Why a location may trust its next snapshot: a subnet leaves the authority's snapshots only once its location has
    acknowledged it absent (internal/platformcontroller/reconciler.go, internal/localcontroller/reconciler.go). */
module Discipline {
  import opened Wrappers
  import opened Ordering
  import opened Admission
  import opened Links
  import opened Authority
  import Snapshot
  import SiteConfig
  import SiteController

  /** The native names a location has acknowledged absent: those that were draining in a snapshot it applied. */
  function Absent(l: Link): (names: set<string>) {
    set i, b | 0 <= i < |l.past| && l.past[i].applied.Some? && l.past[i].applied.value < |l.issued|
               && b in l.issued[l.past[i].applied.value].subnets && b.deleting :: Snapshot.NativeName(b.uid)
  }

  /** A subnet some snapshot of a location had: still a public subnet there under its claim, or acknowledged absent. */
  ghost predicate Accounted(s: System, n: string, l: Link, t: Snapshot.BindingSubnet) {
    && t.uid in s.born
    && if t.uid in s.subnets then
         var p := s.subnets[t.uid];
         p.location == n && p.guarded && (t.deleting ==> p.deleting) && Own(s.claims, t.uid).Some?
       else Snapshot.NativeName(t.uid) in Absent(l)
  }

  ghost predicate AllAccounted(s: System, n: string, l: Link) {
    forall k, t :: 0 <= k < |l.issued| && t in l.issued[k].subnets ==> Accounted(s, n, l, t)
  }

  /** Deletion is never undone from one snapshot to a later one, and a snapshot lists every subnet once. */
  ghost predicate Monotone(issued: seq<Content>) {
    && (forall k :: 0 <= k < |issued| ==> SiteController.Plain(issued[k]) && issued[k].vpcUid == issued[0].vpcUid)
    && forall i, j, t, u :: 0 <= i <= j < |issued| && t in issued[i].subnets && u in issued[j].subnets && t.uid == u.uid && t.deleting ==> u.deleting
  }

  ghost predicate Disciplined(s: System) {
    && (forall u :: u in s.subnets ==> u in s.born)
    && forall n :: n in s.links ==> AllAccounted(s, n, s.links[n]) && Monotone(s.links[n].issued)
  }

  lemma AbsentGrows(l: Link, e: LinkEvent)
    ensures Absent(l) <= Absent(LinkNext(l, e))
  {
    hide Configured, Active, MayAccept, MayWork;
    var m := LinkNext(l, e);
    forall i, b | 0 <= i < |l.past| && l.past[i].applied.Some? && l.past[i].applied.value < |l.issued|
                  && b in l.issued[l.past[i].applied.value].subnets && b.deleting
      ensures Snapshot.NativeName(b.uid) in Absent(m)
    {
      assert m.past[i] == l.past[i] && m.issued[l.past[i].applied.value] == l.issued[l.past[i].applied.value];
    }
  }

  /** It grows by what drains in a snapshot exactly when that is applied, as the location's own record does. */
  lemma AbsentExactly(l: Link, e: LinkEvent)
    requires InOrder(l)
    ensures Absent(LinkNext(l, e)) == Absent(l) + if e.Apply? && l.at.Some? then SiteController.DrainingNames(l.issued[l.at.value]) else {}
  {
    hide Configured, Active, MayAccept, MayWork;
    AbsentGrows(l, e);
    var m := LinkNext(l, e);
    var more := if e.Apply? && l.at.Some? then SiteController.DrainingNames(l.issued[l.at.value]) else {};
    forall i, b | 0 <= i < |m.past| && m.past[i].applied.Some? && m.past[i].applied.value < |m.issued|
                  && b in m.issued[m.past[i].applied.value].subnets && b.deleting
      ensures Snapshot.NativeName(b.uid) in Absent(l) + more
    {
      if i < |l.past| {
        assert m.past[i] == l.past[i] && m.issued[l.past[i].applied.value] == l.issued[l.past[i].applied.value];
      } else if e.Work? {
        assert l.past[|l.past| - 1].applied == m.past[i].applied;
      }
    }
    if e.Apply? && l.at.Some? {
      assert m.past[|l.past|].applied == l.at;
      forall b | b in l.issued[l.at.value].subnets && b.deleting ensures Snapshot.NativeName(b.uid) in Absent(m) {
      }
    }
  }

  /** A subnet as its location's snapshot lists it. */
  function Entry(s: Subnet): (b: Snapshot.BindingSubnet) {
    Snapshot.BindingSubnet(s.uid, s.uid, s.cidr, Snapshot.FirstHost(s.cidr), s.deleting)
  }

  lemma LocalSetMembers(v: Snapshot.Vpc, list: seq<Subnet>, location: string, b: Snapshot.BindingSubnet)
    ensures b in Snapshot.LocalSet(v, Bind(list, v.uid), location) <==> exists t :: t in list && t.location == location && b == Entry(t)
  {
    hide Snapshot.FirstHost;
    var all := Bind(list, v.uid);
    if b in Snapshot.LocalSet(v, all, location) {
      var u :| u in all && Snapshot.Belongs(v, u) && u.location == location && Snapshot.Bound(u) == b;
      var k :| 0 <= k < |all| && all[k] == u;
      assert list[k] in list && b == Entry(list[k]);
    }
    if t :| t in list && t.location == location && b == Entry(t) {
      var k :| 0 <= k < |list| && list[k] == t;
      assert all[k] in all && Snapshot.Bound(all[k]) == b;
    }
  }

  lemma WantedLocals(s: System, r: Reading, i: nat, b: Snapshot.BindingSubnet)
    requires Compiles(s, r) && i < |r.names|
    ensures b in Wanted(s, r, i).subnets <==> exists t :: t in Accepted(s, r) && t.location == r.names[i] && b == Entry(t)
    ensures Wanted(s, r, i).vpcUid == r.vpc.uid
  {
    hide Snapshot.LocalSet, Snapshot.Remotes, Snapshot.Peers, Snapshot.Populated, Snapshot.Buildable, Listing, Bind, Entry, Decided,
      Accepted;
    var all := Bind(Accepted(s, r), r.vpc.uid);
    var locals := Snapshot.Locals(r.vpc, all, r.names[i]);
    Snapshot.LocalsMembers(r.vpc, all, r.names[i]);
    SameMembers(Sort(locals, Snapshot.UidKey), locals);
    LocalSetMembers(r.vpc, Accepted(s, r), r.names[i], b);
  }

  lemma AcceptedPresent(s: System, r: Reading, t: Subnet)
    requires Decided(s, r) && ClaimsSound(s) && t in Accepted(s, r)
    ensures t.uid in s.subnets && s.subnets[t.uid] == t && t.guarded && ClaimOf(t) in s.claims
  {
    hide Admit, Disjoint;
    AdmitKeepsDisjoint(Listed(s.subnets, r.order), s.claims, r.ctx);
    ListedMembers(s.subnets, r.order, t);
  }

  /** A wanted snapshot lists exactly the accepted subnets of its location, as they stand. */
  lemma WantedMembers(s: System, r: Reading, i: nat, b: Snapshot.BindingSubnet)
    requires Compiles(s, r) && i < |r.names| && ClaimsSound(s)
    ensures b in Wanted(s, r, i).subnets <==>
              b.uid in s.subnets && s.subnets[b.uid] in Accepted(s, r) && s.subnets[b.uid].location == r.names[i] && b == Entry(s.subnets[b.uid])
  {
    hide Wanted, Accepted, Snapshot.FirstHost, Snapshot.Buildable, Listing, ClaimsSound, Snapshot.NameSet, Bindings;
    WantedLocals(s, r, i, b);
    if b in Wanted(s, r, i).subnets {
      var t :| t in Accepted(s, r) && t.location == r.names[i] && b == Entry(t);
      AcceptedPresent(s, r, t);
    }
  }

  // ---- What each event keeps ----

  /** No subnet that holds a claim is lost, moved or revived, and no UID comes back. */
  ghost predicate Carries(s: System, t: System) {
    && s.born <= t.born && (forall u :: u in t.subnets ==> u in s.subnets || u !in s.born)
    && forall u :: u in s.subnets && s.subnets[u].guarded && Own(s.claims, u).Some? ==>
         && u in t.subnets && t.subnets[u].location == s.subnets[u].location && t.subnets[u].guarded
         && (s.subnets[u].deleting ==> t.subnets[u].deleting) && Own(t.claims, u).Some?
  }

  lemma CarriesAccounted(s: System, t: System, n: string, l: Link)
    requires Carries(s, t) && AllAccounted(s, n, l)
    ensures AllAccounted(t, n, l)
  {
    hide Absent;
    forall k, b | 0 <= k < |l.issued| && b in l.issued[k].subnets ensures Accounted(t, n, l, b) {
      assert Accounted(s, n, l, b);
    }
  }

  lemma OwnMore(claims: seq<Claim>, more: seq<Claim>, uid: string)
    requires Own(claims, uid).Some? && forall c :: c in claims && c.uid == uid ==> c in more
    ensures Own(more, uid).Some?
  {
  }

  lemma {:induction false} UnguardUnclaimed(list: seq<Subnet>, claims: seq<Claim>, ctx: Context)
    requires Disjoint(claims) && Admit(list, claims, ctx).Unguard?
    ensures Own(claims, Admit(list, claims, ctx).uid).None?
  {
    hide Admissible, Disjoint;
    var front, s := list[..|list| - 1], list[|list| - 1];
    var o := Admit(front, claims, ctx);
    if o.Admitted? {
      AdmitKeepsDisjoint(front, claims, ctx);
      assert forall c :: c in claims ==> c in o.claims;
    } else {
      UnguardUnclaimed(front, claims, ctx);
    }
  }

  lemma PassCarries(s: System, e: Event)
    requires e.Pass? && ClaimsSound(s)
    ensures Carries(s, Next(s, e))
  {
    hide Admit, Disjoint, Own;
    var o := Admit(Listed(s.subnets, e.order), s.claims, e.ctx);
    if o.Unguard? {
      UnguardUnclaimed(Listed(s.subnets, e.order), s.claims, e.ctx);
    } else if o.Admitted? {
      AdmitKeepsDisjoint(Listed(s.subnets, e.order), s.claims, e.ctx);
      forall u | Own(s.claims, u).Some? ensures Own(o.claims, u).Some? {
        OwnMore(s.claims, o.claims, u);
      }
    }
  }

  lemma ReleaseCarries(s: System, e: Event)
    requires e.Release? && ClaimsSound(s)
    ensures Carries(s, Next(s, e))
  {
    hide Published, AllApplied, HoldersListed, Disjoint, Own;
    KeptMembers(s.claims, s.subnets.Keys);
    forall u | u in s.subnets && Own(s.claims, u).Some? ensures Own(Next(s, e).claims, u).Some? {
      OwnMore(s.claims, Next(s, e).claims, u);
    }
  }

  lemma UserCarries(s: System, e: Event)
    requires (e.Submit? || e.Delete?) && ClaimsSound(s) && forall u :: u in s.subnets ==> u in s.born
    ensures Carries(s, Next(s, e))
  {
    hide Own, Disjoint;
  }

  lemma LinkCarries(s: System, e: Event)
    requires e.Publish? || e.Retire? || e.Site? || e.Late?
    ensures Next(s, e).subnets == s.subnets && Next(s, e).born == s.born && Next(s, e).claims == s.claims
    ensures (forall u :: u in s.subnets ==> u in s.born) ==> Carries(s, Next(s, e))
  {
    hide Due, LinkNext, Retirable, Wanted, Own;
  }

  lemma BornKept(s: System, e: Event)
    requires ClaimsSound(s) && forall u :: u in s.subnets ==> u in s.born
    ensures forall u :: u in Next(s, e).subnets ==> u in Next(s, e).born
  {
    hide Due, LinkNext, Retirable, Wanted, Own, Admit, Published, AllApplied, Finalizable, HoldersListed, Kept;
  }

  // ---- Links ----

  lemma NextBorn(s: System, e: Event)
    requires Shaped(s) && ClaimsSound(s) && Disciplined(s) && !e.Finalize?
    ensures Carries(s, Next(s, e))
  {
    hide Shaped, ClaimsSound, AllAccounted, Monotone, Next, Carries;
    if e.Pass? {
      PassCarries(s, e);
    } else if e.Release? {
      ReleaseCarries(s, e);
    } else if e.Submit? || e.Delete? {
      UserCarries(s, e);
    } else {
      LinkCarries(s, e);
    }
  }

  /** One more snapshot, wanted in this state. */
  lemma IssueKeeps(s: System, r: Reading, i: nat, l: Link)
    requires Compiles(s, r) && i < |r.names| && ClaimsSound(s) && Disciplined(s)
    requires AllAccounted(s, r.names[i], l) && Monotone(l.issued) && (l.issued != [] ==> l.issued[0].vpcUid == r.vpc.uid)
    ensures var m := LinkNext(l, Issue(Wanted(s, r, i))); AllAccounted(s, r.names[i], m) && Monotone(m.issued)
  {
    hide Compiles, Wanted, Accepted, Absent, ClaimsSound, Disciplined, Own, Snapshot.FirstHost;
    var c, n, m := Wanted(s, r, i), r.names[i], LinkNext(l, Issue(Wanted(s, r, i)));
    AbsentGrows(l, Issue(c));
    forall b | b in c.subnets ensures b.uid in s.subnets && b == Entry(s.subnets[b.uid]) && Accounted(s, n, m, b) {
      EntryAccounted(s, r, i, m, b);
    }
    forall k, b | 0 <= k < |m.issued| && b in m.issued[k].subnets ensures Accounted(s, n, m, b) {
      if k < |l.issued| {
        assert Accounted(s, n, l, b);
      }
    }
    WantedVpc(s, r, i);
    assert SiteController.Plain(c);
    forall a, j, t, u | 0 <= a <= j < |m.issued| && t in m.issued[a].subnets && u in m.issued[j].subnets && t.uid == u.uid && t.deleting
      ensures u.deleting
    {
      assert Accounted(s, n, m, t);
      if j < |l.issued| {
        assert t in l.issued[a].subnets && u in l.issued[j].subnets;
      }
    }
  }

  lemma WantedVpc(s: System, r: Reading, i: nat)
    requires Compiles(s, r) && i < |r.names|
    ensures Wanted(s, r, i).vpcUid == r.vpc.uid
  {
    hide Snapshot.Buildable, Listing;
  }

  lemma EntryAccounted(s: System, r: Reading, i: nat, l: Link, b: Snapshot.BindingSubnet)
    requires Compiles(s, r) && i < |r.names| && ClaimsSound(s) && Disciplined(s) && b in Wanted(s, r, i).subnets
    ensures Accounted(s, r.names[i], l, b) && b.uid in s.subnets && b == Entry(s.subnets[b.uid])
  {
    hide Compiles, Wanted, Accepted, Absent, AllAccounted, Monotone, Own, Decided, Disjoint, Snapshot.FirstHost;
    WantedMembers(s, r, i, b);
    CompilesDecided(s, r);
    AcceptedPresent(s, r, s.subnets[b.uid]);
    assert ClaimOf(s.subnets[b.uid]) in s.claims;
  }

  /** A finalized subnet was acknowledged absent by its own location. */
  lemma FinalizedAbsent(s: System, r: Reading, uid: string)
    requires Shaped(s) && ClaimsSound(s) && Finalizable(s, r, uid)
    ensures Snapshot.NativeName(uid) in Absent(s.links[s.subnets[uid].location])
  {
    var n := s.subnets[uid].location;
    var l := s.links[n];
    hide Wanted, Accepted, Compiles, ClaimsSound, LinkSound, SameRevision, Snapshot.FirstHost, Current;
    var i := LatestWanted(s, r, n);
    WantedMembers(s, r, i, Entry(s.subnets[uid]));
    assert s.subnets[uid].uid == uid by { UnderUid(s, uid); }
    var seen := Told(l).applied.value;
    SameRevisionMeans(l.issued[seen], Latest(l));
    assert Entry(s.subnets[uid]) in l.issued[seen].subnets;
    assert l.past[l.told.value].applied == Some(seen);
  }

  lemma UnderUid(s: System, uid: string)
    requires ClaimsSound(s) && uid in s.subnets
    ensures s.subnets[uid].uid == uid
  {
  }

  lemma LinkOf(s: System, n: string)
    requires Disciplined(s) && n in s.links
    ensures AllAccounted(s, n, s.links[n]) && Monotone(s.links[n].issued)
  {
  }

  /** With every link accounted for in the new state, discipline is kept. */
  lemma PublishKeeps(s: System, e: Event)
    requires e.Publish? && Shaped(s) && ClaimsSound(s) && Disciplined(s)
    ensures Disciplined(Next(s, e))
  {
    hide AllAccounted, Monotone, Shaped, ClaimsSound, Wanted, Compiles, LinkNext, Current, Own;
    LinkCarries(s, e);
    if Due(s, e.r, e.i) {
      var t, n, l := Next(s, e), e.r.names[e.i], LinkAt(s.links, e.r.names[e.i]);
      assert AllAccounted(s, n, l) && Monotone(l.issued) && (l.issued != [] ==> l.issued[0].vpcUid == e.r.vpc.uid) by {
        FreshLink(s, n);
        if n in s.links {
          SameVpc(s, e.r, n);
        }
      }
      IssueKeeps(s, e.r, e.i, l);
      forall k | k in t.links ensures AllAccounted(t, k, t.links[k]) && Monotone(t.links[k].issued) {
        CarriesAccounted(s, t, k, t.links[k]);
      }
    }
  }

  lemma FreshLink(s: System, n: string)
    ensures AllAccounted(s, n, NEW_LINK) && Monotone(NEW_LINK.issued) && NEW_LINK.issued == []
  {
  }

  /** All snapshots of a binding are of the VPC that is compiled. */
  lemma SameVpc(s: System, r: Reading, n: string)
    requires Shaped(s) && Disciplined(s) && Compiles(s, r) && n in s.links
    ensures s.links[n].issued != [] && s.links[n].issued[0].vpcUid == r.vpc.uid
  {
    hide LinkSound, AllAccounted, Decided, Accepted, Bind, Snapshot.ReadsInventory, Snapshot.Placeable, Listing, Snapshot.NameSet;
    ListedBinding(s.links, r.listing, n);
    LinkOf(s, n);
    assert BindingOf(s.links[n]).vpcUid == r.vpc.uid;
  }

  lemma SiteKeeps(s: System, e: Event)
    requires (e.Site? || e.Retire? || e.Late?) && Disciplined(s)
    ensures Disciplined(Next(s, e))
  {
    hide AllAccounted, Monotone, LinkNext, Retirable, Own;
    LinkCarries(s, e);
    var t := Next(s, e);
    forall n | n in t.links ensures AllAccounted(t, n, t.links[n]) && Monotone(t.links[n].issued) {
      LinkOf(s, n);
      if t.links[n] != s.links[n] {
        MoveAccounted(s, n, s.links[n], e.move);
      }
      CarriesAccounted(s, t, n, t.links[n]);
    }
  }

  lemma MoveAccounted(s: System, n: string, l: Link, e: LinkEvent)
    requires AllAccounted(s, n, l) && !e.Issue?
    ensures AllAccounted(s, n, LinkNext(l, e)) && LinkNext(l, e).issued == l.issued
  {
    hide Absent, Configured, Active, Own;
    AbsentGrows(l, e);
    forall k, b | 0 <= k < |l.issued| && b in l.issued[k].subnets ensures Accounted(s, n, LinkNext(l, e), b) {
      assert Accounted(s, n, l, b);
    }
  }

  lemma FinalizeKeeps(s: System, e: Event)
    requires e.Finalize? && Shaped(s) && ClaimsSound(s) && Disciplined(s)
    ensures Disciplined(Next(s, e))
  {
    hide Monotone, Shaped, ClaimsSound, Finalizable, Absent, Own;
    if Finalizable(s, e.r, e.uid) {
      FinalizedAbsent(s, e.r, e.uid);
      var t := Next(s, e);
      forall n, k, b | n in t.links && 0 <= k < |t.links[n].issued| && b in t.links[n].issued[k].subnets ensures Accounted(t, n, t.links[n], b) {
        assert Accounted(s, n, s.links[n], b);
      }
    }
  }

  lemma NextDisciplined(s: System, e: Event)
    requires Shaped(s) && ClaimsSound(s) && Disciplined(s)
    ensures Disciplined(Next(s, e))
  {
    hide Shaped, ClaimsSound, AllAccounted, Monotone, Next, Carries;
    if e.Publish? {
      PublishKeeps(s, e);
    } else if e.Site? || e.Retire? || e.Late? {
      SiteKeeps(s, e);
    } else if e.Finalize? {
      FinalizeKeeps(s, e);
    } else {
      NextBorn(s, e);
      BornKept(s, e);
      SameLinks(s, e);
      forall n | n in s.links ensures AllAccounted(Next(s, e), n, s.links[n]) {
        CarriesAccounted(s, Next(s, e), n, s.links[n]);
      }
    }
  }

  lemma SameLinks(s: System, e: Event)
    requires e.Submit? || e.Delete? || e.Pass? || e.Release?
    ensures Next(s, e).links == s.links
  {
    hide Admit, Published, AllApplied, HoldersListed, Kept;
  }

  // ---- Whole runs ----

  /** In every run a subnet that any snapshot of a binding ever had is either still a public subnet of that location, under
      its claim, or was acknowledged absent by the location; and no later snapshot undoes its deletion. */
  lemma {:induction false} PresentOrAcknowledged(events: seq<Event>)
    ensures Disciplined(Run(events))
  {
    hide Disciplined, Shaped, ClaimsSound, Next;
    if events != [] {
      var front := events[..|events| - 1];
      PresentOrAcknowledged(front);
      RunShaped(front);
      ClaimsAlwaysDisjoint(front);
      NextDisciplined(Run(front), events[|events| - 1]);
    } else {
      EmptyDisciplined();
    }
  }

  lemma EmptyDisciplined()
    ensures Run([]) == EMPTY && Disciplined(EMPTY)
  {
  }

  // ---- What the next snapshot may be ----

  lemma SameNative(a: string, b: string)
    requires Snapshot.NativeName(a) == Snapshot.NativeName(b)
    ensures a == b
  {
    assert Snapshot.NativeName(a)[3..] == a && Snapshot.NativeName(b)[3..] == b;
  }

  /** What was acknowledged absent is draining in every snapshot from then on. */
  lemma AbsentDrains(l: Link, issued: seq<Content>, j: nat, b: Snapshot.BindingSubnet)
    requires l.issued <= issued && Monotone(issued) && j < |issued| && b in issued[j].subnets && Snapshot.NativeName(b.uid) in Absent(l)
    requires forall i :: 0 <= i < |l.past| && l.past[i].applied.Some? ==> l.past[i].applied.value <= j
    ensures b.deleting
  {
    hide SiteController.Plain, Snapshot.NativeName;
    var i, a :| 0 <= i < |l.past| && l.past[i].applied.Some? && l.past[i].applied.value < |l.issued|
                && a in l.issued[l.past[i].applied.value].subnets && a.deleting && Snapshot.NativeName(a.uid) == Snapshot.NativeName(b.uid);
    SameNative(a.uid, b.uid);
    assert a in issued[l.past[i].applied.value].subnets;
  }

  /** A site at snapshot k of its binding, and what its location has acknowledged absent. */
  function SiteOf(w: SiteController.World, l: Link): (t: SiteController.Site) {
    SiteController.Site(w, Absent(l))
  }

  /** Every subnet of one snapshot is acknowledged absent or listed by another. */
  ghost predicate Carried(l: Link, c: Content, d: Content) {
    forall t :: t in c.subnets ==> Snapshot.NativeName(t.uid) in Absent(l) || exists u :: u in d.subnets && u.uid == t.uid
  }

  /** What a location may rely on, in terms of the link. */
  lemma SuccessorMeans(l: Link, issued: seq<Content>, k: nat, j: nat, w: SiteController.World)
    requires l.issued <= issued && Monotone(issued) && k < |issued| && j < |issued| && w.spec.content == issued[k]
    requires issued[k].location == issued[j].location
    requires forall i :: 0 <= i < |l.past| && l.past[i].applied.Some? ==> l.past[i].applied.value <= j
    ensures SiteController.Successor(SiteOf(w, l), issued[j]) <==> Carried(l, issued[k], issued[j])
  {
    hide Absent, Snapshot.NativeName, SiteController.Plain;
    assert SiteController.Plain(issued[j]) && issued[j].vpcUid == issued[k].vpcUid;
    forall b | b in issued[j].subnets && Snapshot.NativeName(b.uid) in Absent(l) ensures b.deleting {
      AbsentDrains(l, issued, j, b);
    }
  }

  /** The pass admits every subnet of a snapshot that is still public and not acknowledged absent. */
  ghost predicate Retains(s: System, r: Reading, l: Link, c: Content)
    requires Decided(s, r)
  {
    forall t :: t in c.subnets && t.uid in s.subnets && Snapshot.NativeName(t.uid) !in Absent(l) ==> s.subnets[t.uid] in Accepted(s, r)
  }

  lemma CarriedRetains(s: System, r: Reading, i: nat, l: Link, c: Content)
    requires Compiles(s, r) && i < |r.names| && ClaimsSound(s)
    requires forall t :: t in c.subnets ==> Accounted(s, r.names[i], l, t)
    ensures Decided(s, r) && (Carried(l, c, Wanted(s, r, i)) <==> Retains(s, r, l, c))
  {
    CompilesDecided(s, r);
    hide Compiles, Wanted, Accepted, Absent, ClaimsSound, Own, Snapshot.NativeName, Decided, Snapshot.FirstHost;
    forall t | t in c.subnets && t.uid in s.subnets
      ensures (exists u :: u in Wanted(s, r, i).subnets && u.uid == t.uid) <==> s.subnets[t.uid] in Accepted(s, r)
    {
      assert Accounted(s, r.names[i], l, t);
      UnderUid(s, t.uid);
      WantedMembers(s, r, i, Entry(s.subnets[t.uid]));
      forall u | u in Wanted(s, r, i).subnets && u.uid == t.uid ensures s.subnets[t.uid] in Accepted(s, r) {
        WantedMembers(s, r, i, u);
      }
    }
  }

  /** The snapshot a pass wants next is one the location can rely on exactly when the pass admits every subnet of the
      location's snapshot that is still public and not yet acknowledged absent. */
  lemma SucceedsExactly(events: seq<Event>, r: Reading, i: nat, w: SiteController.World, k: nat)
    requires var s := Run(events);
      && Due(s, r, i) && r.names[i] in s.links && k < |s.links[r.names[i]].issued| && w.spec.content == s.links[r.names[i]].issued[k]
    ensures var s := Run(events); var l := s.links[r.names[i]];
      Decided(s, r) && (SiteController.Successor(SiteOf(w, l), Wanted(s, r, i)) <==> Retains(s, r, l, l.issued[k]))
  {
    hide Run, Wanted, Compiles, Current, Absent, ClaimsSound, Accounted, Monotone, LinkSound, Carried, Retains, Disciplined, Shaped;
    var s := Run(events);
    PresentOrAcknowledged(events);
    RunShaped(events);
    ClaimsAlwaysDisjoint(events);
    var n, l, c := r.names[i], s.links[r.names[i]], Wanted(s, r, i);
    LinkOf(s, n);
    SameVpc(s, r, n);
    IssueKeeps(s, r, i, l);
    WantedFits(s, r, i);
    CarriedRetains(s, r, i, l, l.issued[k]);
    OfLocation(s, n, k);
    AppliedIssued(s, n);
    var issued := l.issued + [c];
    assert LinkNext(l, Issue(c)).issued == issued && issued[k] == l.issued[k];
    SuccessorMeans(l, issued, k, |l.issued|, w);
  }

  lemma OfLocation(s: System, n: string, k: nat)
    requires Shaped(s) && n in s.links && k < |s.links[n].issued|
    ensures s.links[n].issued[k].location == n
  {
    hide LinkSound;
  }

  lemma AppliedIssued(s: System, n: string)
    requires Shaped(s) && n in s.links
    ensures var l := s.links[n]; forall i :: 0 <= i < |l.past| && l.past[i].applied.Some? ==> AtMost(l.past[i].applied, l.at) && l.at.value < |l.issued|
  {
    hide Traced, NeverRevived;
  }

  // ---- Runs that admit what they admitted ----

  /** Every pass that publishes admits every public subnet of that location that holds a claim: its pools still contain it
      and the listing shows it. */
  ghost predicate Complete(events: seq<Event>) {
    forall j :: 0 <= j < |events| && events[j].Publish? ==> Keeps(Run(events[..j]), events[j].r, events[j].i)
  }

  ghost predicate Keeps(s: System, r: Reading, i: nat) {
    Due(s, r, i) ==> forall u :: u in s.subnets && Own(s.claims, u).Some? && s.subnets[u].location == r.names[i] ==> s.subnets[u] in Accepted(s, r)
  }

  ghost predicate AllCarried(l: Link) {
    forall a, b :: 0 <= a <= b < |l.issued| ==> Carried(l, l.issued[a], l.issued[b])
  }

  lemma CarriedGrows(l: Link, m: Link, c: Content, d: Content)
    requires Carried(l, c, d) && Absent(l) <= Absent(m)
    ensures Carried(m, c, d)
  {
    hide Absent;
  }

  lemma MoveCarried(l: Link, e: LinkEvent)
    requires AllCarried(l) && !e.Issue?
    ensures AllCarried(LinkNext(l, e))
  {
    hide Absent, Carried, Configured, Active, MayAccept, MayWork;
    AbsentGrows(l, e);
    forall a, b | 0 <= a <= b < |l.issued| ensures Carried(LinkNext(l, e), l.issued[a], l.issued[b]) {
      CarriedGrows(l, LinkNext(l, e), l.issued[a], l.issued[b]);
    }
  }

  lemma IssueCarried(s: System, r: Reading, i: nat, l: Link)
    requires Due(s, r, i) && Keeps(s, r, i) && ClaimsSound(s) && AllAccounted(s, r.names[i], l) && AllCarried(l)
    ensures AllCarried(LinkNext(l, Issue(Wanted(s, r, i))))
  {
    hide Compiles, Wanted, Current, Accepted, Absent, ClaimsSound, Own, Carried, Decided, Snapshot.NativeName;
    var c, m := Wanted(s, r, i), LinkNext(l, Issue(Wanted(s, r, i)));
    AbsentGrows(l, Issue(c));
    forall a, b | 0 <= a <= b < |m.issued| ensures Carried(m, m.issued[a], m.issued[b]) {
      if b < |l.issued| {
        CarriedGrows(l, m, l.issued[a], l.issued[b]);
      } else if a < |l.issued| {
        assert forall t :: t in l.issued[a].subnets ==> Accounted(s, r.names[i], l, t);
        CarriedRetains(s, r, i, l, l.issued[a]);
        assert Retains(s, r, l, l.issued[a]);
        CarriedGrows(l, m, l.issued[a], c);
      } else {
        CarriedSelf(m, c);
      }
    }
  }

  lemma CarriedSelf(l: Link, c: Content)
    ensures Carried(l, c, c)
  {
    hide Absent;
  }

  ghost predicate EachCarried(s: System) {
    forall n :: n in s.links ==> AllCarried(s.links[n])
  }

  lemma NextCarried(s: System, e: Event)
    requires ClaimsSound(s) && Disciplined(s) && EachCarried(s) && (e.Publish? ==> Keeps(s, e.r, e.i))
    ensures EachCarried(Next(s, e))
  {
    hide ClaimsSound, AllAccounted, Monotone, AllCarried, LinkNext, Wanted, Compiles, Current, Retirable, Keeps;
    if e.Publish? {
      if Due(s, e.r, e.i) {
        var n := e.r.names[e.i];
        FreshLink(s, n);
        FreshCarried();
        IssueCarried(s, e.r, e.i, LinkAt(s.links, n));
      }
    } else if e.Site? {
      if e.location in s.links && !e.move.Issue? {
        MoveCarried(s.links[e.location], e.move);
      }
    } else if !e.Retire? && !e.Late? {
      OtherLinks(s, e);
    }
  }

  lemma OtherLinks(s: System, e: Event)
    requires !e.Publish? && !e.Site? && !e.Retire? && !e.Late?
    ensures Next(s, e).links == s.links
  {
    hide Admit, Published, AllApplied, HoldersListed, Kept, Finalizable;
  }

  lemma FreshCarried()
    ensures AllCarried(NEW_LINK)
  {
  }

  lemma {:induction false} RunCarried(events: seq<Event>)
    requires Complete(events)
    ensures EachCarried(Run(events))
  {
    hide EachCarried, Next, Disciplined, ClaimsSound, Keeps;
    if events != [] {
      var front := events[..|events| - 1];
      assert forall j :: 0 <= j < |front| ==> front[..j] == events[..j] && front[j] == events[j];
      RunCarried(front);
      PresentOrAcknowledged(front);
      ClaimsAlwaysDisjoint(front);
      NextCarried(Run(front), events[|events| - 1]);
    } else {
      assert EachCarried(EMPTY) by { NoneCarried(); }
    }
  }

  lemma NoneCarried()
    ensures EachCarried(EMPTY)
  {
  }

  /** In every such run, whatever snapshot a location may accept next is one it can rely on. */
  lemma SnapshotsSucceed(events: seq<Event>, n: string, k: nat, w: SiteController.World)
    requires Complete(events) && n in Run(events).links
    requires var l := Run(events).links[n];
      l.at.Some? && l.at.value < |l.issued| && MayAccept(l, k) && w.spec.content == l.issued[l.at.value]
    ensures var l := Run(events).links[n]; SiteController.Successor(SiteOf(w, l), l.issued[k])
  {
    hide Run, Complete, Absent, Accounted, Monotone, Carried, Disciplined, Shaped, SiteController.Successor;
    var s := Run(events);
    PresentOrAcknowledged(events);
    RunShaped(events);
    RunCarried(events);
    LinkOf(s, n);
    var l := s.links[n];
    OfLocation(s, n, k);
    OfLocation(s, n, l.at.value);
    AppliedIssued(s, n);
    assert AllCarried(l);
    SuccessorMeans(l, l.issued, l.at.value, k, w);
  }
}
