/** What one step of the authority and of a location's end does, and exactly when it does it, in subnets, claims, issued
    snapshots and reported statuses (internal/platformcontroller/reconciler.go, internal/platformplan/plan.go). */
module AuthorityMeaning {
  import opened Wrappers
  import opened Ordering
  import opened Admission
  import opened Links
  import opened Authority
  import Snapshot
  import AdmissionMeaning

  // ---- A location's end ----

  /** What a snapshot asks for: every prefix it names, or nothing when it is a tombstone. */
  lemma AsksFor(c: Content, x: string)
    ensures x in Configured(c) <==> !c.deleting && ((exists b :: b in c.subnets && b.cidr == x) || exists r :: r in c.remotes && r.cidr == x)
    ensures x in Active(c) <==> !c.deleting && exists b :: b in c.subnets && !b.deleting && x == "ps-" + b.uid
    ensures x in Named(c) <==> (exists b :: b in c.subnets && b.cidr == x) || exists r :: r in c.remotes && r.cidr == x
  {
    if b :| b in c.subnets && !b.deleting && x == "ps-" + b.uid {
      assert Snapshot.NativeName(b.uid) == x;
    }
    if x in Active(c) {
      var b :| b in c.subnets && !b.deleting && Snapshot.NativeName(b.uid) == x;
      assert x == "ps-" + b.uid;
    }
  }

  /** Equal revisions mean equal snapshots apart from the readiness of gateways. */
  lemma RevisionMeans(c: Content, d: Content)
    ensures SameRevision(c, d) <==>
            && c.(peers := []) == d.(peers := []) && |c.peers| == |d.peers|
            && forall i :: 0 <= i < |c.peers| ==>
                 && c.peers[i].location == d.peers[i].location
                 && c.peers[i].endpoint.(ready := false) == d.peers[i].endpoint.(ready := false)
  {
    var a, b := Snapshot.UnreadyAll(c.peers), Snapshot.UnreadyAll(d.peers);
    if SameRevision(c, d) {
      assert a == b;
      forall i | 0 <= i < |c.peers|
        ensures c.peers[i].location == d.peers[i].location && c.peers[i].endpoint.(ready := false) == d.peers[i].endpoint.(ready := false)
      {
        assert a[i] == Snapshot.Unready(c.peers[i]) && b[i] == Snapshot.Unready(d.peers[i]);
      }
    } else if c.(peers := []) == d.(peers := []) {
      assert a != b;
    }
  }

  /** A later or the first snapshot is accepted, and after a tombstone only a tombstone. */
  lemma AcceptMeans(l: Link, k: nat)
    ensures var may := k < |l.issued| && (l.at.Some? ==> l.at.value <= k && (l.issued[l.at.value].deleting ==> l.issued[k].deleting));
      LinkNext(l, Accept(k)) == if may then Link(l.issued, Some(k), l.past, l.told, l.touched) else l
  {
  }

  /** Applying the accepted snapshot adds a status that names it and lists its active native subnets, and leaves configured
      what it asks for. */
  lemma ApplyMeans(l: Link)
    ensures var m := LinkNext(l, Apply);
      if l.at.Some? && l.at.value < |l.issued| then
        && m.issued == l.issued && m.at == l.at && m.told == l.told && |m.past| == |l.past| + 1 && m.past[..|l.past|] == l.past
        && m.past[|l.past|].applied == l.at && m.past[|l.past|].natives == Active(l.issued[l.at.value])
        && m.past[|l.past|].gateways == (if l.past == [] then [] else l.past[|l.past| - 1].gateways)
        && m.touched == Configured(l.issued[l.at.value])
      else m == l
  {
  }

  /** Work under the accepted snapshot adds only prefixes it asks for, lists no native subnet that was not listed or active, and
      keeps listing the active ones listed before. */
  lemma WorkMeans(l: Link, cidrs: set<string>, natives: set<string>, gateways: seq<Snapshot.Gateway>)
    ensures var m := LinkNext(l, Work(cidrs, natives, gateways)); var before := if l.past == [] then {} else l.past[|l.past| - 1].natives;
      var may := l.at.Some? && l.at.value < |l.issued| &&
                 var c := l.issued[l.at.value];
                 && (forall x :: x in cidrs ==> x in Configured(c)) && (forall n :: n in natives ==> n in before || n in Active(c))
                 && (forall n :: n in before && n in Active(c) ==> n in natives);
      if may then
        && m.issued == l.issued && m.at == l.at && m.told == l.told && |m.past| == |l.past| + 1 && m.past[..|l.past|] == l.past
        && m.past[|l.past|] == Status(if l.past == [] then None else l.past[|l.past| - 1].applied, natives, gateways)
        && m.touched == l.touched + cidrs
      else m == l
  {
    hide Configured, Active;
  }

  /** A report is a status not older than the one reported before; issuing appends. */
  lemma ReportMeans(l: Link, i: nat, c: Content)
    ensures LinkNext(l, Report(i)) ==
            if i < |l.past| && (l.told.Some? ==> l.told.value <= i) then Link(l.issued, l.at, l.past, Some(i), l.touched) else l
    ensures LinkNext(l, Issue(c)) == Link(l.issued + [c], l.at, l.past, l.told, l.touched)
  {
  }

  /** The status last reported, if any. */
  ghost predicate Reported(l: Link, s: Status) {
    l.told.Some? && l.told.value < |l.past| && s == l.past[l.told.value]
  }

  /** The reported status names a snapshot of the content last issued. */
  lemma MatchMeans(l: Link)
    ensures Matches(l) <==>
            exists s, k: nat :: Reported(l, s) && s.applied == Some(k) && k < |l.issued| && SameRevision(l.issued[k], l.issued[|l.issued| - 1])
  {
    hide SameRevision;
    if Matches(l) {
      assert Reported(l, Told(l));
    }
  }

  // ---- What a pass reads ----

  /** A stored binding carries the last snapshot issued, the revision of the one reported applied, and the native subnets and
      gateways reported. */
  lemma BindingMeans(l: Link, s: Status)
    requires l.issued != []
    ensures var b, c := BindingOf(l), l.issued[|l.issued| - 1];
      && b.vpcUid == c.vpcUid && b.namespace == c.namespace && b.spec.content == c && b.spec.revision == Snapshot.RevisionOf(c)
      && (Reported(l, s) ==>
            && b.resources == s.natives && b.gateways == s.gateways
            && (s.applied.Some? && s.applied.value < |l.issued| ==> b.applied == Snapshot.RevisionOf(l.issued[s.applied.value]))
            && (s.applied.None? ==> b.applied == Snapshot.Unset))
      && (l.told.None? ==> b.resources == {} && b.gateways == [] && b.applied == Snapshot.Unset)
  {
    hide Snapshot.RevisionOf;
  }

  /** What the snapshot compiler is given for an accepted subnet. */
  lemma BoundMeans(accepted: seq<Subnet>, vpcUid: string, i: int)
    requires 0 <= i < |accepted|
    ensures |Bind(accepted, vpcUid)| == |accepted|
    ensures var t, s := Bind(accepted, vpcUid)[i], accepted[i];
      t.name == s.uid && t.uid == s.uid && t.cidr == s.cidr && t.location == s.location && t.vpcUid == vpcUid && (t.deleting <==> s.deleting)
  {
  }

  lemma {:induction false} ListedMeans(subnets: map<string, Subnet>, order: seq<string>, last: string)
    ensures Listed(subnets, []) == [] && Listed(subnets, order + [last]) == Listed(subnets, order) + if last in subnets then [subnets[last]] else []
  {
    assert (order + [last])[..|order|] == order;
  }

  lemma {:induction false} BindingsMean(links: map<string, Link>, listing: seq<string>, last: string)
    ensures Bindings(links, []) == []
    ensures Bindings(links, listing + [last]) == Bindings(links, listing) + if last in links && links[last].issued != [] then [BindingOf(links[last])] else []
  {
    assert (listing + [last])[..|listing|] == listing;
    hide BindingOf;
  }

  // ---- What a step does ----

  /** A subnet is submitted once per UID, without a finalizer; an unguarded one goes at once, a guarded one is marked. */
  lemma SubnetSteps(s: System, n: Subnet, uid: string)
    ensures Next(s, Submit(n)) ==
            if n.uid in s.born || n.guarded || n.deleting then s else System(s.subnets[n.uid := n], s.born + {n.uid}, s.claims, s.links, s.retired)
    ensures var t := Next(s, Delete(uid));
      if uid !in s.subnets then t == s
      else if !s.subnets[uid].guarded then t == System(s.subnets - {uid}, s.born, s.claims, s.links, s.retired)
      else
        var d := s.subnets[uid];
        t == System(s.subnets[uid := Subnet(d.uid, d.cidr, d.location, d.vpcUid, true, true)], s.born, s.claims, s.links, s.retired)
  {
  }

  /** A pass writes one finalizer, or drops one, or writes the claims it computed. */
  lemma PassMeans(s: System, order: seq<string>, ctx: Context)
    ensures var t, o := Next(s, Pass(order, ctx)), Admit(Listed(s.subnets, order), s.claims, ctx);
      && t.born == s.born && t.links == s.links && t.retired == s.retired
      && (o.Guard? ==>
            && t.claims == s.claims && t.subnets.Keys == s.subnets.Keys
            && forall u :: u in s.subnets ==> t.subnets[u] == if u == o.uid then s.subnets[u].(guarded := true) else s.subnets[u])
      && (o.Unguard? ==> t.claims == s.claims && t.subnets == s.subnets - {o.uid})
      && (o.Admitted? ==> t.subnets == s.subnets && t.claims == o.claims)
  {
    hide Admit;
  }

  /** A pass compiles exactly when admission has nothing to write, it read every binding once, and the inputs allow it. */
  lemma CompilesMeans(s: System, r: Reading)
    ensures var o := Admit(Listed(s.subnets, r.order), s.claims, r.ctx);
      Compiles(s, r) <==>
        && o.Admitted? && o.claims == s.claims && r.ctx.vpcUid == r.vpc.uid
        && (forall i, j :: 0 <= i < j < |r.listing| ==> r.listing[i] != r.listing[j]) && (forall l :: l in r.listing <==> l in s.links)
        && Snapshot.Buildable(r.vpc, Bind(o.accepted, r.vpc.uid), Bindings(s.links, r.listing), r.cfg)
        && Listing(r.names, Snapshot.NameSet(r.vpc, Bind(o.accepted, r.vpc.uid), Bindings(s.links, r.listing)), Self)
  {
    hide Admit, Snapshot.Buildable, Snapshot.NameSet, Bind, Bindings;
  }

  /** The location already has the snapshot the compiler wants for it. */
  ghost predicate Has(s: System, r: Reading, i: nat)
    requires Compiles(s, r) && i < |r.names|
  {
    var l := r.names[i];
    l in s.links && s.links[l].issued != [] && s.links[l].issued[|s.links[l].issued| - 1] == Wanted(s, r, i)
  }

  lemma HasMeans(s: System, r: Reading)
    requires Compiles(s, r)
    ensures forall i: nat :: i < |r.names| ==> (Current(s, r, i) <==> Has(s, r, i))
  {
    hide Compiles, Wanted;
  }

  /** Publishing gives the first location that has another snapshot, of the same transport or none, the one that is wanted, and
      touches no other. */
  lemma PublishMeans(s: System, r: Reading, i: nat)
    ensures var due := Compiles(s, r) && i < |r.names| && !Has(s, r, i) && (forall j :: 0 <= j < i ==> Has(s, r, j))
                       && (r.names[i] in s.links && s.links[r.names[i]].issued != [] ==>
                             s.links[r.names[i]].issued[|s.links[r.names[i]].issued| - 1].profile == Wanted(s, r, i).profile);
      var t := Next(s, Publish(r, i));
      && (!due ==> t == s)
      && (due ==>
            && t.subnets == s.subnets && t.born == s.born && t.claims == s.claims && t.retired == s.retired
            && t.links.Keys == s.links.Keys + {r.names[i]}
            && t.links[r.names[i]] ==
               (if r.names[i] in s.links then s.links[r.names[i]].(issued := s.links[r.names[i]].issued + [Wanted(s, r, i)])
                else Link([Wanted(s, r, i)], None, [], None, {}))
            && forall l :: l in s.links && l != r.names[i] ==> t.links[l] == s.links[l])
  {
    hide Compiles, Wanted, Has, Current;
    if Compiles(s, r) {
      HasMeans(s, r);
    }
  }

  /** Every location has what is wanted, and says it applied it. */
  ghost predicate Complete(s: System, r: Reading) {
    Compiles(s, r) && (forall i :: 0 <= i < |r.names| ==> Has(s, r, i)) && forall l :: l in s.links ==> Matches(s.links[l])
  }

  lemma CompleteMeans(s: System, r: Reading)
    ensures Published(s, r) && AllApplied(s.links) <==> Complete(s, r)
  {
    hide Compiles, Wanted, Matches, Has, Current;
    if Compiles(s, r) {
      HasMeans(s, r);
    }
  }

  /** A finalizer goes exactly when all is complete, the subnet is accepted and going away, and its own location does not list
      its native subnet. */
  lemma FinalizeMeans(s: System, r: Reading, uid: string)
    ensures var may := Complete(s, r) && uid in s.subnets && s.subnets[uid].deleting && s.subnets[uid] in Accepted(s, r)
                       && s.subnets[uid].location in s.links
                       && (forall st :: Reported(s.links[s.subnets[uid].location], st) ==> ("ps-" + uid) !in st.natives);
      Next(s, Finalize(r, uid)) == if may then System(s.subnets - {uid}, s.born, s.claims, s.links, s.retired) else s
  {
    hide Compiles, Wanted, Matches, Accepted, Published, Complete, AllApplied;
    CompleteMeans(s, r);
    assert Snapshot.NativeName(uid) == "ps-" + uid;
    if uid in s.subnets && s.subnets[uid].location in s.links {
      ToldMeans(s.links[s.subnets[uid].location], "ps-" + uid);
    }
    CompleteCompiles(s, r);
  }

  lemma ToldMeans(l: Link, name: string)
    ensures name !in Told(l).natives <==> forall st :: Reported(l, st) ==> name !in st.natives
  {
    if l.told.Some? && l.told.value < |l.past| {
      assert Reported(l, l.past[l.told.value]);
    }
  }

  lemma CompleteCompiles(s: System, r: Reading)
    ensures Complete(s, r) ==> Compiles(s, r) && Decided(s, r)
  {
    hide Wanted, Matches, Decided;
  }

  /** Claims are released exactly when all is complete and every holder was listed: those of subnets that still exist stay. */
  lemma ReleaseMeans(s: System, r: Reading)
    ensures var may := Complete(s, r) && forall c :: c in s.claims && c.uid in s.subnets ==> c.uid in r.order;
      var t := Next(s, Release(r));
      && (!may ==> t == s)
      && (may ==>
            && t.subnets == s.subnets && t.born == s.born && t.links == s.links && t.retired == s.retired
            && forall c :: multiset(t.claims)[c] == if c.uid in s.subnets then multiset(s.claims)[c] else 0)
  {
    hide Compiles, Wanted, Matches, Published, Complete, AllApplied;
    CompleteMeans(s, r);
    forall c ensures multiset(Kept(s.claims, s.subnets.Keys))[c] == if c.uid in s.subnets then multiset(s.claims)[c] else 0 {
      KeptMeans(s.claims, s.subnets.Keys, c);
    }
  }

  lemma {:induction false} KeptMeans(claims: seq<Claim>, present: set<string>, c: Claim)
    ensures multiset(Kept(claims, present))[c] == if c.uid in present then multiset(claims)[c] else 0
  {
    if claims != [] {
      var front, last := claims[..|claims| - 1], claims[|claims| - 1];
      KeptMeans(front, present, c);
      assert claims == front + [last];
    }
  }

  /** A binding is retired exactly when its location says it applied a tombstone and lists nothing any more. */
  lemma RetireMeans(s: System, location: string)
    ensures var may := location in s.links &&
                       var l := s.links[location];
                       && Matches(l) && l.issued[|l.issued| - 1].deleting
                       && exists st :: Reported(l, st) && st.natives == {} && st.gateways == [];
      var t := Next(s, Retire(location));
      && (!may ==> t == s)
      && (may ==> t == System(s.subnets, s.born, s.claims, s.links - {location}, s.retired + [s.links[location]]))
  {
    hide SameRevision;
    if location in s.links && Retirable(s.links[location]) {
      assert Reported(s.links[location], Told(s.links[location]));
    }
  }

  /** In every run no two claims are of one subnet, and no address lies in two claimed prefixes. */
  lemma ClaimsShareNothing(events: seq<Event>, i: int, j: int)
    requires 0 <= i < j < |Run(events).claims|
    ensures var claims := Run(events).claims; claims[i].uid != claims[j].uid && !AdmissionMeaning.Sharing(claims[i].cidr, claims[j].cidr)
  {
    hide Run, AdmissionMeaning.Sharing, Clash;
    ClaimsAlwaysDisjoint(events);
    AdmissionMeaning.SharingMeans(Run(events).claims[i].cidr, Run(events).claims[j].cidr);
  }

  /** A location's own moves touch its end only, and issue nothing. */
  lemma SiteMeans(s: System, location: string, k: nat, move: LinkEvent)
    ensures var t := Next(s, Site(location, move));
      t == if location in s.links && !move.Issue? then s.(links := s.links[location := LinkNext(s.links[location], move)]) else s
    ensures var t := Next(s, Late(k, move));
      t == if k < |s.retired| && !move.Issue? then s.(retired := s.retired[k := LinkNext(s.retired[k], move)]) else s
  {
    hide LinkNext;
  }
}
