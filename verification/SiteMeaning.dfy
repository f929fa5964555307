/** What an acknowledgement, a move and an obstacle are in the fields of the native objects and the status
    (internal/localcontroller/reconciler.go). */
module SiteMeaning {
  import opened Wrappers
  import opened Ipv4
  import opened Snapshot
  import opened SiteController
  import DestinationPlan

  // ---- When a pass acknowledges ----

  /** Under the binding's label, and recorded, if at all, by its identity. */
  ghost predicate Own(w: World, uid: string, k: Key) {
    k in w.objects && w.objects[k].owner == uid && (k in w.status.records ==> w.status.records[k] == w.objects[k].uid)
  }

  ghost predicate Kept(w: World, uid: string, k: Key) {
    Own(w, uid, k) && k in w.status.records
  }

  predicate Missing(w: World, k: Key) {
    k !in w.objects && k !in w.status.records
  }

  function Workloads(s: BindingSubnet): (k: Key) {
    Key(SubnetKind, "ps-" + s.uid)
  }

  function Transit(c: Content): (k: Key) {
    Key(SubnetKind, "pt-" + (c.vpcUid + ("/" + c.location)))
  }

  function Router(c: Content): (k: Key) {
    Key(VpcKind, "pv-" + (c.vpcUid + ("/" + c.location)))
  }

  /** A subnet stays, and something is exported elsewhere. */
  ghost predicate Exporting(c: Content) {
    c.remotes != [] && exists s :: s in c.subnets && !s.deleting
  }

  ghost predicate Concerns(w: World, uid: string, k: Key) {
    k.kind.SubnetKind? &&
      (k == Transit(w.spec.content) || (k in w.objects && w.objects[k].owner == uid) || (exists s :: s in w.spec.content.subnets && k == Workloads(s))
       || k in w.status.records)
  }

  predicate Has(o: Native, field: string, value: string) {
    field in o.fields && o.fields[field] == value
  }

  predicate SubnetFields(c: Content, o: Native, cidr: string, gateway: string) {
    && Has(o, "vpc", Router(c).name) && Has(o, "protocol", "IPv4") && Has(o, "cidrBlock", cidr) && Has(o, "gateway", gateway)
    && Has(o, "excludeIps", gateway) && Has(o, "natOutgoing", "false") && Has(o, "provider", "ovn")
  }

  /** A printed prefix that shares no address with the transit block and does not hold the source address. */
  ghost predicate Apart(cidr: string, a: Allocation) {
    exists p: Prefix :: cidr == PrefixText(p) && !p.Contains(a.source) && forall x: Addr :: !(p.Contains(x) && a.transit.Contains(x))
  }

  /** The digest of the snapshot with every gateway's readiness left out. */
  ghost predicate OwnDigest(s: Spec) {
    && s.revision.Sha256? && s.revision.content == s.content.(peers := s.revision.content.peers)
    && |s.revision.content.peers| == |s.content.peers|
    && forall i :: 0 <= i < |s.content.peers| ==>
         s.revision.content.peers[i] == Peer(s.content.peers[i].location, s.content.peers[i].endpoint.(ready := false))
  }

  predicate Confirmed(o: Native) {
    && o.ack.Some? && o.ack.value.capable && o.ack.value.ready && o.ack.value.hash == DestinationPlan.Sha256(o.routes)
    && o.ack.value.generation == o.generation
  }

  ghost predicate RoutesWritten(w: World, uid: string, intents: seq<Intent>) {
    var k := Router(w.spec.content);
    && DestinationPlan.Acceptable(intents) && Own(w, uid, k)
    && w.objects[k].routes == DestinationPlan.CanonicalPlan(intents).routes && Confirmed(w.objects[k])
  }

  /** No route is left: none was ever written, or their withdrawal is confirmed. */
  ghost predicate RoutesGone(w: World, uid: string) {
    var k := Router(w.spec.content);
    k in w.objects ==> Own(w, uid, k) && w.objects[k].routes == [] && (Confirmed(w.objects[k]) || (w.objects[k].ack.None? && w.status.gateways == []))
  }

  predicate GatewaysGone(w: World, ans: Answers, always: bool) {
    && w.status.gateways == [] && (ans.backend.NoBackend? || ans.backend.Withdrawn?)
    && (always || ans.backend.Withdrawn? ==> w.status.backend == {})
  }

  ghost predicate Linked(w: World, uid: string, ans: Answers) {
    var c, k := w.spec.content, Transit(w.spec.content);
    && ans.allocation.Some? && Kept(w, uid, k) && w.objects[k].ready
    && SubnetFields(c, w.objects[k], PrefixText(ans.allocation.value.transit), AddrText(ans.allocation.value.router))
    && Has(w.objects[k], "disableGatewayCheck", "true")
    && ans.capable && !ans.backend.NoBackend? && ans.ensured.Some? && ans.ensured.value.ready
    && w.status.gateways == ans.ensured.value.gateways && w.status.backend == ans.ensured.value.resources
    && (exists i, j :: 0 <= i < j < |w.status.gateways| && w.status.gateways[i].transitIp != "" && w.status.gateways[j].transitIp != "")
    && RoutesWritten(w, uid, CrossIntents(w))
  }

  ghost predicate Unlinked(w: World, uid: string, ans: Answers) {
    RoutesGone(w, uid) && GatewaysGone(w, ans, false) && Transit(w.spec.content) !in w.status.records
  }

  ghost predicate WorkloadReady(w: World, uid: string, s: BindingSubnet) {
    Kept(w, uid, Workloads(s)) && w.objects[Workloads(s)].ready && SubnetFields(w.spec.content, w.objects[Workloads(s)], s.cidr, s.gateway)
  }

  ghost predicate InPlace(w: World, uid: string, ans: Answers) {
    var c := w.spec.content;
    && ans.allocation.Some? && (forall s :: s in c.subnets ==> Apart(s.cidr, ans.allocation.value)) && (forall r :: r in c.remotes ==> Apart(r.cidr, ans.allocation.value))
    && Kept(w, uid, Router(c))
    && Has(w.objects[Router(c)], "bfdPort", if Exporting(c) then "enabled/" + AddrText(ans.allocation.value.source) else "disabled")
    && (forall s :: s in c.subnets && !s.deleting ==> WorkloadReady(w, uid, s))
    && (forall s :: s in c.subnets && s.deleting ==> Missing(w, Workloads(s)) && Workloads(s).name !in w.used)
    && if Exporting(c) then Linked(w, uid, ans) else Unlinked(w, uid, ans)
  }

  ghost predicate Erased(w: World, ans: Answers) {
    && Missing(w, Router(w.spec.content)) && (forall k :: k in w.status.records ==> k.kind.VpcKind?) && GatewaysGone(w, ans, true)
  }

  lemma DigestMeans(s: Spec)
    ensures s.revision == RevisionOf(s.content) <==> OwnDigest(s)
  {
    if OwnDigest(s) {
      assert s.revision.content.peers == UnreadyAll(s.content.peers);
    }
  }

  lemma ExportingMeans(c: Content)
    ensures Cross(c) <==> Exporting(c)
  {
  }

  lemma ConcernsMeans(w: World, uid: string, k: Key)
    ensures k in Names(w, uid) <==> Concerns(w, uid, k)
  {
    if k in Names(w, uid) && k != TransitKey(w.spec.content) && k !in w.status.records && !(k in w.objects && w.objects[k].owner == uid) {
      var s :| s in w.spec.content.subnets && k == NativeKey(s);
      assert k == Workloads(s);
    }
    if s :| s in w.spec.content.subnets && k == Workloads(s) {
      assert NativeKey(s) == k;
    }
  }

  lemma ApartMeans(cidr: string, a: Allocation)
    ensures ClearOf(cidr, a) <==> Apart(cidr, a)
  {
    hide PrefixText, ParsePrefix;
    forall p: Prefix | cidr == PrefixText(p)
      ensures ParsePrefix(cidr) == Some(p) && (p.Overlaps(a.transit) <==> exists x: Addr :: p.Contains(x) && a.transit.Contains(x))
    {
      ParsePrinted(p);
      OverlapsIffShared(p, a.transit);
    }
  }

  lemma EnsuredMeans(w: World, uid: string, k: Key, cidr: string, gateway: string)
    ensures Ensured(w, uid, k, Workload(w.spec.content, cidr, gateway)) <==> Kept(w, uid, k) && SubnetFields(w.spec.content, w.objects[k], cidr, gateway)
  {
    var c := w.spec.content;
    var fields := Workload(c, cidr, gateway);
    assert fields["vpc"] == Router(c).name && fields["protocol"] == "IPv4" && fields["cidrBlock"] == cidr && fields["gateway"] == gateway;
    assert fields["excludeIps"] == gateway && fields["natOutgoing"] == "false" && fields["provider"] == "ovn";
    assert fields.Keys == {"vpc", "protocol", "cidrBlock", "gateway", "excludeIps", "natOutgoing", "provider"};
  }

  lemma TransitMeans(w: World, uid: string, k: Key, a: Allocation)
    ensures Ensured(w, uid, k, TransitFields(w.spec.content, a)) <==>
            Kept(w, uid, k) && SubnetFields(w.spec.content, w.objects[k], PrefixText(a.transit), AddrText(a.router)) && Has(w.objects[k], "disableGatewayCheck", "true")
  {
    hide PrefixText, AddrText;
    var c := w.spec.content;
    EnsuredMeans(w, uid, k, PrefixText(a.transit), AddrText(a.router));
    var base, fields := Workload(c, PrefixText(a.transit), AddrText(a.router)), TransitFields(c, a);
    assert fields["disableGatewayCheck"] == "true";
    assert forall f :: f in base ==> f in fields && fields[f] == base[f];
    assert forall f :: f in fields ==> f in base || f == "disableGatewayCheck";
  }

  lemma RouterMeans(w: World, uid: string, a: Allocation)
    ensures Ensured(w, uid, VpcKey(w.spec.content), VpcFields(w.spec.content, a)) <==>
            Kept(w, uid, Router(w.spec.content))
            && Has(w.objects[Router(w.spec.content)], "bfdPort", if Exporting(w.spec.content) then "enabled/" + AddrText(a.source) else "disabled")
  {
    hide AddrText, Cross, Exporting;
    ExportingMeans(w.spec.content);
    assert VpcFields(w.spec.content, a)["bfdPort"] == if Exporting(w.spec.content) then "enabled/" + AddrText(a.source) else "disabled";
  }

  lemma RoutesMean(w: World, uid: string, intents: seq<Intent>)
    ensures Routed(w, uid, intents) <==> RoutesWritten(w, uid, intents)
  {
    hide DestinationPlan.Acceptable;
    assert DestinationPlan.CanonicalPlan(intents).hash == DestinationPlan.Sha256(DestinationPlan.CanonicalPlan(intents).routes);
  }

  lemma GoneMeans(w: World, uid: string)
    ensures RoutesWithdrawn(w, uid) <==> RoutesGone(w, uid)
  {
    hide Confirmed, Routed;
    RoutesMean(w, uid, []);
    assert DestinationPlan.CanonicalPlan([]).routes == [] && DestinationPlan.Acceptable([]);
    NotAcknowledged(w);
  }

  lemma NotAcknowledged(w: World)
    ensures var k := Router(w.spec.content); k in w.objects && w.objects[k].ack.None? ==> !Confirmed(w.objects[k])
  {
  }

  lemma {:induction false} HopCount(gateways: seq<Gateway>)
    ensures |Hops(gateways)| >= 1 <==> exists i :: 0 <= i < |gateways| && gateways[i].transitIp != ""
    ensures |Hops(gateways)| >= 2 <==> exists i, j :: 0 <= i < j < |gateways| && gateways[i].transitIp != "" && gateways[j].transitIp != ""
  {
    if gateways != [] {
      var front := gateways[..|gateways| - 1];
      HopCount(front);
      assert forall i :: 0 <= i < |front| ==> front[i] == gateways[i];
    }
  }

  lemma GatewaysMean(w: World, ans: Answers, always: bool)
    ensures BackendGone(w, ans, always) <==> GatewaysGone(w, ans, always)
  {
  }

  lemma LinkedMeans(w: World, uid: string, ans: Answers)
    ensures Connected(w, uid, ans) <==> Linked(w, uid, ans)
  {
    hide Routed, RoutesWritten, Ensured, Hops, Kept, SubnetFields, Has, CrossIntents;
    RoutesMean(w, uid, CrossIntents(w));
    HopCount(w.status.gateways);
    if ans.allocation.Some? {
      TransitMeans(w, uid, TransitKey(w.spec.content), ans.allocation.value);
    }
  }

  lemma UnlinkedMeans(w: World, uid: string, ans: Answers)
    ensures Disconnected(w, uid, ans) <==> Unlinked(w, uid, ans)
  {
    hide RoutesWithdrawn, RoutesGone, BackendGone, GatewaysGone;
    GoneMeans(w, uid);
    GatewaysMean(w, ans, false);
  }

  lemma RecoveredMeans(w: World, uid: string)
    ensures Recovered(w, uid) <==> forall k :: k in w.objects && Concerns(w, uid, k) ==> Kept(w, uid, k)
  {
    hide Names, Concerns;
    forall k ensures k in Names(w, uid) <==> Concerns(w, uid, k) {
      ConcernsMeans(w, uid, k);
    }
  }

  lemma ErasedMeans(w: World, uid: string, ans: Answers)
    ensures Removed(w, uid, ans) <==> Erased(w, ans)
  {
    hide BackendGone, GatewaysGone, Routed;
    GatewaysMean(w, ans, true);
  }

  lemma InPlaceMeans(w: World, uid: string, ans: Answers)
    ensures Configured(w, uid, ans) <==> InPlace(w, uid, ans)
  {
    hide Connected, Linked, Disconnected, Unlinked, Ensured, VpcFields, Kept, Has, Cross, Exporting, ClearOf, Apart, SubnetFields, Workload;
    LinkedMeans(w, uid, ans);
    UnlinkedMeans(w, uid, ans);
    ExportingMeans(w.spec.content);
    if ans.allocation.Some? {
      RouterMeans(w, uid, ans.allocation.value);
      forall cidr ensures ClearOf(cidr, ans.allocation.value) <==> Apart(cidr, ans.allocation.value) {
        ApartMeans(cidr, ans.allocation.value);
      }
    }
    hide SubnetReady, WorkloadReady;
    forall s: BindingSubnet ensures SubnetReady(w, uid, s) <==> WorkloadReady(w, uid, s) {
      WorkloadMeans(w, uid, s);
    }
  }

  lemma WorkloadMeans(w: World, uid: string, s: BindingSubnet)
    ensures SubnetReady(w, uid, s) <==> WorkloadReady(w, uid, s)
  {
    hide Ensured, SubnetFields, Workload;
    EnsuredMeans(w, uid, Workloads(s), s.cidr, s.gateway);
  }

  /** A pass acknowledges exactly a snapshot of this location, accepted from an authority and carrying its own digest, with the
      location's identity intact and every native subnet it has to do with recorded, when everything it wants is in place or,
      for a tombstone, nothing is left. */
  lemma ConvergedMeans(w: World, uid: string, ans: Answers)
    ensures Converged(w, uid, ans) <==>
            && ans.here && ans.accepted && ans.identity && OwnDigest(w.spec)
            && (forall k :: k in w.objects && Concerns(w, uid, k) ==> Kept(w, uid, k))
            && if w.spec.content.deleting then Erased(w, ans) else InPlace(w, uid, ans)
  {
    hide Removed, Erased, Configured, InPlace, Recovered, Concerns, Kept, RevisionOf, OwnDigest;
    DigestMeans(w.spec);
    RecoveredMeans(w, uid);
    ErasedMeans(w, uid, ans);
    InPlaceMeans(w, uid, ans);
  }

  /** The destinations of a snapshot: one per remote prefix, over every transit address that is set. */
  lemma DestinationsMean(w: World)
    ensures |CrossIntents(w)| == |w.spec.content.remotes|
    ensures forall i :: 0 <= i < |CrossIntents(w)| ==> CrossRoute(CrossIntents(w)[i], w.spec.content.remotes[i].cidr, w.status.gateways)
  {
    hide Hops, TransitIps;
    var gateways := w.status.gateways;
    forall h ensures multiset(Hops(gateways))[h] == if h == "" then 0 else multiset(TransitIps(gateways))[h] {
      HopsMean(gateways, h);
    }
    assert multiset(FIELDS) == multiset{"ip_src", "ip_dst", "ip_proto", "tp_src", "tp_dst"};
  }

  // ---- What a move may be ----

  /** The fields a wanted object is given. */
  ghost predicate WantedFields(w: World, ans: Answers, k: Key, f: map<string, string>) {
    var c := w.spec.content;
    && !c.deleting && ans.allocation.Some?
    && (|| (k == Router(c) && f == map["bfdPort" := if Exporting(c) then "enabled/" + AddrText(ans.allocation.value.source) else "disabled"])
        || (exists s :: s in c.subnets && !s.deleting && k == Workloads(s)
              && f == map["vpc" := Router(c).name, "protocol" := "IPv4", "cidrBlock" := s.cidr, "gateway" := s.gateway, "excludeIps" := s.gateway,
                          "natOutgoing" := "false", "provider" := "ovn"])
        || (Exporting(c) && k == Transit(c)
            && f == map["vpc" := Router(c).name, "protocol" := "IPv4", "cidrBlock" := PrefixText(ans.allocation.value.transit),
                        "gateway" := AddrText(ans.allocation.value.router), "excludeIps" := AddrText(ans.allocation.value.router),
                        "natOutgoing" := "false", "provider" := "ovn", "disableGatewayCheck" := "true"]))
  }

  lemma WantedMeans(w: World, ans: Answers, k: Key, f: map<string, string>)
    ensures Wanted(w, ans, k, f) <==> WantedFields(w, ans, k, f)
  {
    hide Cross, Exporting, AddrText, PrefixText;
    ExportingMeans(w.spec.content);
    forall s: BindingSubnet ensures NativeKey(s) == Workloads(s) {
    }
  }

  /** An object goes only for a tombstone, with routes and gateways gone and the router last; or the transit subnet, when nothing
      is exported any more; or a draining subnet, with connectivity settled. */
  lemma RemovableMeans(w: World, uid: string, ans: Answers, k: Key)
    ensures Removable(w, uid, ans, k) <==>
            var c := w.spec.content;
            if c.deleting then
              && RoutesGone(w, uid) && GatewaysGone(w, ans, true)
              && if k.kind.VpcKind? then k == Router(c) && forall r :: r in w.status.records ==> r.kind.VpcKind? else Concerns(w, uid, k)
            else if k == Transit(c) then !Exporting(c) && RoutesGone(w, uid) && GatewaysGone(w, ans, false)
            else (if Exporting(c) then Linked(w, uid, ans) else Unlinked(w, uid, ans)) && exists s :: s in c.subnets && s.deleting && k == Workloads(s)
  {
    hide Connected, Linked, Disconnected, Unlinked, RoutesWithdrawn, RoutesGone, BackendGone, GatewaysGone, Cross, Exporting, Names, Concerns;
    ExportingMeans(w.spec.content);
    LinkedMeans(w, uid, ans);
    UnlinkedMeans(w, uid, ans);
    GoneMeans(w, uid);
    GatewaysMean(w, ans, true);
    GatewaysMean(w, ans, false);
    ConcernsMeans(w, uid, k);
    forall s: BindingSubnet ensures NativeKey(s) == Workloads(s) {
    }
  }

  /** Records: only an adopted, created or forgotten name changes, and what is recorded is the object's identity. */
  lemma RecordsAfter(w: World, uid: string, m: Move, k: Key)
    ensures var v := Apply(w, uid, m);
      if (m.Adopt? && k in m.keys && k in w.objects) || (m.Create? && m.noted && k == m.key) then
        k in v.status.records && k in v.objects && v.status.records[k] == v.objects[k].uid
      else if m.Forget? && k == m.key then k !in v.status.records
      else (k in v.status.records <==> k in w.status.records) && (k in v.status.records ==> v.status.records[k] == w.status.records[k])
  {
  }

  /** Objects: only the named one changes, and only in what the move says. */
  lemma ObjectsAfter(w: World, uid: string, m: Move, k: Key)
    ensures var v := Apply(w, uid, m);
      if m.Create? && k == m.key then
        && k in v.objects && v.objects[k].owner == uid && v.objects[k].fields == m.fields && v.objects[k].routes == [] && v.objects[k].ack.None?
        && v.objects[k].uid == w.clock < v.clock && !v.objects[k].ready && !v.objects[k].terminating
      else if k !in w.objects then k !in v.objects
      else
        && k in v.objects && v.objects[k].uid == w.objects[k].uid && v.objects[k].owner == w.objects[k].owner
        && v.objects[k].ready == w.objects[k].ready && v.objects[k].ack == w.objects[k].ack
        && (v.objects[k].terminating <==> w.objects[k].terminating || m == Delete(k))
        && v.objects[k].routes == (if m.Route? && k == Router(w.spec.content) then m.routes else w.objects[k].routes)
        && v.objects[k].generation == w.objects[k].generation + (if (m.Route? && k == Router(w.spec.content)) || (m.Update? && k == m.key) then 1 else 0)
        && forall f, x :: Has(v.objects[k], f, x) <==>
             if m.Update? && k == m.key && f in m.fields then m.fields[f] == x else Has(w.objects[k], f, x)
  {
  }

  /** The status: phase, acknowledged revision, gateways and backend change as the move says; snapshot and use never do. */
  lemma StatusAfter(w: World, uid: string, m: Move)
    ensures var v := Apply(w, uid, m);
      && v.spec == w.spec && v.used == w.used && (!m.Create? ==> v.clock == w.clock)
      && v.status.phase == (if m.Say? then m.phase else if m.Acknowledge? then if w.spec.content.deleting then "Deleted" else "Ready" else w.status.phase)
      && v.status.applied == (if m.Acknowledge? then w.spec.revision else w.status.applied)
      && v.status.gateways == (if m.Publish? then m.report.gateways else w.status.gateways)
      && v.status.backend == (if m.Publish? then m.report.resources else w.status.backend)
  {
  }

  /** The useful writes: each changes something that is not as wanted. */
  lemma UsefulMeans(w: World, m: Move)
    ensures Useful(w, m) <==>
            || (m.Adopt? && m.keys != {})
            || (m.Forget? && m.key in w.status.records)
            || (m.Create? && m.noted)
            || (m.Update? && m.key in w.objects && exists f :: f in m.fields && !Has(w.objects[m.key], f, m.fields[f]))
            || (m.Route? && Router(w.spec.content) in w.objects && w.objects[Router(w.spec.content)].routes != m.routes)
            || (m.Publish? && (w.status.gateways != m.report.gateways || w.status.backend != m.report.resources))
            || (m.Delete? && m.key in w.objects && !w.objects[m.key].terminating)
  {
  }

  /** Which moves a pass may make. */
  ghost predicate MayMove(w: World, uid: string, ans: Answers, m: Move) {
    var c := w.spec.content;
    match m
    case Stay => true
    case Say(_) => true
    case Adopt(keys) => forall k :: k in keys ==> Own(w, uid, k) && k !in w.status.records
    case Forget(k) => k !in w.objects
    case Create(k, f, _) => Missing(w, k) && WantedFields(w, ans, k, f)
    case Update(k, f) => Own(w, uid, k) && WantedFields(w, ans, k, f)
    case Route(routes) =>
      Own(w, uid, Router(c)) && DestinationPlan.Acceptable(Planned(w)) && routes == DestinationPlan.CanonicalPlan(Planned(w)).routes
    case Publish(r) =>
      if c.deleting || !Exporting(c) then r.gateways == [] && r.resources == {} && !r.ready && RoutesGone(w, uid) else ans.ensured == Some(r)
    case Delete(k) => Own(w, uid, k) && Removable(w, uid, ans, k) && !(k.kind.SubnetKind? && k.name in w.used)
    case Acknowledge => Converged(w, uid, ans)
  }

  lemma MovesMean(w: World, uid: string, ans: Answers, m: Move)
    ensures Allowed(w, uid, ans, m) <==> MayMove(w, uid, ans, m)
  {
    hide Wanted, WantedFields, Cross, Exporting, RoutesWithdrawn, RoutesGone, Removable, Converged, CrossIntents, DestinationPlan.Acceptable,
      DestinationPlan.CanonicalPlan;
    ExportingMeans(w.spec.content);
    GoneMeans(w, uid);
    forall k, f ensures Wanted(w, ans, k, f) <==> WantedFields(w, ans, k, f) {
      WantedMeans(w, ans, k, f);
    }
    if m.Route? {
      assert MayRoute(w, Planned(w)) && forall others :: MayRoute(w, others) ==> others == Planned(w);
    }
  }

  // ---- What stands in the way ----

  ghost function Planned(w: World): (intents: seq<Intent>) {
    if w.spec.content.deleting || !Exporting(w.spec.content) then [] else CrossIntents(w)
  }

  /** The router holds routes or an acknowledgement, or gateways are registered. */
  predicate Stale(w: World) {
    var k := Router(w.spec.content);
    w.status.gateways != [] || (k in w.objects && (w.objects[k].routes != [] || w.objects[k].ack.Some?))
  }

  /** Nothing does: the snapshot is this location's and intact, every name is this binding's own or free, nothing that has to go
      is in use, every object of the binding is ready and not going away, the routes are acceptable and once written confirmed, the allocation is
      there and clear of every range, and the backend answers as needed. */
  ghost predicate Smooth(w: World, uid: string, ans: Answers) {
    var c := w.spec.content;
    && ans.here && ans.accepted && ans.identity && OwnDigest(w.spec)
    && (forall k :: k in w.objects && (Concerns(w, uid, k) || k == Router(c)) ==> Own(w, uid, k) && w.objects[k].ready && !w.objects[k].terminating)
    && (forall k :: k in w.objects && w.objects[k].owner == uid ==> w.objects[k].ready && !w.objects[k].terminating)
    && (forall k :: k in w.status.records && !c.deleting && (k == Router(c) || k == Transit(c) || exists s :: s in c.subnets && k == Workloads(s)) ==> k in w.objects)
    && (forall k :: Concerns(w, uid, k) && k.name in w.used ==> !c.deleting && (k == Transit(c) ==> Exporting(c)) && forall s :: s in c.subnets && k == Workloads(s) ==> !s.deleting)
    && DestinationPlan.Acceptable(Planned(w))
    && (Router(c) in w.objects && w.objects[Router(c)].routes == DestinationPlan.CanonicalPlan(Planned(w)).routes && (Planned(w) != [] || Stale(w)) ==>
          Confirmed(w.objects[Router(c)]))
    && (c.deleting || (ans.allocation.Some? && (forall s :: s in c.subnets ==> Apart(s.cidr, ans.allocation.value))
                       && forall r :: r in c.remotes ==> Apart(r.cidr, ans.allocation.value)))
    && (if c.deleting || !Exporting(c) then ans.backend.Withdrawn?
        else
          && ans.capable && !ans.backend.NoBackend? && ans.ensured.Some? && ans.ensured.value.ready
          && exists i, j :: 0 <= i < j < |ans.ensured.value.gateways| && ans.ensured.value.gateways[i].transitIp != "" && ans.ensured.value.gateways[j].transitIp != "")
  }

  lemma SmoothNames(w: World, uid: string, ans: Answers)
    requires Smooth(w, uid, ans)
    ensures !Displaced(w, uid, ans) && !InUse(w, uid)
  {
    hide Exporting, Cross, Confirmed, Apart, OwnDigest, Names, Concerns, VpcFields, Workload, TransitFields, CrossIntents, DestinationPlan.Acceptable;
    ExportingMeans(w.spec.content);
    forall k ensures k in Names(w, uid) <==> Concerns(w, uid, k) {
      ConcernsMeans(w, uid, k);
    }
    forall s: BindingSubnet ensures NativeKey(s) == Workloads(s) {
    }
  }

  lemma SmoothRoutes(w: World, uid: string, ans: Answers)
    requires Smooth(w, uid, ans)
    ensures !Unrouted(w)
  {
    hide Exporting, Cross, Apart, OwnDigest, Concerns, CrossIntents, DestinationPlan.Acceptable, DestinationPlan.Normals, DestinationPlan.Sessions;
    ExportingMeans(w.spec.content);
    assert forall others :: MayRoute(w, others) ==> others == Planned(w);
    forall intents ensures DestinationPlan.CanonicalPlan(intents).hash == DestinationPlan.Sha256(DestinationPlan.CanonicalPlan(intents).routes) {
    }
  }

  lemma SmoothOutside(w: World, uid: string, ans: Answers)
    requires Smooth(w, uid, ans)
    ensures !BackendHinders(w, ans) && !Unallocated(w, ans) && !Unfinished(w, uid)
  {
    hide Exporting, Cross, Confirmed, Apart, OwnDigest, Concerns, CrossIntents, DestinationPlan.Acceptable, Hops, ClearOf;
    ExportingMeans(w.spec.content);
    if ans.ensured.Some? {
      HopCount(ans.ensured.value.gateways);
    }
    if ans.allocation.Some? {
      forall cidr ensures ClearOf(cidr, ans.allocation.value) <==> Apart(cidr, ans.allocation.value) {
        ApartMeans(cidr, ans.allocation.value);
      }
    }
  }

  lemma Unhindered(w: World, uid: string, ans: Answers)
    requires Smooth(w, uid, ans)
    ensures !Hindered(w, uid, ans)
  {
    hide Displaced, InUse, Unfinished, Unrouted, BackendHinders, Unallocated, RevisionOf, OwnDigest;
    DigestMeans(w.spec);
    SmoothNames(w, uid, ans);
    SmoothRoutes(w, uid, ans);
    SmoothOutside(w, uid, ans);
  }
}
