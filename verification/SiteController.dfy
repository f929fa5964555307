/** The location's own controller: one pass over an accepted snapshot, what it may write to the native objects, and what
    an acknowledged revision means (internal/localcontroller/reconciler.go). */
module SiteController {
  import opened Wrappers
  import opened Ipv4
  import opened Snapshot
  import DestinationPlan
  import Ordering

  type Intent = DestinationPlan.Intent

  datatype Kind = SubnetKind | VpcKind

  datatype Key = Key(kind: Kind, name: string)

  /** The native controller's acknowledgement of destination routes. */
  datatype Ack = Ack(capable: bool, ready: bool, hash: DestinationPlan.Digest, generation: nat)

  /** A native Subnet or Vpc; `owner` is its owner label. */
  datatype Native = Native(uid: nat, owner: string, fields: map<string, string>, ready: bool, terminating: bool, generation: nat,
                           routes: seq<Intent>, ack: Option<Ack>)

  /** The binding's status: its native objects by UID, the gateway backend's resources, and the registered gateways. */
  datatype Status = Status(phase: string, applied: Revision, records: map<Key, nat>, backend: set<string>, gateways: seq<Gateway>)

  /** `used` are the subnets some Pod or address still refers to. */
  datatype World = World(spec: Spec, status: Status, objects: map<Key, Native>, used: set<string>, clock: nat)

  datatype Allocation = Allocation(transit: Prefix, router: Addr, source: Addr)

  datatype Report = Report(gateways: seq<Gateway>, resources: set<string>, ready: bool)

  const NOTHING := Report([], {}, false)

  datatype Backend = NoBackend | Failing | Withdrawing | Withdrawn

  /** What the pass is told from outside: whether the binding is of this location, whether it was copied from an
      authority's, whether the location's identity holds, its address allocation, whether the native extension is
      installed, and what the gateway backend reports or says about its withdrawal. */
  datatype Answers = Answers(here: bool, accepted: bool, identity: bool, allocation: Option<Allocation>, capable: bool, ensured: Option<Report>, backend: Backend)

  // ---- Names and wanted fields ----

  function SubnetKey(name: string): (k: Key) {
    Key(SubnetKind, name)
  }

  function NativeKey(s: BindingSubnet): (k: Key) {
    SubnetKey(NativeName(s.uid))
  }

  function TransitKey(c: Content): (k: Key) {
    SubnetKey("pt-" + (c.vpcUid + ("/" + c.location)))
  }

  function VpcKey(c: Content): (k: Key) {
    Key(VpcKind, "pv-" + (c.vpcUid + ("/" + c.location)))
  }

  predicate HasActive(c: Content) {
    exists s :: s in c.subnets && !s.deleting
  }

  /** Gateways are needed for actual exports only. */
  predicate Cross(c: Content) {
    HasActive(c) && c.remotes != []
  }

  function VpcFields(c: Content, a: Allocation): (f: map<string, string>) {
    map["bfdPort" := if Cross(c) then "enabled/" + AddrText(a.source) else "disabled"]
  }

  function Workload(c: Content, cidr: string, gateway: string): (f: map<string, string>) {
    map["vpc" := VpcKey(c).name, "protocol" := "IPv4", "cidrBlock" := cidr, "gateway" := gateway, "excludeIps" := gateway,
        "natOutgoing" := "false", "provider" := "ovn"]
  }

  function TransitFields(c: Content, a: Allocation): (f: map<string, string>) {
    Workload(c, PrefixText(a.transit), AddrText(a.router))["disableGatewayCheck" := "true"]
  }

  function Hops(gateways: seq<Gateway>): (h: seq<string>) {
    if gateways == [] then []
    else
      var last := gateways[|gateways| - 1];
      Hops(gateways[..|gateways| - 1]) + if last.transitIp != "" then [last.transitIp] else []
  }

  const FIELDS := ["ip_src", "ip_dst", "ip_proto", "tp_src", "tp_dst"]

  function IntentFor(cidr: string, hops: seq<string>): (r: Intent) {
    DestinationPlan.Intent(cidr, hops, DestinationPlan.Timers(300, 300, 3), FIELDS)
  }

  /** One destination per remote subnet, over every registered gateway. */
  function Intents(remotes: seq<Remote>, hops: seq<string>): (r: seq<Intent>)
    ensures |r| == |remotes| && forall i :: 0 <= i < |r| ==> r[i] == IntentFor(remotes[i].cidr, hops)
  {
    seq(|remotes|, i requires 0 <= i < |remotes| => IntentFor(remotes[i].cidr, hops))
  }

  function CrossIntents(w: World): (r: seq<Intent>) {
    Intents(w.spec.content.remotes, Hops(w.status.gateways))
  }

  // ---- What the stages of a pass look for ----

  /** An object of this binding, and the incarnation recorded if one is. */
  predicate Guarded(w: World, uid: string, k: Key) {
    k in w.objects && w.objects[k].owner == uid && (k in w.status.records ==> w.status.records[k] == w.objects[k].uid)
  }

  /** Every subnet name this binding has to do with. */
  function Names(w: World, uid: string): (keys: set<Key>) {
    {TransitKey(w.spec.content)}
    + (set k | k in w.objects && k.kind.SubnetKind? && w.objects[k].owner == uid)
    + (set s | s in w.spec.content.subnets :: NativeKey(s))
    + (set k | k in w.status.records && k.kind.SubnetKind?)
  }

  ghost predicate Recovered(w: World, uid: string) {
    forall k :: k in Names(w, uid) && k in w.objects ==> Guarded(w, uid, k) && k in w.status.records
  }

  ghost predicate Drained(w: World) {
    forall s :: s in w.spec.content.subnets && s.deleting ==> NativeName(s.uid) !in w.used
  }

  predicate Agrees(o: Native, fields: map<string, string>) {
    forall f :: f in fields ==> f in o.fields && o.fields[f] == fields[f]
  }

  predicate Ensured(w: World, uid: string, k: Key, fields: map<string, string>) {
    Guarded(w, uid, k) && Agrees(w.objects[k], fields) && k in w.status.records
  }

  predicate ClearOf(cidr: string, a: Allocation) {
    var p := ParsePrefix(cidr);
    p.Some? && !p.value.Overlaps(a.transit) && !p.value.Contains(a.source)
  }

  /** Workload ranges keep clear of the location's own infrastructure. */
  ghost predicate AllClear(c: Content, a: Allocation) {
    (forall s :: s in c.subnets ==> ClearOf(s.cidr, a)) && forall r :: r in c.remotes ==> ClearOf(r.cidr, a)
  }

  predicate Acknowledging(o: Native, hash: DestinationPlan.Digest) {
    o.ack.Some? && o.ack.value.capable && o.ack.value.ready && o.ack.value.hash == hash && o.ack.value.generation == o.generation
  }

  /** The native Vpc holds exactly the canonical plan, and its controller acknowledges this very generation of it. */
  ghost predicate Routed(w: World, uid: string, intents: seq<Intent>) {
    var k := VpcKey(w.spec.content);
    && DestinationPlan.Acceptable(intents) && Guarded(w, uid, k)
    && w.objects[k].routes == DestinationPlan.CanonicalPlan(intents).routes
    && Acknowledging(w.objects[k], DestinationPlan.CanonicalPlan(intents).hash)
  }

  predicate Routable(w: World) {
    var o := VpcKey(w.spec.content);
    w.status.gateways != [] || (o in w.objects && (w.objects[o].routes != [] || w.objects[o].ack.Some?))
  }

  /** No route of this binding is left in the native Vpc. */
  ghost predicate RoutesWithdrawn(w: World, uid: string) {
    VpcKey(w.spec.content) in w.objects ==> Guarded(w, uid, VpcKey(w.spec.content)) && (Routable(w) ==> Routed(w, uid, []))
  }

  predicate Published(w: World, r: Report) {
    w.status.gateways == r.gateways && w.status.backend == r.resources
  }

  predicate BackendGone(w: World, ans: Answers, always: bool) {
    if ans.backend.NoBackend? then w.status.gateways == [] && (always ==> w.status.backend == {})
    else ans.backend.Withdrawn? && Published(w, NOTHING)
  }

  ghost predicate Disconnected(w: World, uid: string, ans: Answers) {
    RoutesWithdrawn(w, uid) && BackendGone(w, ans, false) && TransitKey(w.spec.content) !in w.status.records
  }

  ghost predicate Connected(w: World, uid: string, ans: Answers) {
    var k := TransitKey(w.spec.content);
    && ans.allocation.Some? && Ensured(w, uid, k, TransitFields(w.spec.content, ans.allocation.value)) && w.objects[k].ready
    && ans.capable && !ans.backend.NoBackend? && ans.ensured.Some? && Published(w, ans.ensured.value)
    && |w.status.gateways| >= 2 && |Hops(w.status.gateways)| >= 2
    && Routed(w, uid, CrossIntents(w)) && ans.ensured.value.ready
  }

  /** Cross-site connectivity is as the snapshot wants it: in place, or withdrawn. */
  ghost predicate Settled(w: World, uid: string, ans: Answers) {
    if Cross(w.spec.content) then Connected(w, uid, ans) else Disconnected(w, uid, ans)
  }

  ghost predicate ActiveReady(w: World, uid: string) {
    forall s :: s in w.spec.content.subnets && !s.deleting ==> SubnetReady(w, uid, s)
  }

  predicate SubnetReady(w: World, uid: string, s: BindingSubnet) {
    Ensured(w, uid, NativeKey(s), Workload(w.spec.content, s.cidr, s.gateway)) && w.objects[NativeKey(s)].ready
  }

  predicate Absent(w: World, k: Key) {
    k !in w.objects && k !in w.status.records
  }

  ghost predicate Configured(w: World, uid: string, ans: Answers) {
    && Drained(w) && ans.allocation.Some? && AllClear(w.spec.content, ans.allocation.value)
    && Ensured(w, uid, VpcKey(w.spec.content), VpcFields(w.spec.content, ans.allocation.value))
    && ActiveReady(w, uid) && Settled(w, uid, ans)
    && forall s :: s in w.spec.content.subnets && s.deleting ==> Absent(w, NativeKey(s))
  }

  ghost predicate NoSubnetRecorded(w: World) {
    forall k :: k in w.status.records ==> !k.kind.SubnetKind?
  }

  ghost predicate Removed(w: World, uid: string, ans: Answers) {
    && RoutesWithdrawn(w, uid) && BackendGone(w, ans, true) && NoSubnetRecorded(w) && Absent(w, VpcKey(w.spec.content))
  }

  /** Exactly when a pass acknowledges the snapshot. */
  ghost predicate Converged(w: World, uid: string, ans: Answers) {
    && ans.here && ans.accepted && ans.identity && w.spec.revision == RevisionOf(w.spec.content) && Recovered(w, uid)
    && if w.spec.content.deleting then Removed(w, uid, ans) else Configured(w, uid, ans)
  }

  // ---- What a pass may do ----

  /** Every pass makes one move; creating an object may or may not get as far as recording it. */
  datatype Move =
    | Stay
    | Say(phase: string)
    | Adopt(keys: set<Key>)
    | Forget(key: Key)
    | Create(key: Key, fields: map<string, string>, noted: bool)
    | Update(key: Key, fields: map<string, string>)
    | Route(routes: seq<Intent>)
    | Publish(report: Report)
    | Delete(key: Key)
    | Acknowledge

  function FinalPhase(c: Content): (p: string) {
    if c.deleting then "Deleted" else "Ready"
  }

  function Merged(o: Native, fields: map<string, string>): (p: Native) {
    o.(fields := o.fields + fields, generation := o.generation + 1)
  }

  function Apply(w: World, uid: string, m: Move): (v: World) {
    match m
    case Stay => w
    case Say(phase) => w.(status := w.status.(phase := phase))
    case Adopt(keys) => w.(status := w.status.(records := w.status.records + map k | k in keys && k in w.objects :: w.objects[k].uid))
    case Forget(k) => w.(status := w.status.(records := w.status.records - {k}))
    case Create(k, fields, noted) =>
      w.(objects := w.objects[k := Native(w.clock, uid, fields, false, false, 1, [], None)], clock := w.clock + 1,
         status := if noted then w.status.(records := w.status.records[k := w.clock]) else w.status)
    case Update(k, fields) => if k in w.objects then w.(objects := w.objects[k := Merged(w.objects[k], fields)]) else w
    case Route(routes) =>
      var k := VpcKey(w.spec.content);
      if k in w.objects then w.(objects := w.objects[k := w.objects[k].(routes := routes, generation := w.objects[k].generation + 1)]) else w
    case Publish(r) => w.(status := w.status.(gateways := r.gateways, backend := r.resources))
    case Delete(k) => if k in w.objects then w.(objects := w.objects[k := w.objects[k].(terminating := true)]) else w
    case Acknowledge => w.(status := w.status.(phase := FinalPhase(w.spec.content), applied := w.spec.revision))
  }

  ghost predicate Wanted(w: World, ans: Answers, k: Key, fields: map<string, string>) {
    var c := w.spec.content;
    && !c.deleting && ans.allocation.Some?
    && (|| (k == VpcKey(c) && fields == VpcFields(c, ans.allocation.value))
        || (exists s :: s in c.subnets && !s.deleting && k == NativeKey(s) && fields == Workload(c, s.cidr, s.gateway))
        || (Cross(c) && k == TransitKey(c) && fields == TransitFields(c, ans.allocation.value)))
  }

  /** What connectivity must be like before an object may be deleted. */
  ghost predicate Removable(w: World, uid: string, ans: Answers, k: Key) {
    var c := w.spec.content;
    if c.deleting then
      RoutesWithdrawn(w, uid) && BackendGone(w, ans, true) && if k.kind.VpcKind? then k == VpcKey(c) && NoSubnetRecorded(w) else k in Names(w, uid)
    else if k == TransitKey(c) then !Cross(c) && RoutesWithdrawn(w, uid) && BackendGone(w, ans, false)
    else Settled(w, uid, ans) && exists s :: s in c.subnets && s.deleting && k == NativeKey(s)
  }

  ghost predicate MayRoute(w: World, intents: seq<Intent>) {
    if w.spec.content.deleting || !Cross(w.spec.content) then intents == [] else intents == CrossIntents(w)
  }

  ghost predicate Allowed(w: World, uid: string, ans: Answers, m: Move) {
    match m
    case Stay => true
    case Say(_) => true
    case Adopt(keys) => forall k :: k in keys ==> Guarded(w, uid, k) && k !in w.status.records
    case Forget(k) => k !in w.objects
    case Create(k, fields, _) => Absent(w, k) && Wanted(w, ans, k, fields)
    case Update(k, fields) => Guarded(w, uid, k) && Wanted(w, ans, k, fields)
    case Route(routes) =>
      && Guarded(w, uid, VpcKey(w.spec.content))
      && exists intents :: MayRoute(w, intents) && DestinationPlan.Acceptable(intents) && routes == DestinationPlan.CanonicalPlan(intents).routes
    case Publish(r) =>
      if w.spec.content.deleting || !Cross(w.spec.content) then r == NOTHING && RoutesWithdrawn(w, uid) else ans.ensured == Some(r)
    case Delete(k) => Guarded(w, uid, k) && Removable(w, uid, ans, k) && (k.kind.SubnetKind? ==> k.name !in w.used)
    case Acknowledge => Converged(w, uid, ans)
  }

  // ---- What keeps a pass from writing ----

  /** A name this binding has to do with is taken, or an object it wants and has recorded is gone. */
  ghost predicate Displaced(w: World, uid: string, ans: Answers) {
    || (exists k :: k in w.objects && (k in Names(w, uid) || k == VpcKey(w.spec.content)) && !Guarded(w, uid, k))
    || (exists k, fields :: Wanted(w, ans, k, fields) && k in w.status.records && k !in w.objects)
  }

  /** A subnet that has to go is still referred to. */
  ghost predicate InUse(w: World, uid: string) {
    var c := w.spec.content;
    exists k :: k in Names(w, uid) && k.name in w.used &&
      (c.deleting || (k == TransitKey(c) && !Cross(c)) || exists s :: s in c.subnets && s.deleting && k == NativeKey(s))
  }

  /** The native controller has not finished an object of this binding. */
  ghost predicate Unfinished(w: World, uid: string) {
    exists k :: k in w.objects && w.objects[k].owner == uid && (!w.objects[k].ready || w.objects[k].terminating)
  }

  /** The routes to be written are not acceptable, or they are written and not acknowledged although they have to be. */
  ghost predicate Unrouted(w: World) {
    var k := VpcKey(w.spec.content);
    exists intents :: MayRoute(w, intents) &&
      (!DestinationPlan.Acceptable(intents)
       || (k in w.objects && w.objects[k].routes == DestinationPlan.CanonicalPlan(intents).routes
           && (intents != [] || Routable(w)) && !Acknowledging(w.objects[k], DestinationPlan.CanonicalPlan(intents).hash)))
  }

  /** The backend does not do what the snapshot needs: report two ready gateways, or withdraw all of them. */
  ghost predicate BackendHinders(w: World, ans: Answers) {
    if !w.spec.content.deleting && Cross(w.spec.content) then
      || !ans.capable || ans.backend.NoBackend? || ans.ensured.None? || !ans.ensured.value.ready
      || |ans.ensured.value.gateways| < 2 || |Hops(ans.ensured.value.gateways)| < 2
    else
      ans.backend.Failing? || ans.backend.Withdrawing? || (ans.backend.NoBackend? && w.status.gateways != [])
  }

  ghost predicate Unallocated(w: World, ans: Answers) {
    !w.spec.content.deleting && (ans.allocation.None? || !AllClear(w.spec.content, ans.allocation.value))
  }

  /** Something outside stands in the way of this snapshot. */
  ghost predicate Hindered(w: World, uid: string, ans: Answers) {
    || !ans.here || !ans.accepted || !ans.identity || w.spec.revision != RevisionOf(w.spec.content)
    || Displaced(w, uid, ans) || InUse(w, uid) || Unfinished(w, uid) || Unrouted(w) || BackendHinders(w, ans) || Unallocated(w, ans)
  }

  /** A write that changes something that was not as wanted. */
  predicate Useful(w: World, m: Move) {
    match m
    case Stay => false
    case Say(_) => false
    case Adopt(keys) => keys != {}
    case Forget(k) => k in w.status.records
    case Create(_, _, noted) => noted
    case Update(k, fields) => k in w.objects && !Agrees(w.objects[k], fields)
    case Route(routes) => VpcKey(w.spec.content) in w.objects && w.objects[VpcKey(w.spec.content)].routes != routes
    case Publish(r) => !Published(w, r)
    case Delete(k) => k in w.objects && !w.objects[k].terminating
    case Acknowledge => false
  }

  /** A stage that does not let the pass go on has made an allowed move other than acknowledging; where it could write, the
      move is a useful write or something outside stands in the way. */
  ghost predicate Stopped(v: World, w: World, uid: string, ans: Answers, m: Move, able: bool) {
    && w == Apply(v, uid, m) && Allowed(v, uid, ans, m) && !m.Acknowledge?
    && (able ==> Useful(v, m) || Hindered(v, uid, ans))
  }

  // ---- The pass ----

  class LocalReconciler {
    const uid: string
    var w: World
    /** How many writes the API server takes before the pass stops. */
    var budget: nat

    method SetPhase(ghost ans: Answers, phase: string, ghost hindered: bool := true) returns (ghost m: Move)
      requires hindered ==> Hindered(w, uid, ans)
      modifies this
      ensures Stopped(old(w), w, uid, ans, m, hindered && old(budget) > 1)
    {
      m := Stay;
      if w.status.phase != phase && budget > 0 {
        budget := budget - 1;
        w := w.(status := w.status.(phase := phase));
        m := Say(phase);
      }
    }

    /** Records owned native subnets whose receipt was lost, after checking every name this binding has to do with. */
    method RecoverNativeSubnets(ghost ans: Answers) returns (go: bool, ghost m: Move)
      modifies this
      ensures go <==> Recovered(old(w), uid)
      ensures if go then w == old(w) && budget == old(budget) else Stopped(old(w), w, uid, ans, m, old(budget) > 1)
    {
      m := Stay;
      hide Names, Stopped, Apply;
      var names := Names(w, uid);
      var todo := names;
      while todo != {}
        invariant todo <= names && w == old(w) && budget == old(budget)
        invariant forall k :: k in names && k !in todo && k in w.objects ==> Guarded(w, uid, k)
      {
        var k :| k in todo;
        todo := todo - {k};
        if k in w.objects && !Guarded(w, uid, k) {
          m := SetPhase(ans, "Blocked");
          return false, m;
        }
      }
      var lost: set<Key> := {};
      todo := names;
      while todo != {}
        invariant todo <= names && w == old(w) && budget == old(budget)
        invariant lost == set k | k in names && k !in todo && k in w.objects && k !in w.status.records
      {
        var k :| k in todo;
        todo := todo - {k};
        if k in w.objects && k !in w.status.records {
          lost := lost + {k};
        }
      }
      if lost == {} {
        return true, m;
      }
      go, m := WriteRecords(ans, lost);
    }

    method WriteRecords(ghost ans: Answers, lost: set<Key>) returns (go: bool, ghost m: Move)
      requires lost != {} && forall k :: k in lost ==> Guarded(w, uid, k) && k !in w.status.records
      modifies this
      ensures !go && Stopped(old(w), w, uid, ans, m, old(budget) > 1)
    {
      go, m := false, Stay;
      if budget > 0 {
        budget := budget - 1;
        w := w.(status := w.status.(records := w.status.records + map k | k in lost && k in w.objects :: w.objects[k].uid));
        m := Adopt(lost);
      }
    }

    method CheckDraining() returns (drained: bool, active: nat)
      ensures drained <==> Drained(w)
      ensures drained ==> (active > 0 <==> HasActive(w.spec.content))
    {
      var subnets := w.spec.content.subnets;
      active := 0;
      for i := 0 to |subnets|
        invariant forall j :: 0 <= j < i && subnets[j].deleting ==> NativeName(subnets[j].uid) !in w.used
        invariant active > 0 <==> exists j :: 0 <= j < i && !subnets[j].deleting
      {
        if !subnets[i].deleting {
          active := active + 1;
          continue;
        }
        if NativeName(subnets[i].uid) in w.used {
          return false, active;
        }
      }
      return true, active;
    }

    method CheckRanges(a: Allocation) returns (clear: bool)
      ensures clear <==> AllClear(w.spec.content, a)
    {
      hide ClearOf;
      var c := w.spec.content;
      for i := 0 to |c.subnets|
        invariant forall j :: 0 <= j < i ==> ClearOf(c.subnets[j].cidr, a)
      {
        var clears := ClearOf(c.subnets[i].cidr, a);
        if !clears {
          return false;
        }
      }
      for i := 0 to |c.remotes|
        invariant forall j :: 0 <= j < i ==> ClearOf(c.remotes[j].cidr, a)
      {
        var clears := ClearOf(c.remotes[i].cidr, a);
        if !clears {
          return false;
        }
      }
      return true;
    }

    /** Creates an object and then records it; the pass may end between the two. */
    method CreateNative(ghost ans: Answers, k: Key, fields: map<string, string>) returns (ghost m: Move)
      requires Wanted(w, ans, k, fields) && Absent(w, k)
      modifies this
      ensures Stopped(old(w), w, uid, ans, m, old(budget) > 1)
    {
      m := Stay;
      hide Wanted;
      if budget > 0 {
        budget := budget - 1;
        w := w.(objects := w.objects[k := Native(w.clock, uid, fields, false, false, 1, [], None)], clock := w.clock + 1);
        m := Create(k, fields, false);
        if budget > 0 {
          budget := budget - 1;
          w := w.(status := w.status.(records := w.status.records[k := w.clock - 1]));
          m := Create(k, fields, true);
        }
      }
    }

    method CorrectNative(ghost ans: Answers, k: Key, fields: map<string, string>) returns (ghost m: Move)
      requires Wanted(w, ans, k, fields) && Guarded(w, uid, k) && !Agrees(w.objects[k], fields)
      modifies this
      ensures Stopped(old(w), w, uid, ans, m, old(budget) > 1)
    {
      m := Stay;
      hide Wanted;
      if budget > 0 {
        budget := budget - 1;
        w := w.(objects := w.objects[k := Merged(w.objects[k], fields)]);
        m := Update(k, fields);
      }
    }

    /** One native object: created when missing and never recorded, corrected field by field, and recorded. */
    method Ensure(ghost ans: Answers, k: Key, fields: map<string, string>) returns (go: bool, ghost m: Move)
      requires Wanted(w, ans, k, fields)
      modifies this
      ensures go <==> Ensured(old(w), uid, k, fields)
      ensures if go then w == old(w) && budget == old(budget) else Stopped(old(w), w, uid, ans, m, old(budget) > 1)
    {
      m := Stay;
      hide Wanted, Stopped;
      if k !in w.objects {
        if k in w.status.records {
          m := SetPhase(ans, "Blocked");
        } else {
          m := CreateNative(ans, k, fields);
        }
        return false, m;
      }
      if !Guarded(w, uid, k) {
        WantedNamed(w, uid, ans, k, fields);
        m := SetPhase(ans, "Blocked");
        return false, m;
      }
      if !Agrees(w.objects[k], fields) {
        m := CorrectNative(ans, k, fields);
        return false, m;
      }
      if k !in w.status.records {
        go, m := WriteRecords(ans, {k});
        return;
      }
      return true, m;
    }

    /** The native Vpc's destination routes: written when they differ from the plan, otherwise awaited. */
    method Routes(ghost ans: Answers, intents: seq<Intent>) returns (go: bool, ghost m: Move)
      requires MayRoute(w, intents)
      modifies this
      ensures go <==> Routed(old(w), uid, intents)
      ensures if go then w == old(w) && budget == old(budget)
              else Stopped(old(w), w, uid, ans, m, VpcKey(old(w).spec.content) in old(w).objects && (intents != [] || Routable(old(w))) && old(budget) > 1)
    {
      m := Stay;
      ghost var needed := intents != [] || Routable(w);
      hide DestinationPlan.Acceptable, DestinationPlan.CanonicalPlan, MayRoute;
      var compiled := DestinationPlan.Compile(intents);
      var k := VpcKey(w.spec.content);
      if compiled.Err? || !Guarded(w, uid, k) {
        m := SetPhase(ans, "Blocked", k in w.objects);
        return false, m;
      }
      var plan := compiled.value;
      var o := w.objects[k];
      if o.routes != plan.routes {
        if budget > 0 {
          budget := budget - 1;
          w := w.(objects := w.objects[k := o.(routes := plan.routes, generation := o.generation + 1)]);
          m := Route(plan.routes);
        }
        return false, m;
      }
      var ready := Acknowledging(o, plan.hash);
      if !ready {
        m := SetPhase(ans, "Pending", needed);
        return false, m;
      }
      return true, m;
    }

    method WithdrawRoutes(ghost ans: Answers) returns (go: bool, ghost m: Move)
      requires MayRoute(w, [])
      modifies this
      ensures go <==> RoutesWithdrawn(old(w), uid)
      ensures if go then w == old(w) && budget == old(budget) else Stopped(old(w), w, uid, ans, m, old(budget) > 1)
    {
      m := Stay;
      hide Routed, Stopped;
      var k := VpcKey(w.spec.content);
      if k in w.objects {
        if !Guarded(w, uid, k) {
          m := SetPhase(ans, "Blocked");
          return false, m;
        }
        var needed := Routable(w);
        if needed {
          go, m := Routes(ans, []);
          return;
        }
      }
      return true, m;
    }

    method PublishReport(ghost ans: Answers, r: Report) returns (go: bool, ghost m: Move)
      requires Allowed(w, uid, ans, Publish(r))
      modifies this
      ensures go <==> Published(old(w), r)
      ensures if go then w == old(w) && budget == old(budget) else Stopped(old(w), w, uid, ans, m, old(budget) > 1)
    {
      m := Stay;
      if w.status.gateways == r.gateways && w.status.backend == r.resources {
        return true, m;
      }
      if budget > 0 {
        budget := budget - 1;
        w := w.(status := w.status.(gateways := r.gateways, backend := r.resources));
        m := Publish(r);
      }
      return false, m;
    }

    /** The gateways go only once the routes over them are gone. */
    method WithdrawBackend(ans: Answers, always: bool) returns (go: bool, ghost m: Move)
      requires RoutesWithdrawn(w, uid) && (w.spec.content.deleting || !Cross(w.spec.content))
      modifies this
      ensures go <==> BackendGone(old(w), ans, always)
      ensures if go then w == old(w) && budget == old(budget) else Stopped(old(w), w, uid, ans, m, old(budget) > 1)
    {
      m := Stay;
      hide RoutesWithdrawn;
      match ans.backend {
        case NoBackend =>
          if w.status.gateways != [] {
            m := SetPhase(ans, "Blocked");
            return false, m;
          }
          if !always {
            return true, m;
          }
        case Failing =>
          m := SetPhase(ans, "Blocked");
          return false, m;
        case Withdrawing =>
          m := SetPhase(ans, "Pending");
          return false, m;
        case Withdrawn =>
      }
      go, m := PublishReport(ans, NOTHING);
    }

    /** Deletes one owned object, and forgets its record only once it is really gone. */
    method DeleteNative(ghost ans: Answers, k: Key) returns (go: bool, ghost m: Move)
      requires Removable(w, uid, ans, k)
      modifies this
      ensures go <==> Absent(old(w), k)
      ensures if go then w == old(w) && budget == old(budget) else Stopped(old(w), w, uid, ans, m, old(budget) > 1)
    {
      m := Stay;
      hide Removable;
      if k !in w.objects {
        if k !in w.status.records {
          return true, m;
        }
        if budget > 0 {
          budget := budget - 1;
          w := w.(status := w.status.(records := w.status.records - {k}));
          m := Forget(k);
        }
        return false, m;
      }
      if !Guarded(w, uid, k) || (k.kind.SubnetKind? && k.name in w.used) {
        RemovableNamed(w, uid, ans, k);
        m := SetPhase(ans, "Pending");
        return false, m;
      }
      if !w.objects[k].terminating && budget > 0 {
        budget := budget - 1;
        w := w.(objects := w.objects[k := w.objects[k].(terminating := true)]);
        m := Delete(k);
      }
      return false, m;
    }

    /** Withdrawing everything cross-site of a location that still has subnets. */
    method Disconnect(ans: Answers) returns (go: bool, ghost m: Move)
      requires !w.spec.content.deleting && !Cross(w.spec.content)
      modifies this
      ensures go <==> Disconnected(old(w), uid, ans)
      ensures if go then w == old(w) && budget == old(budget) else Stopped(old(w), w, uid, ans, m, old(budget) > 1)
    {
      hide RoutesWithdrawn, BackendGone, Stopped;
      go, m := WithdrawRoutes(ans);
      if !go {
        return;
      }
      go, m := WithdrawBackend(ans, false);
      if !go {
        return;
      }
      if TransitKey(w.spec.content) in w.status.records {
        go, m := DeleteNative(ans, TransitKey(w.spec.content));
      }
    }

    method EnsureActive(ans: Answers) returns (go: bool, ghost m: Move)
      requires !w.spec.content.deleting && ans.allocation.Some?
      modifies this
      ensures go <==> ActiveReady(old(w), uid)
      ensures if go then w == old(w) && budget == old(budget) else Stopped(old(w), w, uid, ans, m, old(budget) > 1)
    {
      hide Ensured, Stopped, Workload;
      m := Stay;
      var subnets := w.spec.content.subnets;
      for i := 0 to |subnets|
        invariant w == old(w) && budget == old(budget)
        invariant forall j :: 0 <= j < i && !subnets[j].deleting ==> SubnetReady(w, uid, subnets[j])
      {
        var s := subnets[i];
        assert s in w.spec.content.subnets;
        if s.deleting {
          continue;
        }
        var done;
        done, m := Ensure(ans, NativeKey(s), Workload(w.spec.content, s.cidr, s.gateway));
        if !done {
          return false, m;
        }
        EnsuredExists(w, uid, NativeKey(s), Workload(w.spec.content, s.cidr, s.gateway));
        if !w.objects[NativeKey(s)].ready {
          m := SetPhase(ans, "Pending");
          return false, m;
        }
      }
      return true, m;
    }

    /** Transit subnet, gateways and routes, in this order. */
    method Connect(ans: Answers) returns (go: bool, ghost m: Move)
      requires !w.spec.content.deleting && Cross(w.spec.content) && ans.allocation.Some?
      modifies this
      ensures go <==> Connected(old(w), uid, ans)
      ensures if go then w == old(w) && budget == old(budget)
              else Stopped(old(w), w, uid, ans, m, VpcKey(old(w).spec.content) in old(w).objects && old(budget) > 1)
    {
      hide Ensured, Apply, Allowed, Useful, Routed, TransitFields;
      var k := TransitKey(w.spec.content);
      var fields := TransitFields(w.spec.content, ans.allocation.value);
      go, m := Ensure(ans, k, fields);
      if !go {
        return;
      }
      EnsuredExists(w, uid, k, fields);
      if !w.objects[k].ready || !ans.capable || ans.backend.NoBackend? || ans.ensured.None? {
        m := SetPhase(ans, "Pending");
        return false, m;
      }
      go, m := PublishReport(ans, ans.ensured.value);
      if !go {
        return;
      }
      if |w.status.gateways| < 2 || |Hops(w.status.gateways)| < 2 {
        m := SetPhase(ans, "Pending");
        return false, m;
      }
      go, m := Routes(ans, CrossIntents(w));
      if go && !ans.ensured.value.ready {
        m := SetPhase(ans, "Pending");
        return false, m;
      }
    }

    method DeleteDraining(ans: Answers) returns (go: bool, ghost m: Move)
      requires !w.spec.content.deleting && Settled(w, uid, ans)
      modifies this
      ensures go <==> forall s :: s in old(w).spec.content.subnets && s.deleting ==> Absent(old(w), NativeKey(s))
      ensures if go then w == old(w) && budget == old(budget) else Stopped(old(w), w, uid, ans, m, old(budget) > 1)
    {
      hide Settled, Stopped;
      m := Stay;
      var subnets := w.spec.content.subnets;
      for i := 0 to |subnets|
        invariant w == old(w) && budget == old(budget)
        invariant forall j :: 0 <= j < i && subnets[j].deleting ==> Absent(w, NativeKey(subnets[j]))
      {
        var s := subnets[i];
        assert s in w.spec.content.subnets;
        if !s.deleting {
          continue;
        }
        NotTransit(w.spec.content, s);
        var done;
        done, m := DeleteNative(ans, NativeKey(s));
        if !done {
          return false, m;
        }
      }
      return true, m;
    }

    /** The stages of a snapshot that is not a tombstone. */
    method Configure(ans: Answers) returns (go: bool, ghost m: Move)
      requires !w.spec.content.deleting
      modifies this
      ensures go <==> Configured(old(w), uid, ans)
      ensures if go then w == old(w) && budget == old(budget) else Stopped(old(w), w, uid, ans, m, old(budget) > 1)
    {
      hide Stopped, Disconnected, Connected, Ensured, AllClear, ActiveReady, Drained, HasActive, VpcFields, Absent;
      var c := w.spec.content;
      var drained, active := CheckDraining();
      if !drained {
        NotDrained(w, uid);
        m := SetPhase(ans, "Pending");
        return false, m;
      }
      var cross := active > 0 && c.remotes != [];
      if !cross {
        go, m := Disconnect(ans);
        if !go {
          return;
        }
      }
      if ans.allocation.None? {
        m := SetPhase(ans, "Blocked");
        return false, m;
      }
      var clear := CheckRanges(ans.allocation.value);
      if !clear {
        m := SetPhase(ans, "Blocked");
        return false, m;
      }
      go, m := Ensure(ans, VpcKey(c), VpcFields(c, ans.allocation.value));
      if !go {
        return;
      }
      go, m := EnsureActive(ans);
      if !go {
        return;
      }
      if cross {
        EnsuredExists(w, uid, VpcKey(c), VpcFields(c, ans.allocation.value));
        go, m := Connect(ans);
        if !go {
          return;
        }
      }
      go, m := DeleteDraining(ans);
    }

    /** No recorded workload subnet is still referred to. */
    method CheckRecordedUnused() returns (unused: bool)
      ensures unused <==> forall k :: k in w.status.records && k.kind.SubnetKind? && k != TransitKey(w.spec.content) ==> k.name !in w.used
    {
      var todo := w.status.records.Keys;
      while todo != {}
        invariant todo <= w.status.records.Keys
        invariant forall k :: k in w.status.records && k !in todo && k.kind.SubnetKind? && k != TransitKey(w.spec.content) ==> k.name !in w.used
      {
        var k :| k in todo;
        todo := todo - {k};
        if k.kind.SubnetKind? && k != TransitKey(w.spec.content) && k.name in w.used {
          return false;
        }
      }
      return true;
    }

    /** The stages of a tombstone: routes, gateways, subnets, then the Vpc. */
    method Remove(ans: Answers) returns (go: bool, ghost m: Move)
      requires w.spec.content.deleting
      modifies this
      ensures go <==> Removed(old(w), uid, ans)
      ensures if go then w == old(w) && budget == old(budget) else Stopped(old(w), w, uid, ans, m, old(budget) > 1)
    {
      hide Stopped, RoutesWithdrawn, BackendGone, Absent;
      var unused := CheckRecordedUnused();
      if !unused {
        m := SetPhase(ans, "Deleting");
        return false, m;
      }
      go, m := WithdrawRoutes(ans);
      if !go {
        return;
      }
      go, m := WithdrawBackend(ans, true);
      if !go {
        return;
      }
      var todo := w.status.records.Keys;
      while todo != {}
        invariant todo <= w.status.records.Keys && w == old(w) && budget == old(budget)
        invariant forall k :: k in w.status.records && k !in todo ==> !k.kind.SubnetKind?
      {
        var k :| k in todo;
        todo := todo - {k};
        if k.kind.SubnetKind? {
          AbsentUnrecorded(w, k);
          go, m := DeleteNative(ans, k);
          return;
        }
      }
      go, m := DeleteNative(ans, VpcKey(w.spec.content));
    }

    /** One pass over the accepted snapshot. */
    method Reconcile(ans: Answers) returns (acknowledged: bool, ghost m: Move)
      modifies this
      ensures w == Apply(old(w), uid, m) && Allowed(old(w), uid, ans, m)
      ensures acknowledged <==> m.Acknowledge?
      // A pass that may write either writes something useful or has something outside in its way.
      ensures old(budget) > 1 ==> acknowledged || Useful(old(w), m) || Hindered(old(w), uid, ans)
      // A binding of another location is left alone.
      ensures !ans.here ==> m == Stay
      // The revision is acknowledged exactly when everything is as the snapshot wants it, and the status can be written.
      ensures acknowledged <==> Converged(old(w), uid, ans) && (old(budget) > 0 || Apply(old(w), uid, Acknowledge) == old(w))
    {
      hide Configured, Removed, Recovered, RevisionOf;
      if !ans.here {
        return false, Stay;
      }
      if !ans.accepted || w.spec.revision != RevisionOf(w.spec.content) || !ans.identity {
        m := SetPhase(ans, "Blocked");
        return false, m;
      }
      var go;
      go, m := RecoverNativeSubnets(ans);
      if go && w.spec.content.deleting {
        go, m := Remove(ans);
      } else if go {
        go, m := Configure(ans);
      }
      if !go {
        return false, m;
      }
      m := Acknowledge;
      var final := w.status.(phase := FinalPhase(w.spec.content), applied := w.spec.revision);
      if w.status == final {
        return true, m;
      }
      if budget == 0 {
        return false, Stay;
      }
      budget := budget - 1;
      w := w.(status := final);
      return true, m;
    }
  }

  lemma AbsentUnrecorded(w: World, k: Key)
    requires k in w.status.records
    ensures !Absent(w, k)
  {
  }

  lemma WantedNamed(w: World, uid: string, ans: Answers, k: Key, fields: map<string, string>)
    requires Wanted(w, ans, k, fields)
    ensures k in Names(w, uid) || k == VpcKey(w.spec.content)
  {
    hide VpcFields, Workload, TransitFields;
  }

  lemma RemovableNamed(w: World, uid: string, ans: Answers, k: Key)
    requires Removable(w, uid, ans, k)
    ensures k in Names(w, uid) || k == VpcKey(w.spec.content)
    ensures k.kind.SubnetKind? && k.name in w.used ==> InUse(w, uid)
  {
    hide RoutesWithdrawn, BackendGone, Settled;
  }

  lemma NotDrained(w: World, uid: string)
    requires !Drained(w)
    ensures InUse(w, uid)
  {
    hide Cross;
    var s :| s in w.spec.content.subnets && s.deleting && NativeName(s.uid) in w.used;
    assert NativeKey(s) in Names(w, uid);
  }

  lemma EnsuredExists(w: World, uid: string, k: Key, fields: map<string, string>)
    requires Ensured(w, uid, k, fields)
    ensures k in w.objects && w.objects[k].owner == uid && k in w.status.records
  {
  }

  lemma NotTransit(c: Content, s: BindingSubnet)
    ensures NativeKey(s) != TransitKey(c)
  {
    assert NativeKey(s).name[1] == 's' && TransitKey(c).name[1] == 't';
  }

  // ---- What an acknowledgement means ----

  /** The native subnets of this binding. */
  ghost predicate OwnedSubnet(w: World, uid: string, k: Key) {
    k in w.objects && k.kind.SubnetKind? && w.objects[k].owner == uid
  }

  /** An acknowledged tombstone: no native object of this binding is left, recorded or not, and no gateway. */
  lemma TombstoneMeansGone(w: World, uid: string, ans: Answers)
    requires Converged(w, uid, ans) && w.spec.content.deleting
    ensures forall k :: !OwnedSubnet(w, uid, k)
    ensures VpcKey(w.spec.content) !in w.objects && w.status.gateways == [] && w.status.backend == {}
    ensures forall k :: k in w.status.records ==> k.kind.VpcKind? && k != VpcKey(w.spec.content)
  {
    forall k | OwnedSubnet(w, uid, k) ensures k in w.status.records {
      OwnedIsNamed(w, uid, k);
    }
  }

  lemma OwnedIsNamed(w: World, uid: string, k: Key)
    requires OwnedSubnet(w, uid, k)
    ensures k in Names(w, uid)
  {
  }

  /** An acknowledged snapshot with exports routes exactly its remote subnets over exactly its registered gateways: the
      native controller's acknowledged hash is that of no other set of destinations. */
  lemma AcknowledgedRoutes(w: World, uid: string, ans: Answers, others: seq<Intent>)
    requires Converged(w, uid, ans) && !w.spec.content.deleting && Cross(w.spec.content)
    ensures VpcKey(w.spec.content) in w.objects && DestinationPlan.Acceptable(CrossIntents(w))
    ensures var o := w.objects[VpcKey(w.spec.content)];
      && o.routes == DestinationPlan.CanonicalPlan(CrossIntents(w)).routes
      && o.ack.Some? && o.ack.value.generation == o.generation
      && (o.ack.value.hash == DestinationPlan.CanonicalPlan(others).hash ==> DestinationPlan.SameIntents(CrossIntents(w), others))
  {
    hide DestinationPlan.Acceptable, DestinationPlan.CanonicalPlan, DestinationPlan.SameIntents;
    DestinationPlan.HashIdentifiesIntents(CrossIntents(w), others);
  }

  /** The transit addresses of a list of gateways, one each. */
  function TransitIps(gateways: seq<Gateway>): (ips: seq<string>) {
    seq(|gateways|, i requires 0 <= i < |gateways| => gateways[i].transitIp)
  }

  /** The hops are the transit addresses that are set, each as often as it is registered. */
  lemma {:induction false} HopsMean(gateways: seq<Gateway>, h: string)
    ensures multiset(Hops(gateways))[h] == if h == "" then 0 else multiset(TransitIps(gateways))[h]
  {
    if gateways != [] {
      var front, last := gateways[..|gateways| - 1], gateways[|gateways| - 1];
      HopsMean(front, h);
      assert TransitIps(gateways) == TransitIps(front) + [last.transitIp];
      assert Hops(gateways) == Hops(front) + if last.transitIp != "" then [last.transitIp] else [];
    }
  }

  /** A route over every registered transit address, spread by five fields, its sessions timed 300/300/3. */
  ghost predicate CrossRoute(r: Intent, cidr: string, gateways: seq<Gateway>) {
    && r.cidr == cidr && r.timers == DestinationPlan.Timers(300, 300, 3)
    && multiset(r.fields) == multiset{"ip_src", "ip_dst", "ip_proto", "tp_src", "tp_dst"}
    && forall h :: multiset(r.nextHops)[h] == if h == "" then 0 else multiset(TransitIps(gateways))[h]
  }

  lemma NormalCross(cidr: string, gateways: seq<Gateway>)
    ensures CrossRoute(DestinationPlan.Normal(IntentFor(cidr, Hops(gateways))), cidr, gateways)
  {
    hide Hops, Ordering.Sort, TransitIps;
    forall h ensures multiset(Hops(gateways))[h] == if h == "" then 0 else multiset(TransitIps(gateways))[h] {
      HopsMean(gateways, h);
    }
    assert multiset(FIELDS) == multiset{"ip_src", "ip_dst", "ip_proto", "tp_src", "tp_dst"};
  }

  /** What an acknowledged snapshot with exports leaves in the native Vpc: one route per remote subnet, to exactly its
      prefix, over exactly the transit addresses of the registered gateways. */
  lemma AcknowledgedDestinations(w: World, uid: string, ans: Answers)
    requires Converged(w, uid, ans) && !w.spec.content.deleting
    requires w.spec.content.remotes != [] && exists s :: s in w.spec.content.subnets && !s.deleting
    ensures VpcKey(w.spec.content) in w.objects
    ensures var routes := w.objects[VpcKey(w.spec.content)].routes; var remotes := w.spec.content.remotes;
      && |routes| == |remotes|
      && (forall r :: r in routes ==> exists t :: t in remotes && CrossRoute(r, t.cidr, w.status.gateways))
      && (forall t :: t in remotes ==> exists r :: r in routes && CrossRoute(r, t.cidr, w.status.gateways))
    ensures |w.status.gateways| >= 2
  {
    hide DestinationPlan.Acceptable, DestinationPlan.Normal, CrossRoute, Ordering.Sort, Recovered, ActiveReady, AllClear, Drained, Hops, IntentFor;
    var routes, intents := w.objects[VpcKey(w.spec.content)].routes, CrossIntents(w);
    assert routes == DestinationPlan.CanonicalPlan(intents).routes;
    CrossMembers(intents, w.spec.content.remotes, w.status.gateways);
  }

  lemma CrossMembers(intents: seq<Intent>, remotes: seq<Remote>, gateways: seq<Gateway>)
    requires intents == Intents(remotes, Hops(gateways))
    ensures var routes := DestinationPlan.CanonicalPlan(intents).routes;
      && |routes| == |remotes|
      && (forall r :: r in routes ==> exists t :: t in remotes && CrossRoute(r, t.cidr, gateways))
      && (forall t :: t in remotes ==> exists r :: r in routes && CrossRoute(r, t.cidr, gateways))
  {
    hide CrossRoute, IntentFor, Hops, DestinationPlan.Normal;
    var normals := DestinationPlan.Normals(intents);
    Ordering.SameMembers(Ordering.Sort(normals, DestinationPlan.Cidr), normals);
    forall i | 0 <= i < |remotes| ensures normals[i] in normals && CrossRoute(normals[i], remotes[i].cidr, gateways) && remotes[i] in remotes {
      NormalCross(remotes[i].cidr, gateways);
    }
    forall t | t in remotes ensures exists r :: r in normals && CrossRoute(r, t.cidr, gateways) {
      var i :| 0 <= i < |remotes| && remotes[i] == t;
    }
  }

  // ---- What no pass ever does ----

  /** Objects of other owners are never touched, none is created where one exists or is recorded, and nothing vanishes. */
  lemma OthersUntouched(w: World, uid: string, ans: Answers, m: Move, k: Key)
    requires Allowed(w, uid, ans, m) && k in w.objects
    ensures k in Apply(w, uid, m).objects
    ensures var o, p := w.objects[k], Apply(w, uid, m).objects[k];
      p.uid == o.uid && p.owner == o.owner && (o.owner != uid ==> p == o)
  {
    hide Converged, Removable, Wanted, MayRoute, RoutesWithdrawn, DestinationPlan.Acceptable, DestinationPlan.CanonicalPlan;
  }

  lemma OnlyDeleteTerminates(w: World, uid: string, m: Move, k: Key)
    requires k in w.objects && !w.objects[k].terminating
    requires k in Apply(w, uid, m).objects && Apply(w, uid, m).objects[k].terminating
    ensures m == Delete(k)
  {
  }

  /** An object starts to be deleted only for a subnet the snapshot drains or a tombstone, with no endpoint left, and only
      after connectivity is settled: routes are withdrawn before gateways, gateways before transit and workloads. */
  lemma DeletionIsOrderly(w: World, uid: string, ans: Answers, m: Move, k: Key)
    requires Allowed(w, uid, ans, m) && k in w.objects && !w.objects[k].terminating
    requires k in Apply(w, uid, m).objects && Apply(w, uid, m).objects[k].terminating
    ensures m == Delete(k) && w.objects[k].owner == uid && (k.kind.SubnetKind? ==> k.name !in w.used)
    ensures w.spec.content.deleting || !Cross(w.spec.content) ==> RoutesWithdrawn(w, uid) && w.status.gateways == []
    ensures !w.spec.content.deleting && Cross(w.spec.content) ==>
              Connected(w, uid, ans) && exists s :: s in w.spec.content.subnets && s.deleting && k == NativeKey(s)
  {
    hide RoutesWithdrawn, Connected, Converged, Wanted, MayRoute, DestinationPlan.Acceptable, DestinationPlan.CanonicalPlan;
    OnlyDeleteTerminates(w, uid, m, k);
  }

  // ---- Whole runs ----

  /** The site, with the native names it has acknowledged absent so far. */
  datatype Site = Site(w: World, absent: set<string>)

  /** A pass, the next accepted snapshot, or anything else the cluster does. */
  datatype Event = Pass(ans: Answers, m: Move) | Accept(next: Spec) | Elsewhere(after: World)

  function DrainingNames(c: Content): (names: set<string>) {
    set s | s in c.subnets && s.deleting :: NativeName(s.uid)
  }

  /** A snapshot lists every subnet once. */
  ghost predicate Plain(c: Content) {
    forall s, t :: s in c.subnets && t in c.subnets && s.uid == t.uid ==> s == t
  }

  /** What the authority guarantees of the next snapshot: a subnet leaves only once acknowledged absent, and one that is
      gone never becomes active again. */
  ghost predicate Successor(s: Site, next: Content) {
    var c := s.w.spec.content;
    && Plain(next) && next.vpcUid == c.vpcUid && next.location == c.location
    && (forall t :: t in c.subnets ==> NativeName(t.uid) in s.absent || exists n :: n in next.subnets && n.uid == t.uid)
    && (forall n :: n in next.subnets && NativeName(n.uid) in s.absent ==> n.deleting)
  }

  /** Other actors may change, remove and add objects, but add none under this binding's label. */
  ghost predicate Environment(v: World, w: World, uid: string) {
    && w.spec == v.spec && w.status == v.status
    && forall k :: k in w.objects && w.objects[k].owner == uid ==> k in v.objects && v.objects[k].owner == uid
  }

  ghost function Next(s: Site, uid: string, e: Event): (t: Site) {
    match e
    case Pass(ans, m) =>
      if !Allowed(s.w, uid, ans, m) then s
      else Site(Apply(s.w, uid, m), if m.Acknowledge? then s.absent + DrainingNames(s.w.spec.content) else s.absent)
    case Accept(next) => if Successor(s, next.content) then s.(w := s.w.(spec := next)) else s
    case Elsewhere(after) => if Environment(s.w, after, uid) then s.(w := after) else s
  }

  ghost function Run(start: Spec, uid: string, events: seq<Event>): (s: Site) {
    if events == [] then Site(World(start, Status("", Unset, map[], {}, []), map[], {}, 0), {})
    else Next(Run(start, uid, events[..|events| - 1]), uid, events[|events| - 1])
  }

  ghost predicate Known(c: Content, k: Key) {
    k == TransitKey(c) || exists t :: t in c.subnets && k == NativeKey(t)
  }

  /** Every native subnet of the binding is one the snapshot knows, and what was acknowledged absent stays absent. */
  ghost predicate Sound(s: Site, uid: string) {
    var c := s.w.spec.content;
    && (forall k :: OwnedSubnet(s.w, uid, k) ==> Known(c, k) && k.name !in s.absent)
    && Plain(c) && (forall t :: t in c.subnets && NativeName(t.uid) in s.absent ==> t.deleting)
    && TransitKey(c).name !in s.absent
  }

  /** Only creation adds an owned subnet. */
  lemma OwnedAfter(w: World, uid: string, m: Move, k: Key)
    requires OwnedSubnet(Apply(w, uid, m), uid, k)
    ensures OwnedSubnet(w, uid, k) || (m.Create? && m.key == k)
  {
  }

  lemma SameSpec(w: World, uid: string, m: Move)
    ensures Apply(w, uid, m).spec == w.spec
  {
  }

  lemma PassSound(s: Site, uid: string, ans: Answers, m: Move)
    requires Sound(s, uid) && Allowed(s.w, uid, ans, m)
    ensures Sound(Next(s, uid, Pass(ans, m)), uid)
  {
    var t := Next(s, uid, Pass(ans, m));
    SameSpec(s.w, uid, m);
    if m.Acknowledge? {
      AcknowledgedAbsent(s.w, uid, ans);
    }
    forall k | OwnedSubnet(t.w, uid, k) ensures Known(s.w.spec.content, k) && k.name !in t.absent {
      OwnedAfter(s.w, uid, m, k);
      if !OwnedSubnet(s.w, uid, k) {
        CreatedKnown(s, uid, ans, m);
      }
    }
    hide Allowed, Apply, OwnedSubnet, Known, NativeName, TransitKey;
    forall n | n in s.w.spec.content.subnets && NativeName(n.uid) in t.absent ensures n.deleting {
      if NativeName(n.uid) !in s.absent {
        var d :| d in s.w.spec.content.subnets && d.deleting && NativeName(d.uid) == NativeName(n.uid);
        SameName(d, n);
      }
    }
    forall d | d in s.w.spec.content.subnets ensures NativeName(d.uid) != TransitKey(s.w.spec.content).name {
      NotTransit(s.w.spec.content, d);
    }
  }

  lemma SameName(a: BindingSubnet, b: BindingSubnet)
    requires NativeName(a.uid) == NativeName(b.uid)
    ensures a.uid == b.uid
  {
    assert NativeName(a.uid)[3..] == a.uid && NativeName(b.uid)[3..] == b.uid;
  }

  lemma CreatedKnown(s: Site, uid: string, ans: Answers, m: Move)
    requires Sound(s, uid) && Allowed(s.w, uid, ans, m) && m.Create? && m.key.kind.SubnetKind?
    ensures Known(s.w.spec.content, m.key) && m.key.name !in s.absent
  {
    hide OwnedSubnet, VpcFields, Workload, TransitFields;
  }

  lemma AcknowledgedAbsent(w: World, uid: string, ans: Answers)
    requires Converged(w, uid, ans)
    ensures forall k :: OwnedSubnet(w, uid, k) ==> k.name !in DrainingNames(w.spec.content)
  {
    if w.spec.content.deleting {
      TombstoneMeansGone(w, uid, ans);
    }
  }

  lemma AcceptSound(s: Site, uid: string, next: Spec)
    requires Sound(s, uid) && Successor(s, next.content)
    ensures Sound(Next(s, uid, Accept(next)), uid)
  {
    var t := Next(s, uid, Accept(next));
    forall k | OwnedSubnet(t.w, uid, k) ensures Known(next.content, k) {
      assert OwnedSubnet(s.w, uid, k);
      if k != TransitKey(next.content) {
        var u :| u in s.w.spec.content.subnets && k == NativeKey(u);
        var n :| n in next.content.subnets && n.uid == u.uid;
        assert k == NativeKey(n);
      }
    }
  }

  /** Over every run of passes, accepted snapshots and whatever else happens in the cluster. */
  lemma {:induction false} RunSound(start: Spec, uid: string, events: seq<Event>)
    requires Plain(start.content)
    ensures Sound(Run(start, uid, events), uid)
  {
    if events != [] {
      var s, e := Run(start, uid, events[..|events| - 1]), events[|events| - 1];
      RunSound(start, uid, events[..|events| - 1]);
      hide Sound, Allowed, Apply, Successor, Environment, Run;
      assert Run(start, uid, events) == Next(s, uid, e) by { RunLast(start, uid, events); }
      if e.Pass? && Allowed(s.w, uid, e.ans, e.m) {
        PassSound(s, uid, e.ans, e.m);
      } else if e.Accept? && Successor(s, e.next.content) {
        AcceptSound(s, uid, e.next);
      } else if e.Elsewhere? && Environment(s.w, e.after, uid) {
        ElsewhereSound(s, uid, e.after);
      }
    }
  }

  lemma RunLast(start: Spec, uid: string, events: seq<Event>)
    requires events != []
    ensures Run(start, uid, events) == Next(Run(start, uid, events[..|events| - 1]), uid, events[|events| - 1])
  {
  }

  lemma ElsewhereSound(s: Site, uid: string, after: World)
    requires Sound(s, uid) && Environment(s.w, after, uid)
    ensures Sound(s.(w := after), uid)
  {
    forall k | OwnedSubnet(after, uid, k) ensures OwnedSubnet(s.w, uid, k) {
    }
  }

  /** Whenever a pass acknowledges a snapshot, the native subnets of the binding are exactly the snapshot's active ones, and
      the transit subnet when it has exports; none of them is left over from any earlier snapshot. */
  lemma AcknowledgedIsExact(start: Spec, uid: string, events: seq<Event>, ans: Answers, k: Key)
    requires Plain(start.content)
    requires Converged(Run(start, uid, events).w, uid, ans)
    ensures var w := Run(start, uid, events).w; var c := w.spec.content;
      OwnedSubnet(w, uid, k) <==>
        && !c.deleting
        && ((exists s :: s in c.subnets && !s.deleting && k == NativeKey(s)) || (Cross(c) && k == TransitKey(c)))
  {
    RunSound(start, uid, events);
    hide Run;
    ExactNow(Run(start, uid, events), uid, ans, k);
  }

  lemma ExactNow(s: Site, uid: string, ans: Answers, k: Key)
    requires Sound(s, uid) && Converged(s.w, uid, ans)
    ensures var c := s.w.spec.content;
      OwnedSubnet(s.w, uid, k) <==>
        && !c.deleting
        && ((exists s :: s in c.subnets && !s.deleting && k == NativeKey(s)) || (Cross(c) && k == TransitKey(c)))
  {
    if s.w.spec.content.deleting {
      TombstoneMeansGone(s.w, uid, ans);
    } else {
      ActiveOwned(s.w, uid, ans);
      TransitOwned(s.w, uid, ans);
      hide Converged;
    }
  }

  lemma ActiveOwned(w: World, uid: string, ans: Answers)
    requires Converged(w, uid, ans) && !w.spec.content.deleting
    ensures forall s :: s in w.spec.content.subnets ==> (OwnedSubnet(w, uid, NativeKey(s)) <==> !s.deleting)
  {
    hide Recovered, Settled, AllClear, VpcFields, Drained;
    forall s | s in w.spec.content.subnets && !s.deleting ensures OwnedSubnet(w, uid, NativeKey(s)) {
      assert SubnetReady(w, uid, s);
    }
  }

  lemma TransitOwned(w: World, uid: string, ans: Answers)
    requires Converged(w, uid, ans) && !w.spec.content.deleting
    ensures OwnedSubnet(w, uid, TransitKey(w.spec.content)) <==> Cross(w.spec.content)
  {
    hide ActiveReady, AllClear, VpcFields, Drained, Routed, RoutesWithdrawn;
    var k := TransitKey(w.spec.content);
    assert k in Names(w, uid);
    assert k in w.objects ==> k in w.status.records;
  }
}
