/** Carrying snapshots from the authority to one location and statuses back
    (internal/localcontroller/sync.go). */
module Syncer {
  import opened Wrappers
  import opened Snapshot

  datatype Status = Status(phase: string, applied: Revision, resources: set<string>, gateways: seq<Gateway>, observed: int,
                           conditions: map<string, int>)

  /** A binding as the authority serves it; conditions are kept by kind with their observed generation. */
  datatype Authority = Authority(name: string, uid: string, generation: int, spec: Spec, status: Status)

  /** The accepted copy, with the incarnation and generation it was accepted from. */
  datatype Local = Local(sourceUid: string, sourceGeneration: Option<int>, spec: Spec, status: Status)

  datatype Reason = OtherLocation | BadIdentity | CleanupPending | OtherOwner | OlderGeneration | ChangedInPlace | Resurrection

  /** What one binding asks of the local API. */
  datatype Action = Refuse(why: Reason) | Create(made: Local) | Remove | Accept(next: Local) | Keep

  function BindingName(vpcUid: string, location: string): (n: string) {
    "nb-" + vpcUid + "/" + location
  }

  function BlankStatus(): (s: Status) {
    Status("", Unset, {}, [], 0, map[])
  }

  predicate Acknowledged(l: Local) {
    && l.spec.content.deleting && l.status.phase == "Deleted" && l.status.applied == l.spec.revision
    && l.status.resources == {} && l.status.gateways == []
  }

  predicate WellFormed(remote: Authority, location: string) {
    && remote.name == BindingName(remote.spec.content.vpcUid, location)
    && remote.spec.revision == RevisionOf(remote.spec.content)
  }

  /** The whole reference to the VPC: its identity, name and namespace. */
  predicate SameVpc(a: Content, b: Content) {
    a.vpcUid == b.vpcUid && a.vpcName == b.vpcName && a.namespace == b.namespace
  }

  function Decide(local: Option<Local>, remote: Authority, location: string): (a: Action) {
    if remote.spec.content.location != location then Refuse(OtherLocation)
    else if !WellFormed(remote, location) then Refuse(BadIdentity)
    else if local.None? then Create(Local(remote.uid, Some(remote.generation), remote.spec, BlankStatus()))
    else
      var l := local.value;
      if l.sourceUid != remote.uid then (if Acknowledged(l) then Remove else Refuse(CleanupPending))
      else if !SameVpc(l.spec.content, remote.spec.content) || l.spec.content.location != location then Refuse(OtherOwner)
      else if l.sourceGeneration.None? || remote.generation < l.sourceGeneration.value then Refuse(OlderGeneration)
      else if remote.generation == l.sourceGeneration.value then (if l.spec == remote.spec then Keep else Refuse(ChangedInPlace))
      else if l.spec.content.deleting && !remote.spec.content.deleting then Refuse(Resurrection)
      else Accept(l.(spec := remote.spec, sourceGeneration := Some(remote.generation)))
  }

  /** The local copy after the action, if the API stored it. */
  function Applied(local: Option<Local>, a: Action): (l: Option<Local>) {
    match a
    case Create(made) => Some(made)
    case Remove => None
    case Accept(next) => Some(next)
    case _ => local
  }

  /** The status sent back: observed at the authority's generation exactly when its revision is applied. */
  function Reported(s: Status, remote: Authority): (r: Status) {
    var seen := if s.applied == remote.spec.revision then remote.generation else 0;
    s.(observed := seen, conditions := map k | k in s.conditions :: seen)
  }

  /** The status that goes back differs from the one the authority has. */
  predicate Returns(local: Option<Local>, remote: Authority, location: string, stored: bool) {
    match Decide(local, remote, location)
    case Accept(next) => stored && Reported(next.status, remote) != remote.status
    case Keep => local.Some? && Reported(local.value.status, remote) != remote.status
    case _ => false
  }

  predicate Succeeds(local: Option<Local>, remote: Authority, location: string, stored: bool, reported: bool) {
    var a := Decide(local, remote, location);
    !a.Refuse? && (stored || a.Keep?) && (reported || !Returns(local, remote, location, stored))
  }

  class LocationSyncer {
    const location: string
    var locals: map<string, Local>
    /** Statuses written back to the authority, by binding name. */
    var returned: map<string, Status>

    constructor (location: string)
      ensures this.location == location && locals == map[] && returned == map[]
    {
      this.location := location;
      locals, returned := map[], map[];
    }

    function Copy(name: string): (l: Option<Local>)
      reads this
    {
      if name in locals then Some(locals[name]) else None
    }

    /** The status written back for a listed binding, where one is written and taken; any other stays. */
    predicate Answered(was: Option<Local>, remote: Authority, stored: bool, reported: bool, before: map<string, Status>, after: map<string, Status>)
      reads this
    {
      if Returns(was, remote, location, stored) && reported then
        remote.name in locals && remote.name in after && after[remote.name] == Reported(locals[remote.name].status, remote)
      else Unanswered(remote.name, before, after)
    }

    static predicate Unanswered(n: string, before: map<string, Status>, after: map<string, Status>) {
      (n in after <==> n in before) && (n in after ==> after[n] == before[n])
    }

    /** One binding; `stored` tells whether the local API takes the write, `reported` whether the authority takes the
        status. */
    method Binding(remote: Authority, stored: bool, reported: bool) returns (ok: bool)
      modifies this
      ensures var a := Decide(old(Copy(remote.name)), remote, location);
        && Copy(remote.name) == (if stored then Applied(old(Copy(remote.name)), a) else old(Copy(remote.name)))
        && (forall n :: n != remote.name ==> Copy(n) == old(Copy(n)))
        && (ok <==> Succeeds(old(Copy(remote.name)), remote, location, stored, reported))
      ensures returned == if Returns(old(Copy(remote.name)), remote, location, stored) && reported
                          then old(returned)[remote.name := Reported(locals[remote.name].status, remote)] else old(returned)
      ensures Answered(old(Copy(remote.name)), remote, stored, reported, old(returned), returned)
      ensures forall n :: n != remote.name ==> Unanswered(n, old(returned), returned)
    {
      var a := Decide(Copy(remote.name), remote, location);
      match a {
        case Refuse(_) =>
          return false;
        case Create(made) =>
          if stored {
            locals := locals[remote.name := made];
          }
          return stored;
        case Remove =>
          if stored {
            locals := locals - {remote.name};
          }
          return stored;
        case Accept(next) =>
          if !stored {
            return false;
          }
          locals := locals[remote.name := next];
        case Keep =>
      }
      var status := Reported(locals[remote.name].status, remote);
      if status != remote.status {
        if !reported {
          return false;
        }
        returned := returned[remote.name := status];
      }
      return true;
    }

    /** One round over a listing; each write is taken or not by itself. A binding that fails does not stop the others, and
        one that is missing stays. */
    method Once(list: seq<Authority>, stored: seq<bool>, reported: seq<bool>) returns (failures: seq<string>)
      requires |stored| == |reported| == |list| && forall i, j :: 0 <= i < j < |list| ==> list[i].name != list[j].name
      modifies this
      ensures forall n :: (forall i :: 0 <= i < |list| ==> list[i].name != n) ==> Copy(n) == old(Copy(n))
      ensures forall i :: 0 <= i < |list| ==>
                var was := old(Copy(list[i].name));
                && Copy(list[i].name) == (if stored[i] then Applied(was, Decide(was, list[i], location)) else was)
                && (list[i].name in failures <==> !Succeeds(was, list[i], location, stored[i], reported[i]))
      ensures forall i :: 0 <= i < |list| ==>
                Answered(old(Copy(list[i].name)), list[i], stored[i], reported[i], old(returned), returned)
      ensures forall n :: (forall i :: 0 <= i < |list| ==> list[i].name != n) ==> Unanswered(n, old(returned), returned)
    {
      hide Decide, Reported, Succeeds, Returns, Applied, RevisionOf;
      failures := [];
      for i := 0 to |list|
        invariant forall n :: (forall k :: 0 <= k < i ==> list[k].name != n) ==> Copy(n) == old(Copy(n))
        invariant forall n :: n in failures ==> exists k :: 0 <= k < i && list[k].name == n
        invariant forall k :: 0 <= k < i ==>
                    var was := old(Copy(list[k].name));
                    && Copy(list[k].name) == (if stored[k] then Applied(was, Decide(was, list[k], location)) else was)
                    && (list[k].name in failures <==> !Succeeds(was, list[k], location, stored[k], reported[k]))
        invariant forall k :: 0 <= k < i ==> Answered(old(Copy(list[k].name)), list[k], stored[k], reported[k], old(returned), returned)
        invariant forall n :: (forall k :: 0 <= k < i ==> list[k].name != n) ==> Unanswered(n, old(returned), returned)
      {
        ghost var first, last := old(returned), returned;
        assert forall k :: 0 <= k < i ==> Answered(old(Copy(list[k].name)), list[k], stored[k], reported[k], first, last);
        label before:
        var ok := Binding(list[i], stored[i], reported[i]);
        forall k | 0 <= k < i ensures Answered(old(Copy(list[k].name)), list[k], stored[k], reported[k], old(returned), returned) {
          ghost var was := old(Copy(list[k].name));
          assert old@before(Answered(was, list[k], stored[k], reported[k], first, last));
          assert Copy(list[k].name) == old@before(Copy(list[k].name));
          assert Unanswered(list[k].name, last, returned);
        }
        forall n | forall k :: 0 <= k < i + 1 ==> list[k].name != n ensures Unanswered(n, old(returned), returned) {
          assert list[i].name != n && Unanswered(n, first, last) && Unanswered(n, last, returned);
        }
        if !ok {
          failures := failures + [list[i].name];
        }
      }
    }
  }

  // ---- Runs of one name ----

  /** What happens to one local copy: a listing arrives, in whatever order and however old, and its write is stored or
      not; or the local controller reports. */
  datatype Event = Deliver(remote: Authority, stored: bool) | Progress(status: Status)

  function Next(local: Option<Local>, e: Event, location: string): (l: Option<Local>) {
    match e
    case Deliver(remote, stored) => if stored then Applied(local, Decide(local, remote, location)) else local
    case Progress(status) => if local.Some? then Some(local.value.(status := status)) else None
  }

  function Run(start: Option<Local>, events: seq<Event>, location: string): (l: Option<Local>) {
    if events == [] then start else Next(Run(start, events[..|events| - 1], location), events[|events| - 1], location)
  }

  // ---- What one stored listing does ----

  /** A listing of this location under its own name, with the digest of its content. */
  predicate Proper(remote: Authority, location: string) {
    && remote.spec.content.location == location && remote.name == "nb-" + remote.spec.content.vpcUid + "/" + location
    && remote.spec.revision == Sha256(remote.spec.content.(peers := UnreadyAll(remote.spec.content.peers)))
  }

  /** A newer listing of the copy's own incarnation and VPC that does not revive a deleting copy. */
  predicate Newer(l: Local, remote: Authority, location: string) {
    && Proper(remote, location) && l.sourceUid == remote.uid && l.spec.content.location == location
    && l.spec.content.vpcUid == remote.spec.content.vpcUid && l.spec.content.vpcName == remote.spec.content.vpcName
    && l.spec.content.namespace == remote.spec.content.namespace
    && l.sourceGeneration.Some? && l.sourceGeneration.value < remote.generation
    && (l.spec.content.deleting ==> remote.spec.content.deleting)
  }

  /** A deleting copy whose status says its own snapshot is cleaned up. */
  predicate CleanedUp(l: Local) {
    && l.spec.content.deleting && l.status.phase == "Deleted" && l.status.applied == l.spec.revision
    && l.status.resources == {} && l.status.gateways == []
  }

  /** With no copy a proper listing makes one that holds its incarnation, generation and snapshot, and an empty status. */
  lemma FirstCopy(remote: Authority, location: string)
    ensures Next(None, Deliver(remote, true), location) ==
            if Proper(remote, location) then Some(Local(remote.uid, Some(remote.generation), remote.spec, Status("", Unset, {}, [], 0, map[]))) else None
  {
  }

  /** A newer listing is taken over whole: its snapshot and generation, under the old status. */
  lemma TakesOver(l: Local, remote: Authority, location: string)
    requires Newer(l, remote, location)
    ensures Next(Some(l), Deliver(remote, true), location) == Some(Local(l.sourceUid, Some(remote.generation), remote.spec, l.status))
  {
  }

  /** The copy's snapshot changes exactly when the listing is newer and differs; the copy goes exactly when the listing is a
      proper one of another incarnation and the copy is cleaned up; in every other case nothing moves. */
  lemma ChangesExactly(l: Local, remote: Authority, location: string)
    ensures var t := Next(Some(l), Deliver(remote, true), location);
      && (t.None? <==> Proper(remote, location) && l.sourceUid != remote.uid && CleanedUp(l))
      && (t.Some? && t.value.spec != l.spec <==> Newer(l, remote, location) && remote.spec != l.spec)
      && (t.Some? && !Newer(l, remote, location) ==> t.value == l)
  {
  }

  /** The returned status keeps everything but the generations it is observed at. */
  lemma ReportKeeps(s: Status, remote: Authority)
    ensures var r := Reported(s, remote);
      && r.phase == s.phase && r.applied == s.applied && r.resources == s.resources && r.gateways == s.gateways
      && r.observed == (if s.applied == remote.spec.revision then remote.generation else 0)
      && r.conditions.Keys == s.conditions.Keys && forall k :: k in r.conditions ==> r.conditions[k] == r.observed
  {
  }

  /** A delivery succeeds exactly when its listing is proper, the copy need not be kept from it, every write it asks for is
      stored, and a status that differs from the authority's is taken back. */
  lemma SucceedsExactly(local: Option<Local>, remote: Authority, location: string, stored: bool, reported: bool)
    ensures Succeeds(local, remote, location, stored, reported) <==>
      && Proper(remote, location)
      && if local.None? then stored
         else if local.value.sourceUid != remote.uid then CleanedUp(local.value) && stored
         else
           && (Newer(local.value, remote, location) || Same(local.value, remote, location))
           && (Newer(local.value, remote, location) ==> stored)
           && (reported || Reported(local.value.status, remote) == remote.status)
  {
  }

  /** The listing the copy was accepted from. */
  predicate Same(l: Local, remote: Authority, location: string) {
    && l.sourceUid == remote.uid && l.sourceGeneration == Some(remote.generation) && l.spec == remote.spec && l.spec.content.location == location
  }

  /** The local copy exists all along: one incarnation. */
  ghost predicate Lives(start: Option<Local>, events: seq<Event>, location: string) {
    forall k :: 0 <= k <= |events| ==> Run(start, events[..k], location).Some?
  }

  ghost predicate Follows(a: Local, b: Local) {
    && b.sourceUid == a.sourceUid
    && (a.sourceGeneration.None? ==> b.sourceGeneration.None? && b.spec == a.spec)
    && (a.sourceGeneration.Some? ==> b.sourceGeneration.Some? && a.sourceGeneration.value <= b.sourceGeneration.value)
    && (a.sourceGeneration == b.sourceGeneration ==> b.spec == a.spec)
    && (a.spec.content.deleting ==> b.spec.content.deleting)
    && SameVpc(a.spec.content, b.spec.content)
  }

  /** Within one incarnation generations only rise, one generation has one spec, deletion is never undone and the owner
      never changes, whatever listings arrive. */
  lemma {:induction false} AcceptedOnlyAdvances(start: Local, events: seq<Event>, location: string)
    requires Lives(Some(start), events, location)
    ensures Run(Some(start), events, location).Some?
    ensures Follows(start, Run(Some(start), events, location).value)
  {
    assert events[..|events|] == events;
    if events != [] {
      var front := events[..|events| - 1];
      assert forall k :: 0 <= k <= |front| ==> front[..k] == events[..k];
      AcceptedOnlyAdvances(start, front, location);
    }
  }

  /** A copy is only ever replaced by one from another source after its own cleanup was acknowledged: at some point it
      was acknowledged, a listing of a different incarnation arrived, and it was removed. */
  lemma {:induction false} ReplacedAfterCleanup(start: Local, events: seq<Event>, location: string)
    requires Run(Some(start), events, location).None? || Run(Some(start), events, location).value.sourceUid != start.sourceUid
    ensures exists k :: 0 <= k < |events| && Relinquished(start, events, location, k)
  {
    if events != [] {
      var front := events[..|events| - 1];
      var before := Run(Some(start), front, location);
      if before.None? || before.value.sourceUid != start.sourceUid {
        ReplacedAfterCleanup(start, front, location);
        var k :| 0 <= k < |front| && Relinquished(start, front, location, k);
        assert front[..k] == events[..k] && front[k] == events[k];
        assert Relinquished(start, events, location, k);
      } else {
        assert events[..|front|] == front;
        assert Relinquished(start, events, location, |front|);
      }
    }
  }

  ghost predicate Relinquished(start: Local, events: seq<Event>, location: string, k: int)
    requires 0 <= k < |events|
  {
    var before := Run(Some(start), events[..k], location);
    && before.Some? && before.value.sourceUid == start.sourceUid && Acknowledged(before.value)
    && events[k].Deliver? && events[k].remote.uid != start.sourceUid
    && Next(before, events[k], location).None?
  }

  /** A listing that cannot move a copy: of another location, malformed, or of the copy's own incarnation and no newer. */
  predicate Spent(e: Event, l: Local, location: string) {
    e.Deliver? ==>
      || e.remote.spec.content.location != location || !WellFormed(e.remote, location)
      || (e.remote.uid == l.sourceUid && (l.sourceGeneration.Some? ==> e.remote.generation <= l.sourceGeneration.value))
  }

  /** Replaying spent listings, any number of times and in any order, never moves the accepted snapshot. */
  lemma {:induction false} ReplaysChangeNothing(start: Local, events: seq<Event>, location: string)
    requires forall k :: 0 <= k < |events| ==> Spent(events[k], start, location)
    ensures var l := Run(Some(start), events, location);
      l.Some? && l.value.sourceUid == start.sourceUid && l.value.sourceGeneration == start.sourceGeneration && l.value.spec == start.spec
  {
    if events != [] {
      ReplaysChangeNothing(start, events[..|events| - 1], location);
    }
  }

  // ---- One incarnation across removals ----

  /** The last copy of one source a run has seen. */
  function LastCopy(start: Option<Local>, events: seq<Event>, location: string, uid: string): (l: Option<Local>) {
    var now := Run(start, events, location);
    if now.Some? && now.value.sourceUid == uid then now
    else if events == [] then None
    else LastCopy(start, events[..|events| - 1], location, uid)
  }

  /** A later copy of the same source is no step back: no older generation, no other content under one generation, and no
      deletion undone. */
  predicate Forward(a: Local, b: Local) {
    && (a.sourceGeneration.Some? ==> b.sourceGeneration.Some? && a.sourceGeneration.value <= b.sourceGeneration.value)
    && (a.sourceGeneration == b.sourceGeneration ==> b.spec == a.spec)
    && (a.spec.content.deleting ==> b.spec.content.deleting)
  }

  function Made(remote: Authority): (l: Local) {
    Local(remote.uid, Some(remote.generation), remote.spec, BlankStatus())
  }

  /** A listing behind an accepted snapshot: older, of another content under the same generation, or not deleting after
      deletion was accepted. */
  predicate Behind(remote: Authority, l: Local) {
    || (l.sourceGeneration.Some? && remote.generation < l.sourceGeneration.value)
    || (l.sourceGeneration == Some(remote.generation) && remote.spec != l.spec)
    || (l.spec.content.deleting && !remote.spec.content.deleting)
  }

  /** A listing of the source, behind its last accepted snapshot, that is stored while the copy is absent. */
  ghost predicate Resurrects(start: Option<Local>, events: seq<Event>, location: string, uid: string, k: int)
    requires 0 <= k < |events|
  {
    var e, last := events[k], LastCopy(start, events[..k], location, uid);
    && e.Deliver? && e.stored && e.remote.uid == uid && e.remote.spec.content.location == location && WellFormed(e.remote, location)
    && Run(start, events[..k], location).None? && last.Some? && Behind(e.remote, last.value)
  }

  /** Two copies of the source in the order the run has them. */
  ghost predicate Ordered(start: Option<Local>, events: seq<Event>, location: string, uid: string, j: int, k: int)
    requires 0 <= j <= k <= |events|
  {
    var a, b := Run(start, events[..j], location), Run(start, events[..k], location);
    a.Some? && b.Some? && a.value.sourceUid == uid && b.value.sourceUid == uid ==> Forward(a.value, b.value)
  }

  /** One step: a copy of the source stays, goes, comes back as a listing made it, or moves forward. */
  lemma StepForward(local: Option<Local>, e: Event, location: string, uid: string)
    requires var t := Next(local, e, location); t.Some? && t.value.sourceUid == uid
    ensures var t := Next(local, e, location).value;
      || (local.Some? && local.value.sourceUid == uid && Forward(local.value, t))
      || (local.None? && e.Deliver? && e.stored && e.remote.uid == uid && e.remote.spec.content.location == location
          && WellFormed(e.remote, location) && t == Made(e.remote))
  {
  }

  lemma ForwardTransitive(a: Local, b: Local, c: Local)
    requires Forward(a, b) && Forward(b, c)
    ensures Forward(a, c)
  {
  }

  lemma RunPrefix(start: Option<Local>, events: seq<Event>, location: string, k: int)
    requires 0 <= k < |events|
    ensures Run(start, events[..k + 1], location) == Next(Run(start, events[..k], location), events[k], location)
  {
    assert events[..k + 1][..k] == events[..k];
  }

  /** The last copy of a prefix is a copy the prefix has. */
  lemma {:induction false} LastCopyAt(start: Option<Local>, events: seq<Event>, location: string, uid: string, k: int) returns (j: int)
    requires 0 <= k <= |events| && LastCopy(start, events[..k], location, uid).Some?
    ensures 0 <= j <= k && Run(start, events[..j], location) == LastCopy(start, events[..k], location, uid)
    ensures LastCopy(start, events[..k], location, uid).value.sourceUid == uid
    decreases k
  {
    var now := Run(start, events[..k], location);
    if now.Some? && now.value.sourceUid == uid {
      j := k;
    } else {
      assert events[..k][..k - 1] == events[..k - 1];
      j := LastCopyAt(start, events, location, uid, k - 1);
    }
  }

  /** Without a resurrecting listing, every copy of the source is behind the last one. */
  lemma {:induction false} BehindLast(start: Option<Local>, events: seq<Event>, location: string, uid: string, j: int, k: int)
    requires 0 <= j <= k <= |events| && forall i :: 0 <= i < |events| ==> !Resurrects(start, events, location, uid, i)
    requires Run(start, events[..j], location).Some? && Run(start, events[..j], location).value.sourceUid == uid
    ensures LastCopy(start, events[..k], location, uid).Some?
    ensures Forward(Run(start, events[..j], location).value, LastCopy(start, events[..k], location, uid).value)
    decreases k
  {
    if j < k {
      BehindLast(start, events, location, uid, j, k - 1);
      assert events[..k][..k - 1] == events[..k - 1];
      RunPrefix(start, events, location, k - 1);
      var a, last, now := Run(start, events[..j], location).value, LastCopy(start, events[..k - 1], location, uid).value, Run(start, events[..k], location);
      if now.Some? && now.value.sourceUid == uid {
        StepForward(Run(start, events[..k - 1], location), events[k - 1], location, uid);
        assert !Resurrects(start, events, location, uid, k - 1);
        hide Forward;
        ForwardTransitive(a, last, now.value);
      }
    }
  }

  lemma ResurrectionStepsBack(start: Option<Local>, events: seq<Event>, location: string, uid: string, i: int) returns (j: int)
    requires 0 <= i < |events| && Resurrects(start, events, location, uid, i)
    ensures 0 <= j <= i && !Ordered(start, events, location, uid, j, i + 1)
  {
    j := LastCopyAt(start, events, location, uid, i);
    RunPrefix(start, events, location, i);
  }

  /** Removals included: a source's accepted generations never fall, one generation keeps one content, and its deletion is
      never undone, exactly in the runs that store no listing of that source behind its last accepted snapshot while the
      copy is absent. */
  lemma NeverStepsBackIff(start: Option<Local>, events: seq<Event>, location: string, uid: string)
    ensures (forall j, k :: 0 <= j <= k <= |events| ==> Ordered(start, events, location, uid, j, k)) <==>
            (forall i :: 0 <= i < |events| ==> !Resurrects(start, events, location, uid, i))
  {
    if forall j, k :: 0 <= j <= k <= |events| ==> Ordered(start, events, location, uid, j, k) {
      forall i | 0 <= i < |events| ensures !Resurrects(start, events, location, uid, i) {
        if Resurrects(start, events, location, uid, i) {
          var _ := ResurrectionStepsBack(start, events, location, uid, i);
        }
      }
    }
    if forall i :: 0 <= i < |events| ==> !Resurrects(start, events, location, uid, i) {
      forall j, k | 0 <= j <= k <= |events| ensures Ordered(start, events, location, uid, j, k) {
        var a, b := Run(start, events[..j], location), Run(start, events[..k], location);
        if a.Some? && b.Some? && a.value.sourceUid == uid && b.value.sourceUid == uid {
          BehindLast(start, events, location, uid, j, k);
          assert LastCopy(start, events[..k], location, uid) == b;
        }
      }
    }
  }

  // ---- What a returned status means ----

  /** A returned status observed at the authority's generation says its content, but for gateway readiness, is what the
      location has applied; any other returned status claims nothing about this generation. */
  lemma ObservedMeansApplied(local: Local, remote: Authority, location: string, applied: Content)
    requires remote.generation > 0 && WellFormed(remote, location) && local.status.applied == RevisionOf(applied)
    ensures Reported(local.status, remote).observed == remote.generation <==>
            applied.(peers := UnreadyAll(applied.peers)) == remote.spec.content.(peers := UnreadyAll(remote.spec.content.peers))
    ensures Reported(local.status, remote).observed in {0, remote.generation}
    ensures Reported(local.status, remote).resources == local.status.resources
  {
  }

  // ---- A run that steps back ----

  function Tombstone(): (c: Content) {
    Content("v", "vpc", "project", "here", "default", "wireguard-bgp", [], [], [], [], true)
  }

  function Living(): (c: Content) {
    Tombstone().(deleting := false)
  }

  /** A copy whose cleanup is acknowledged, accepted from incarnation "one" at generation 2. */
  function Cleaned(): (l: Local) {
    Local("one", Some(2), Sealed(Tombstone()), BlankStatus().(phase := "Deleted", applied := RevisionOf(Tombstone())))
  }

  function ListingOf(uid: string, generation: int): (r: Authority) {
    Authority(BindingName("v", "here"), uid, generation, Sealed(Living()), BlankStatus())
  }

  /** The next incarnation is listed, which removes the copy, and then an old listing of the first one. */
  const STALE := [Deliver(ListingOf("two", 1), true), Deliver(ListingOf("one", 1), true)]

  /** Creation is not fenced by generation: after its acknowledged cleanup at generation 2 the first incarnation is back at
      generation 1, and no longer deleting. */
  lemma StaleListingRecreates()
    ensures Acknowledged(Cleaned()) && Cleaned().spec.content.deleting
    ensures Run(Some(Cleaned()), STALE, "here") == Some(Local("one", Some(1), Sealed(Living()), BlankStatus()))
    ensures !Forward(Cleaned(), Run(Some(Cleaned()), STALE, "here").value)
    ensures Resurrects(Some(Cleaned()), STALE, "here", "one", 1)
  {
    var start := Some(Cleaned());
    assert STALE[..1] == [STALE[0]] && STALE[..1][..0] == [] && STALE[..2] == STALE;
    assert Run(start, [], "here") == start;
    assert Run(start, STALE[..1], "here") == Next(start, STALE[0], "here") == None;
    assert LastCopy(start, [], "here", "one") == start;
    assert LastCopy(start, STALE[..1], "here", "one") == start;
  }
}
