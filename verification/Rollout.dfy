/** The rolling replacement of a location's gateway Pods (internal/managedgateway/reconciler.go). */
module Rollout {
  import opened Wrappers

  /** One gateway Pod: its generation, the hash of its configuration, whether it is being deleted, and its condition. */
  datatype Pod = Pod(uid: nat, hash: string, terminating: bool, ready: bool)

  type Fleet = seq<Option<Pod>>

  datatype Reason = Completed | BlockedBySibling | AwaitingRecovery | AwaitingConvergence | Rolling

  predicate Serving(p: Option<Pod>) {
    p.Some? && !p.value.terminating && p.value.ready
  }

  predicate Present(p: Option<Pod>) {
    p.Some? && !p.value.terminating
  }

  predicate Stale(p: Option<Pod>, desired: string) {
    Present(p) && p.value.hash != desired
  }

  function Fresh(uid: nat, hash: string): (p: Option<Pod>) {
    Some(Pod(uid, hash, false, false))
  }

  function Marked(p: Option<Pod>): (q: Option<Pod>) {
    if p.Some? then Some(p.value.(terminating := true, ready := false)) else None
  }

  // ---- One pass ----

  /** The members read first to last, up to the first stale one. */
  function FirstStale(pods: Fleet, desired: seq<string>): (i: nat)
    requires |desired| == |pods|
    ensures i <= |pods| && (forall j :: 0 <= j < i ==> !Stale(pods[j], desired[j])) && (i < |pods| ==> Stale(pods[i], desired[i]))
  {
    if pods == [] || Stale(pods[0], desired[0]) then 0 else 1 + FirstStale(pods[1..], desired[1..])
  }

  /** Everyone else was read present, not terminating and Ready. */
  ghost predicate OthersServe(pods: Fleet, i: int) {
    forall j :: 0 <= j < |pods| && j != i ==> Serving(pods[j])
  }

  ghost predicate OthersHealthy(healthy: seq<bool>, i: int) {
    forall j :: 0 <= j < |healthy| && j != i ==> healthy[j]
  }

  ghost predicate SomeServes(pods: Fleet, i: int) {
    exists j :: 0 <= j < |pods| && j != i && Serving(pods[j])
  }

  /** Why the pass ends: what is read of the siblings of the first stale member. */
  ghost function PassReason(pods: Fleet, desired: seq<string>, healthy: seq<bool>): (r: Reason)
    requires |desired| == |pods|
  {
    var i := FirstStale(pods, desired);
    if i == |pods| then Completed
    else if !SomeServes(pods, i) then BlockedBySibling
    else if !OthersServe(pods, i) then AwaitingRecovery
    else if !OthersHealthy(healthy, i) then AwaitingConvergence
    else Rolling
  }

  /** What the pass leaves: missing members before the first stale one are created, and that one is retired when its
      siblings allow it. */
  ghost function PassFleet(pods: Fleet, desired: seq<string>, healthy: seq<bool>, next: nat): (after: Fleet)
    requires |desired| == |pods|
    ensures |after| == |pods|
  {
    var i := FirstStale(pods, desired);
    seq(|pods|, j requires 0 <= j < |pods| =>
      if j < i && pods[j].None? then Fresh(next + j, desired[j])
      else if j == i && PassReason(pods, desired, healthy).Rolling? then Marked(pods[j])
      else pods[j])
  }

  method SiblingServes(pods: Fleet, i: nat) returns (any: bool, all: bool)
    requires i < |pods|
    ensures any <==> SomeServes(pods, i)
    ensures all <==> OthersServe(pods, i)
  {
    any, all := false, true;
    for j := 0 to |pods|
      invariant any <==> exists k :: 0 <= k < j && k != i && Serving(pods[k])
      invariant all <==> forall k :: 0 <= k < j && k != i ==> Serving(pods[k])
    {
      if j != i {
        any := any || Serving(pods[j]);
        all := all && Serving(pods[j]);
      }
    }
  }

  method ProbeSiblings(healthy: seq<bool>, i: nat) returns (all: bool)
    requires i < |healthy|
    ensures all <==> OthersHealthy(healthy, i)
  {
    for j := 0 to |healthy|
      invariant forall k :: 0 <= k < j && k != i ==> healthy[k]
    {
      if j != i && !healthy[j] {
        return false;
      }
    }
    return true;
  }

  lemma FirstStaleIs(pods: Fleet, desired: seq<string>, i: nat)
    requires |desired| == |pods| && i <= |pods|
    requires forall j :: 0 <= j < i ==> !Stale(pods[j], desired[j])
    requires i < |pods| ==> Stale(pods[i], desired[i])
    ensures FirstStale(pods, desired) == i
  {
    var f := FirstStale(pods, desired);
    assert !(f < i) && !(i < f);
  }

  /** The rollout loop over the Pods just read; at most one old generation is retired per pass. */
  method RolloutPass(pods: Fleet, desired: seq<string>, healthy: seq<bool>, next: nat) returns (after: Fleet, reason: Reason)
    requires |desired| == |pods| && |healthy| == |pods|
    ensures after == PassFleet(pods, desired, healthy, next)
    ensures reason == PassReason(pods, desired, healthy)
  {
    hide SomeServes, OthersServe, OthersHealthy, FirstStale;
    after := pods;
    for i := 0 to |pods|
      invariant |after| == |pods| && forall j :: 0 <= j < i ==> !Stale(pods[j], desired[j])
      invariant forall j :: 0 <= j < |pods| ==> after[j] == if j < i && pods[j].None? then Fresh(next + j, desired[j]) else pods[j]
    {
      if pods[i].None? {
        after := after[i := Fresh(next + i, desired[i])];
        continue;
      }
      if pods[i].value.terminating || pods[i].value.hash == desired[i] {
        continue;
      }
      FirstStaleIs(pods, desired, i);
      var any, all := SiblingServes(pods, i);
      if !any {
        return after, BlockedBySibling;
      }
      if !all {
        return after, AwaitingRecovery;
      }
      var converged := ProbeSiblings(healthy, i);
      if !converged {
        return after, AwaitingConvergence;
      }
      after := after[i := Marked(pods[i])];
      return after, Rolling;
    }
    FirstStaleIs(pods, desired, |pods|);
    return after, Completed;
  }

  /** An old Pod that is not on its way out already. */
  predicate Old(p: Option<Pod>, desired: string) {
    p.Some? && !p.value.terminating && p.value.hash != desired
  }

  predicate Up(p: Option<Pod>) {
    p.Some? && !p.value.terminating && p.value.ready
  }

  /** The pass in the Pods themselves: with no old one it completes; at the first old one it stops, for want of any sibling that
      is up, of all of them, or of their health, and otherwise takes that one out. Before it, missing Pods are made anew; every
      other member is left alone. */
  lemma PassMeans(pods: Fleet, desired: seq<string>, healthy: seq<bool>, next: nat, i: nat)
    requires |desired| == |pods| && i <= |pods|
    requires (forall j :: 0 <= j < i ==> !Old(pods[j], desired[j])) && (i < |pods| ==> Old(pods[i], desired[i]))
    ensures var some := exists j :: 0 <= j < |pods| && j != i && Up(pods[j]); var all := forall j :: 0 <= j < |pods| && j != i ==> Up(pods[j]);
      var well := forall j :: 0 <= j < |healthy| && j != i ==> healthy[j];
      && (PassReason(pods, desired, healthy) == if i == |pods| then Completed
                                                else if !some then BlockedBySibling
                                                else if !all then AwaitingRecovery
                                                else if !well then AwaitingConvergence else Rolling)
      && forall j :: 0 <= j < |pods| ==>
           PassFleet(pods, desired, healthy, next)[j] ==
           if j < i && pods[j].None? then Some(Pod(next + j, desired[j], false, false))
           else if j == i && some && all && well then Some(Pod(pods[j].value.uid, pods[j].value.hash, true, false)) else pods[j]
  {
    FirstStaleIs(pods, desired, i);
    if i < |pods| {
      forall j | 0 <= j < |pods| ensures Up(pods[j]) <==> Serving(pods[j]) {
      }
      if SomeServes(pods, i) {
        var j :| 0 <= j < |pods| && j != i && Serving(pods[j]);
        assert Up(pods[j]);
      }
      if j :| 0 <= j < |pods| && j != i && Up(pods[j]) {
        assert Serving(pods[j]);
      }
    }
  }

  /** The environment's steps: a terminating Pod goes, any other may become Ready; nothing else moves. */
  lemma EnvironmentMeans(pods: Fleet, desired: seq<string>, i: nat, j: int)
    requires |desired| == |pods| && 0 <= j < |pods|
    ensures Next(pods, desired, Gone(i))[j] == if j == i && pods[j].Some? && pods[j].value.terminating then None else pods[j]
    ensures Next(pods, desired, Ready(i))[j] ==
            if j == i && pods[j].Some? && !pods[j].value.terminating then Some(Pod(pods[j].value.uid, pods[j].value.hash, false, true)) else pods[j]
  {
  }

  // ---- Safety ----

  /** A pass takes at most one member out, and only when every other member was read serving and probed healthy. */
  lemma OneDownByChoice(pods: Fleet, desired: seq<string>, healthy: seq<bool>, next: nat, i: int)
    requires |desired| == |pods|
    requires 0 <= i < |pods| && pods[i].Some? && PassFleet(pods, desired, healthy, next)[i] != pods[i]
    ensures var after := PassFleet(pods, desired, healthy, next);
      && OthersServe(pods, i) && OthersHealthy(healthy, i) && Stale(pods[i], desired[i]) && after[i] == Marked(pods[i])
      && forall j :: 0 <= j < |pods| && j != i ==> after[j] == pods[j]
  {
  }

  // ---- Runs ----

  /** What a well-behaved environment does, completing a termination or making a Pod Ready, and passes. */
  datatype Event = Gone(i: nat) | Ready(i: nat) | Pass(healthy: seq<bool>, next: nat)

  /** One event; one that does not apply changes nothing. */
  ghost function Next(pods: Fleet, desired: seq<string>, e: Event): (after: Fleet)
    requires |desired| == |pods|
    ensures |after| == |pods|
  {
    match e
    case Gone(i) => if i < |pods| && pods[i].Some? && pods[i].value.terminating then pods[i := None] else pods
    case Ready(i) => if i < |pods| && Present(pods[i]) then pods[i := Some(pods[i].value.(ready := true))] else pods
    case Pass(healthy, next) => PassFleet(pods, desired, healthy, next)
  }

  ghost function Run(pods: Fleet, desired: seq<string>, events: seq<Event>): (after: Fleet)
    requires |desired| == |pods|
    ensures |after| == |pods|
    decreases |events|
  {
    if events == [] then pods else Run(Next(pods, desired, events[0]), desired, events[1..])
  }

  /** At most one member is not serving. */
  ghost predicate OneDown(pods: Fleet) {
    exists i :: OthersServe(pods, i)
  }

  lemma NextOneDown(pods: Fleet, desired: seq<string>, e: Event)
    requires |desired| == |pods| && OneDown(pods)
    ensures OneDown(Next(pods, desired, e))
  {
    var after := Next(pods, desired, e);
    var i :| OthersServe(pods, i);
    if e.Pass? && PassReason(pods, desired, e.healthy).Rolling? {
      assert OthersServe(after, FirstStale(pods, desired));
    } else {
      assert OthersServe(after, i);
    }
  }

  /** From a fleet with at most one member down, no run ever takes a second one down. */
  lemma {:induction false} AtMostOneDown(pods: Fleet, desired: seq<string>, events: seq<Event>)
    requires |desired| == |pods| && OneDown(pods)
    ensures OneDown(Run(pods, desired, events))
    decreases |events|
  {
    if events != [] {
      NextOneDown(pods, desired, events[0]);
      AtMostOneDown(Next(pods, desired, events[0]), desired, events[1..]);
    }
  }

  // ---- Progress ----

  /** How far one member is from serving its desired configuration. */
  function Distance(p: Option<Pod>, desired: string): (d: nat) {
    if p.None? then 2
    else if p.value.terminating then 3
    else if p.value.hash != desired then (if p.value.ready then 4 else 5)
    else if p.value.ready then 0 else 1
  }

  function Remaining(pods: Fleet, desired: seq<string>): (d: nat)
    requires |desired| == |pods|
    decreases |pods|
  {
    if pods == [] then 0 else Distance(pods[0], desired[0]) + Remaining(pods[1..], desired[1..])
  }

  lemma {:induction false} RemainingPointwise(pods: Fleet, after: Fleet, desired: seq<string>)
    requires |desired| == |pods| == |after|
    requires forall j :: 0 <= j < |pods| ==> after[j] == pods[j] || Distance(after[j], desired[j]) < Distance(pods[j], desired[j])
    ensures Remaining(after, desired) <= Remaining(pods, desired)
    ensures after != pods ==> Remaining(after, desired) < Remaining(pods, desired)
    decreases |pods|
  {
    if pods != [] {
      RemainingPointwise(pods[1..], after[1..], desired[1..]);
      if after[1..] == pods[1..] && after[0] == pods[0] {
        assert after == [after[0]] + after[1..] && pods == [pods[0]] + pods[1..];
      }
    }
  }

  /** Nothing remaining means every member serves its desired configuration. */
  lemma {:induction false} NothingRemains(pods: Fleet, desired: seq<string>)
    requires |desired| == |pods|
    ensures Remaining(pods, desired) == 0 <==> forall j :: 0 <= j < |pods| ==> Serving(pods[j]) && pods[j].value.hash == desired[j]
    decreases |pods|
  {
    if pods != [] {
      NothingRemains(pods[1..], desired[1..]);
      assert forall j :: 0 < j < |pods| ==> pods[1..][j - 1] == pods[j] && desired[1..][j - 1] == desired[j];
    }
  }

  /** Whatever happens, a change brings the fleet closer. */
  lemma NextCloser(pods: Fleet, desired: seq<string>, e: Event)
    requires |desired| == |pods|
    ensures Remaining(Next(pods, desired, e), desired) <= Remaining(pods, desired)
    ensures Next(pods, desired, e) != pods ==> Remaining(Next(pods, desired, e), desired) < Remaining(pods, desired)
  {
    var after := Next(pods, desired, e);
    forall j | 0 <= j < |pods| ensures after[j] == pods[j] || Distance(after[j], desired[j]) < Distance(pods[j], desired[j]) {
    }
    RemainingPointwise(pods, after, desired);
  }

  /** How many events of a run change anything. */
  ghost function Changes(pods: Fleet, desired: seq<string>, events: seq<Event>): (n: nat)
    requires |desired| == |pods|
    decreases |events|
  {
    if events == [] then 0
    else (if Next(pods, desired, events[0]) != pods then 1 else 0) + Changes(Next(pods, desired, events[0]), desired, events[1..])
  }

  /** No run changes anything more often than the distance it starts with. */
  lemma {:induction false} ChangesAreBounded(pods: Fleet, desired: seq<string>, events: seq<Event>)
    requires |desired| == |pods|
    ensures Remaining(Run(pods, desired, events), desired) + Changes(pods, desired, events) <= Remaining(pods, desired)
    decreases |events|
  {
    if events != [] {
      NextCloser(pods, desired, events[0]);
      ChangesAreBounded(Next(pods, desired, events[0]), desired, events[1..]);
    }
  }

  // ---- When a rollout completes ----

  /** No member is missing or being deleted behind a stale one. */
  ghost predicate Recoverable(pods: Fleet, desired: seq<string>)
    requires |desired| == |pods|
  {
    forall i, j :: 0 <= i < j < |pods| && Stale(pods[i], desired[i]) ==> Present(pods[j])
  }

  /** No event makes a recoverable fleet unrecoverable, or the other way round. */
  lemma NextRecoverable(pods: Fleet, desired: seq<string>, e: Event)
    requires |desired| == |pods|
    ensures Recoverable(Next(pods, desired, e), desired) <==> Recoverable(pods, desired)
  {
    var after := Next(pods, desired, e);
    forall j | 0 <= j < |pods| && Stale(after[j], desired[j]) ensures Stale(pods[j], desired[j]) {
    }
    if !Recoverable(pods, desired) {
      var i, j :| 0 <= i < j < |pods| && Stale(pods[i], desired[i]) && !Present(pods[j]);
      if e.Pass? {
        assert FirstStale(pods, desired) <= i && !Serving(pods[j]);
        assert !OthersServe(pods, FirstStale(pods, desired));
      }
      assert Stale(after[i], desired[i]) && !Present(after[j]);
    } else {
      forall i, j | 0 <= i < j < |pods| && Stale(after[i], desired[i]) ensures Present(after[j]) {
        assert Stale(pods[i], desired[i]) && Present(pods[j]);
        if e.Pass? {
          assert FirstStale(pods, desired) <= i;
        }
      }
    }
  }

  /** Until a recoverable fleet is done, some event changes it: the environment's next step, or a pass that finds the
      siblings healthy. */
  lemma NeverStuck(pods: Fleet, desired: seq<string>) returns (e: Event)
    requires |desired| == |pods| > 1 && Recoverable(pods, desired) && Remaining(pods, desired) > 0
    ensures Next(pods, desired, e) != pods
    ensures e.Pass? ==> e.healthy == seq(|pods|, _ => true)
  {
    NothingRemains(pods, desired);
    if t :| 0 <= t < |pods| && pods[t].Some? && pods[t].value.terminating {
      e := Gone(t);
      assert Next(pods, desired, e)[t].None?;
    } else if t :| 0 <= t < |pods| && Present(pods[t]) && !pods[t].value.ready {
      e := Ready(t);
      assert Next(pods, desired, e)[t].value.ready;
    } else {
      e := Pass(seq(|pods|, _ => true), 0);
      PassActs(pods, desired, e.healthy, e.next);
    }
  }

  lemma PassActs(pods: Fleet, desired: seq<string>, healthy: seq<bool>, next: nat)
    requires |desired| == |pods| > 1 && Recoverable(pods, desired) && (forall j :: 0 <= j < |healthy| ==> healthy[j])
    requires forall j :: 0 <= j < |pods| ==> pods[j].None? || Serving(pods[j])
    requires exists j :: 0 <= j < |pods| && !(Serving(pods[j]) && pods[j].value.hash == desired[j])
    ensures PassFleet(pods, desired, healthy, next) != pods
  {
    var after := PassFleet(pods, desired, healthy, next);
    var i := FirstStale(pods, desired);
    if t :| 0 <= t < |pods| && pods[t].None? {
      assert !(i < t);
      assert after[t].Some?;
    } else {
      assert i < |pods| && SomeServes(pods, i) by { assert Serving(pods[if i == 0 then 1 else 0]); }
      assert OthersServe(pods, i) && OthersHealthy(healthy, i);
      assert after[i] == Marked(pods[i]);
    }
  }

  lemma Completing(pods: Fleet, desired: seq<string>) returns (events: seq<Event>)
    requires |desired| == |pods| > 1 && Recoverable(pods, desired)
    ensures Remaining(Run(pods, desired, events), desired) == 0
    decreases Remaining(pods, desired)
  {
    if Remaining(pods, desired) == 0 {
      events := [];
    } else {
      var e := NeverStuck(pods, desired);
      NextCloser(pods, desired, e);
      NextRecoverable(pods, desired, e);
      var rest := Completing(Next(pods, desired, e), desired);
      events := [e] + rest;
      assert events[1..] == rest;
    }
  }

  lemma {:induction false} RunRecoverable(pods: Fleet, desired: seq<string>, events: seq<Event>)
    requires |desired| == |pods|
    ensures Recoverable(Run(pods, desired, events), desired) <==> Recoverable(pods, desired)
    decreases |events|
  {
    if events != [] {
      NextRecoverable(pods, desired, events[0]);
      RunRecoverable(Next(pods, desired, events[0]), desired, events[1..]);
    }
  }

  /** With the desired configuration fixed, a rollout of two or more members can complete exactly when no Pod is missing or
      being deleted behind a stale one; in particular whenever all Pods are present. Otherwise no run ever completes. */
  lemma RolloutCompletes(pods: Fleet, desired: seq<string>)
    requires |desired| == |pods| > 1
    ensures (exists events :: Remaining(Run(pods, desired, events), desired) == 0) <==> Recoverable(pods, desired)
    ensures (forall p :: p in pods ==> Present(p)) ==> Recoverable(pods, desired)
  {
    if Recoverable(pods, desired) {
      var events := Completing(pods, desired);
      assert Remaining(Run(pods, desired, events), desired) == 0;
    }
    forall events | Remaining(Run(pods, desired, events), desired) == 0 ensures Recoverable(pods, desired) {
      NothingRemains(Run(pods, desired, events), desired);
      RunRecoverable(pods, desired, events);
    }
  }
}
