/** The domain lock that pauses native interconnection while one VPC changes the topology
    (internal/controller/domain.go, internal/controller/reconciler.go, internal/ovn/exec.go). */
module TopologyLock {
  import opened Wrappers

  /** An interconnection Deployment: its replicas, whether every controller has observed them, whether a process may be
      running, and whether its identity and labels show it is this domain's own. */
  datatype Deployment = Deployment(replicas: int, settled: bool, live: bool, dedicated: bool)

  datatype Lock = Lock(holder: string, hash: string)

  datatype Row = Row(uuid: nat, owner: string)

  /** What a VPC's status records. */
  datatype Vpc = Vpc(hash: string, operation: string, transit: Option<nat>)

  predicate Stopped(d: Deployment) {
    d.replicas == 0 && d.settled && !d.live
  }

  predicate Running(d: Deployment) {
    d.replicas == 1 && d.settled && d.live
  }

  /** Only a dedicated Deployment with zero or one replica may be scaled. */
  predicate Scalable(d: Deployment) {
    d.dedicated && 0 <= d.replicas <= 1
  }

  ghost predicate AllStopped(deployments: map<string, Deployment>) {
    forall c :: c in deployments ==> Stopped(deployments[c])
  }

  function Scaled(d: Deployment, wanted: int): (e: Deployment) {
    if d.replicas == wanted then d else d.(replicas := wanted, settled := false)
  }

  /** A deployment has been observed in the wanted state. */
  predicate There(d: Deployment, paused: bool) {
    if paused then Stopped(d) else Running(d)
  }

  /** All but the targets still to do have been scaled. */
  ghost predicate Reached(before: map<string, Deployment>, after: map<string, Deployment>, todo: set<string>, paused: bool) {
    && after.Keys == before.Keys
    && forall c :: c in after ==> after[c] == if c in todo then before[c] else Scaled(before[c], if paused then 0 else 1)
  }

  ghost predicate ThereOutside(before: map<string, Deployment>, todo: set<string>, paused: bool) {
    forall c :: c in before && c !in todo ==> There(before[c], paused)
  }

  lemma StaysThere(before: map<string, Deployment>, after: map<string, Deployment>, paused: bool)
    requires Reached(before, after, {}, paused) && ThereOutside(before, {}, paused)
    ensures after == before
  {
    forall c | c in before ensures after[c] == before[c] {
      assert There(before[c], paused);
    }
  }

  lemma NoneOutside(before: map<string, Deployment>, paused: bool)
    ensures ThereOutside(before, before.Keys, paused) && Reached(before, before, before.Keys, paused)
  {
  }

  lemma OneOutside(before: map<string, Deployment>, todo: set<string>, c: string, paused: bool)
    requires c in todo && todo <= before.Keys
    ensures ThereOutside(before, todo - {c}, paused) <==> ThereOutside(before, todo, paused) && There(before[c], paused)
  {
  }

  // ---- The gate ----

  /** The durable lock and the deployments of every registered cluster. */
  class DomainGate {
    var lock: Option<Lock>
    var deployments: map<string, Deployment>

    method Acquire(uid: string, hash: string) returns (held: Result<bool, string>)
      requires uid != ""
      modifies this
      ensures deployments == old(deployments)
      ensures held == Ok(true) ==> lock == Some(Lock(uid, hash))
      ensures held != Ok(true) ==> lock == old(lock)
      ensures held == Ok(true) <==> old(lock).None? || old(lock).value.holder == "" || old(lock).value == Lock(uid, hash)
      ensures held.Err? <==> old(lock).Some? && old(lock).value.holder == uid && old(lock).value.hash != hash
    {
      if lock.None? {
        lock := Some(Lock(uid, hash));
        return Ok(true);
      }
      if lock.value.holder != "" && lock.value.holder != uid {
        return Ok(false);
      }
      if lock.value.holder == uid {
        if lock.value.hash != hash {
          return Err("locked domain configuration changed");
        }
        return Ok(true);
      }
      lock := Some(Lock(uid, hash));
      return Ok(true);
    }

    /** Every registered target is checked before any of them is changed. */
    method CheckTargets() returns (valid: bool)
      ensures valid <==> forall c :: c in deployments ==> Scalable(deployments[c])
    {
      var todo := deployments.Keys;
      while todo != {}
        invariant todo <= deployments.Keys
        invariant forall c :: c in deployments && c !in todo ==> Scalable(deployments[c])
      {
        var c :| c in todo;
        todo := todo - {c};
        if !Scalable(deployments[c]) {
          return false;
        }
      }
      return true;
    }

    /** Asks for the wanted state of one deployment, and tells whether it has been observed there; None when a request fails. */
    method ScaleOne(c: string, paused: bool, requests: nat) returns (there: Option<bool>, left: nat)
      requires c in deployments
      modifies this
      ensures lock == old(lock)
      ensures var d := old(deployments)[c]; var scaled := old(deployments)[c := Scaled(d, if paused then 0 else 1)];
        && (deployments == old(deployments) || deployments == scaled)
        && (there.Some? ==> deployments == scaled && (there.value <==> There(d, paused)))
      ensures requests >= 2 ==> there.Some? && left >= requests - 2
    {
      var wanted, d, same := if paused then 0 else 1, deployments[c], true;
      left := requests;
      assert deployments == deployments[c := d];
      if d.replicas != wanted {
        if left == 0 {
          return None, left;
        }
        left := left - 1;
        deployments := deployments[c := d.(replicas := wanted, settled := false)];
        same := false;
      }
      if paused {
        if left == 0 {
          return None, left;
        }
        left := left - 1;
        if !d.settled || d.live {
          same := false;
        }
      } else if !d.settled || !d.live {
        same := false;
      }
      return Some(same), left;
    }

    /** Scales every deployment to the wanted state; true only when all of them have been observed there. The API server
        answers so many of its updates and queries before one fails. */
    method SetPaused(uid: string, paused: bool, requests: nat) returns (all: Result<bool, string>)
      modifies this
      ensures lock == old(lock) && deployments.Keys == old(deployments).Keys
      ensures var allowed := old(lock).Some? && old(lock).value.holder == uid && forall c :: c in old(deployments) ==> Scalable(old(deployments)[c]);
        && (!allowed ==> all.Err? && deployments == old(deployments))
        && (allowed && requests >= 2 * |old(deployments)| ==> all.Ok?)
      ensures forall c :: c in deployments ==>
                deployments[c] == old(deployments)[c] || deployments[c] == Scaled(old(deployments)[c], if paused then 0 else 1)
      ensures all == Ok(true) ==> deployments == old(deployments)
      ensures all == Ok(true) <==> all.Ok? && ThereOutside(old(deployments), {}, paused)
      ensures all.Ok? ==> Reached(old(deployments), deployments, {}, paused)
    {
      hide There, Scaled, ThereOutside;
      if lock.None? || lock.value.holder != uid {
        return Err("domain topology lock not held");
      }
      var valid := CheckTargets();
      if !valid {
        return Err("native IC Deployment may not be scaled");
      }
      var every, left: nat := true, requests;
      var todo := deployments.Keys;
      ghost var before := deployments;
      NoneOutside(before, paused);
      while todo != {}
        invariant todo <= before.Keys && lock == old(lock)
        invariant Reached(before, deployments, todo, paused)
        invariant every <==> ThereOutside(before, todo, paused)
        invariant requests >= 2 * |before| ==> left >= 2 * |todo|
      {
        var c :| c in todo;
        OneOutside(before, todo, c, paused);
        todo := todo - {c};
        var there;
        there, left := ScaleOne(c, paused, left);
        if there.None? {
          return Err("native IC replica update or query failed");
        }
        every := every && there.value;
      }
      if every {
        StaysThere(before, deployments, paused);
      }
      return Ok(every);
    }

    method Release(uid: string) returns (ok: bool)
      modifies this
      ensures deployments == old(deployments)
      ensures ok <==> old(lock).Some? && old(lock).value.holder == uid
      ensures lock == if ok then Some(Lock("", "")) else old(lock)
    {
      if lock.None? || lock.value.holder != uid {
        return false;
      }
      lock := Some(Lock("", ""));
      return true;
    }
  }

  // ---- Transit rows ----

  datatype Found = Missing | Foreign | Present(uuid: nat, rows: map<string, Row>)

  /** An existing row is only ever recognised; one is created only when none is expected. */
  function EnsureTransit(rows: map<string, Row>, name: string, owner: string, expected: Option<nat>, unused: nat): (f: Found) {
    if name in rows then
      if rows[name].owner != owner || (expected.Some? && expected.value != rows[name].uuid) then Foreign else Present(rows[name].uuid, rows)
    else if expected.Some? then Missing
    else Present(unused, rows[name := Row(unused, owner)])
  }

  function DeleteTransit(rows: map<string, Row>, name: string, owner: string, expected: Option<nat>): (r: Option<map<string, Row>>) {
    if name !in rows then Some(rows)
    else if rows[name].owner != owner || (expected.Some? && expected.value != rows[name].uuid) then None
    else Some(rows - {name})
  }

  // ---- The protocol ----

  /** How far the one reconcile of a VPC has come; every change of phase is one request. */
  datatype Phase =
    | Idle
    | Pausing(removing: bool, todo: set<string>, all: bool)
    | Quiet(removing: bool)
    | Changed(removing: bool)
    | Unpausing(removing: bool, todo: set<string>, all: bool)
    | Releasing(removing: bool)
    | Finishing(removing: bool)

  datatype System = System(lock: Lock, deployments: map<string, Deployment>, rows: map<string, Row>, vpcs: map<string, Vpc>,
                           phases: map<string, Phase>, clock: nat)

  datatype Event =
    | Admit(uid: string, hash: string)
    | Check(uid: string)
    | Acquire(uid: string, removing: bool)
    | Scale(uid: string, cluster: string)
    | Create(uid: string)
    | Destroy(uid: string)
    | Abandon(uid: string)
    | Record(uid: string)
    | Resume(uid: string)
    | Release(uid: string)
    | Finish(uid: string)
    | Crash(uid: string)
    | Settle(cluster: string)
    | Launch(cluster: string)
    | Exit(cluster: string)

  function PhaseOf(s: System, uid: string): (p: Phase) {
    if uid in s.phases then s.phases[uid] else Idle
  }

  function At(s: System, uid: string, p: Phase): (t: System) {
    s.(phases := s.phases[uid := p])
  }

  /** Each VPC owns the transit row of its own name. */
  function TransitName(uid: string): (n: string) {
    "ts-" + uid
  }


  /** One request of one VPC's reconcile, or one step of the environment. */
  function Next(s: System, e: Event): (t: System) {
    match e
    case Admit(uid, hash) => if uid == "" || uid in s.vpcs then s else s.(vpcs := s.vpcs[uid := Vpc(hash, "", None)])
    case Settle(c) => if c in s.deployments then s.(deployments := s.deployments[c := s.deployments[c].(settled := true)]) else s
    case Launch(c) =>
      if c in s.deployments && (s.deployments[c].replicas == 1 || !s.deployments[c].settled)
      then s.(deployments := s.deployments[c := s.deployments[c].(live := true)]) else s
    case Exit(c) => if c in s.deployments then s.(deployments := s.deployments[c := s.deployments[c].(live := false)]) else s
    case Crash(uid) => At(s, uid, Idle)
    case _ =>
      if e.uid !in s.vpcs then s else Step(s, e, e.uid, s.vpcs[e.uid], PhaseOf(s, e.uid))
  }

  function Step(s: System, e: Event, uid: string, v: Vpc, p: Phase): (t: System) {
    match e
    // Outside an operation a recorded row is only looked at.
    case Check(_) =>
      if p == Idle && v.transit.Some? && s.lock.holder != uid then
        var f := EnsureTransit(s.rows, TransitName(uid), uid, v.transit, s.clock);
        if f.Present? then s.(rows := f.rows) else s
      else s
    case Acquire(_, removing) =>
      if p != Idle || v.operation != "" || (s.lock.holder != "" && s.lock != Lock(uid, v.hash)) then s
      else At(s.(lock := Lock(uid, v.hash)), uid, if s.deployments == map[] then Quiet(removing) else Pausing(removing, s.deployments.Keys, true))
    case Scale(_, c) =>
      if p.Pausing? && c in p.todo && c in s.deployments && s.lock.holder == uid then
        var d := s.deployments[c];
        var all := p.all && d.replicas == 0 && d.settled && !d.live;
        var left := p.todo - {c};
        At(s.(deployments := s.deployments[c := Scaled(d, 0)]), uid,
           if left != {} then Pausing(p.removing, left, all) else if all then Quiet(p.removing) else Idle)
      else if p.Unpausing? && c in p.todo && c in s.deployments && s.lock.holder == uid then
        var d := s.deployments[c];
        var all := p.all && d.replicas == 1 && d.settled && d.live;
        var left := p.todo - {c};
        At(s.(deployments := s.deployments[c := Scaled(d, 1)]), uid,
           if left != {} then Unpausing(p.removing, left, all) else if all then Releasing(p.removing) else Idle)
      else s
    case Create(_) =>
      if p != Quiet(false) then s
      else
        var f := EnsureTransit(s.rows, TransitName(uid), uid, v.transit, s.clock);
        (match f
         case Missing => At(s.(vpcs := s.vpcs[uid := v.(transit := None)]), uid, Idle)
         case Foreign => At(s, uid, Idle)
         case Present(uuid, rows) =>
           At(s.(rows := rows, vpcs := s.vpcs[uid := v.(transit := Some(uuid))], clock := s.clock + 1), uid, Changed(false)))
    case Destroy(_) =>
      if p != Quiet(true) then s
      else
        var r := DeleteTransit(s.rows, TransitName(uid), uid, v.transit);
        if r.None? then At(s, uid, Idle) else At(s.(rows := r.value), uid, Changed(true))
    // A consumer that appeared behind the stop barrier: the removal gives way and the domain resumes.
    case Abandon(_) =>
      if p != Quiet(true) then s else At(s.(vpcs := s.vpcs[uid := v.(operation := "Resume")]), uid, Idle)
    case Record(_) =>
      if !p.Changed? then s
      else At(s.(vpcs := s.vpcs[uid := v.(operation := if p.removing then "DeleteResume" else "Resume")]), uid, Idle)
    // Resuming is taken up by any later reconcile from the recorded operation.
    case Resume(_) =>
      if p != Idle || v.operation == "" || (s.lock.holder != "" && s.lock.holder != uid) then s
      else At(s, uid, if s.lock.holder == "" then Finishing(v.operation == "DeleteResume")
                      else if s.deployments == map[] then Releasing(v.operation == "DeleteResume")
                      else Unpausing(v.operation == "DeleteResume", s.deployments.Keys, true))
    case Release(_) =>
      if !p.Releasing? || s.lock.holder != uid then s
      else At(s.(lock := Lock("", "")), uid, Finishing(p.removing))
    case Finish(_) =>
      if !p.Finishing? then s
      else if p.removing then At(s.(vpcs := s.vpcs - {uid}), uid, Idle)
      else At(s.(vpcs := s.vpcs[uid := v.(operation := "")]), uid, Idle)
    case _ => s
  }

  function Run(deployments: map<string, Deployment>, events: seq<Event>): (s: System) {
    if events == [] then System(Lock("", ""), deployments, map[], map[], map[], 0)
    else Next(Run(deployments, events[..|events| - 1]), events[|events| - 1])
  }

  // ---- What always holds ----

  ghost predicate StoppedOutside(deployments: map<string, Deployment>, todo: set<string>) {
    forall c :: c in deployments && c !in todo ==> Stopped(deployments[c])
  }

  ghost predicate UpOutside(deployments: map<string, Deployment>, todo: set<string>) {
    forall c :: c in deployments && c !in todo ==> deployments[c].replicas == 1
  }

  /** What a phase knows, all of it protected by the lock its VPC holds. */
  ghost predicate PhaseSound(s: System, uid: string, p: Phase) {
    match p
    case Idle => true
    case Pausing(_, todo, all) => uid != "" && s.lock.holder == uid && (all ==> StoppedOutside(s.deployments, todo))
    case Quiet(_) => uid != "" && s.lock.holder == uid && AllStopped(s.deployments)
    case Changed(_) => uid != "" && s.lock.holder == uid && AllStopped(s.deployments)
    case Unpausing(_, todo, all) => uid != "" && s.lock.holder == uid && (all ==> UpOutside(s.deployments, todo))
    case Releasing(_) => uid != "" && s.lock.holder == uid && UpOutside(s.deployments, {})
    case Finishing(_) => true
  }

  ghost predicate Sound(s: System) {
    && (forall c :: c in s.deployments ==> 0 <= s.deployments[c].replicas <= 1)
    && ((exists c :: c in s.deployments && s.deployments[c].replicas == 0) ==> s.lock.holder != "")
    && "" !in s.vpcs
    && (forall u :: u in s.phases ==> PhaseSound(s, u, s.phases[u]))
  }

  /** Deployments of a held lock only change by their holder, and stopped ones stay stopped. */
  ghost predicate Undisturbed(s: System, t: System) {
    && t.lock.holder == s.lock.holder && t.deployments.Keys == s.deployments.Keys
    && forall c :: c in s.deployments ==> t.deployments[c].replicas == s.deployments[c].replicas && (Stopped(s.deployments[c]) ==> Stopped(t.deployments[c]))
  }

  lemma PhaseUndisturbed(s: System, t: System, uid: string, p: Phase)
    requires Undisturbed(s, t) && PhaseSound(s, uid, p)
    ensures PhaseSound(t, uid, p)
  {
  }

  lemma Elsewhere(s: System, t: System, uid: string, p: Phase, actor: string)
    requires PhaseSound(s, uid, p) && uid != actor
    requires s.lock.holder == actor || s.lock.holder == ""
    ensures PhaseSound(t, uid, p)
  {
  }

  lemma NextSound(s: System, e: Event)
    requires Sound(s)
    ensures Sound(Next(s, e))
  {
    var t := Next(s, e);
    if e.Admit? || e.Settle? || e.Launch? || e.Exit? || e.Crash? {
      EnvironmentSound(s, e);
    } else if e.uid in s.vpcs {
      StepSound(s, e, e.uid);
    }
  }

  lemma EnvironmentUndisturbed(s: System, e: Event)
    requires e.Admit? || e.Settle? || e.Launch? || e.Exit? || e.Crash?
    ensures Undisturbed(s, Next(s, e)) && Next(s, e).phases == if e.Crash? then s.phases[e.uid := Idle] else s.phases
  {
    hide Step;
  }

  lemma EnvironmentSound(s: System, e: Event)
    requires Sound(s) && (e.Admit? || e.Settle? || e.Launch? || e.Exit? || e.Crash?)
    ensures Sound(Next(s, e)) && Undisturbed(s, Next(s, e))
  {
    hide PhaseSound, Step;
    var t := Next(s, e);
    EnvironmentUndisturbed(s, e);
    forall u | u in t.phases ensures PhaseSound(t, u, t.phases[u]) {
      EnvironmentPhase(s, e, t, u);
    }
  }

  lemma EnvironmentPhase(s: System, e: Event, t: System, u: string)
    requires Sound(s) && Undisturbed(s, t) && t.phases == if e.Crash? then s.phases[e.uid := Idle] else s.phases
    requires u in t.phases
    ensures PhaseSound(t, u, t.phases[u])
  {
    hide PhaseSound, Undisturbed;
    if u in s.phases && t.phases[u] == s.phases[u] {
      PhaseUndisturbed(s, t, u, s.phases[u]);
    } else {
      IdleSound(t, u);
    }
  }

  lemma IdleSound(s: System, uid: string)
    ensures PhaseSound(s, uid, Idle)
  {
  }

  lemma StepSound(s: System, e: Event, uid: string)
    requires Sound(s) && uid in s.vpcs
    requires !e.Admit? && !e.Settle? && !e.Launch? && !e.Exit? && !e.Crash? && e.uid == uid
    ensures Sound(Next(s, e))
  {
    var p := PhaseOf(s, uid);
    assert PhaseSound(s, uid, p);
    var t := Next(s, e);
    OwnPhase(s, e, uid);
    hide PhaseSound;
    forall u | u in t.phases && u != uid ensures PhaseSound(t, u, t.phases[u]) {
      assert u in s.phases && t.phases[u] == s.phases[u];
      if Undisturbed(s, t) {
        PhaseUndisturbed(s, t, u, s.phases[u]);
      } else {
        Elsewhere(s, t, u, s.phases[u], uid);
      }
    }
  }

  ghost predicate Acts(s: System, t: System, uid: string) {
    && PhaseSound(t, uid, PhaseOf(t, uid))
    && (forall u :: u in t.phases && u != uid ==> u in s.phases && t.phases[u] == s.phases[u])
    && (Undisturbed(s, t) || s.lock.holder == uid || s.lock.holder == "")
    && (forall c :: c in t.deployments ==> 0 <= t.deployments[c].replicas <= 1)
    && ((exists c :: c in t.deployments && t.deployments[c].replicas == 0) ==> t.lock.holder != "")
    && "" !in t.vpcs
  }

  lemma ScaleActs(s: System, e: Event)
    requires Sound(s) && e.Scale? && e.uid in s.vpcs
    ensures Acts(s, Next(s, e), e.uid)
  {
    var p, c, t := PhaseOf(s, e.uid), e.cluster, Next(s, e);
    assert PhaseSound(s, e.uid, p);
    if (p.Pausing? || p.Unpausing?) && c in p.todo && c in s.deployments {
      assert forall k :: k in t.deployments && k != c ==> t.deployments[k] == s.deployments[k];
      assert forall k :: k in p.todo <==> k == c || k in p.todo - {c};
    }
  }

  lemma RowActs(s: System, e: Event)
    requires Sound(s) && (e.Check? || e.Destroy? || e.Abandon?) && e.uid in s.vpcs
    ensures Acts(s, Next(s, e), e.uid)
  {
    hide EnsureTransit, DeleteTransit;
    assert PhaseSound(s, e.uid, PhaseOf(s, e.uid));
  }

  lemma CreateActs(s: System, e: Event)
    requires Sound(s) && e.Create? && e.uid in s.vpcs
    ensures Acts(s, Next(s, e), e.uid)
  {
    hide EnsureTransit, DeleteTransit;
    assert PhaseSound(s, e.uid, PhaseOf(s, e.uid));
  }

  lemma AcquireActs(s: System, e: Event)
    requires Sound(s) && e.Acquire? && e.uid in s.vpcs
    ensures Acts(s, Next(s, e), e.uid)
  {
    hide EnsureTransit, DeleteTransit;
    assert PhaseSound(s, e.uid, PhaseOf(s, e.uid));
  }

  lemma ResumeActs(s: System, e: Event)
    requires Sound(s) && (e.Resume? || e.Release?) && e.uid in s.vpcs
    ensures Acts(s, Next(s, e), e.uid)
  {
    hide EnsureTransit, DeleteTransit;
    assert PhaseSound(s, e.uid, PhaseOf(s, e.uid));
  }

  lemma RecordActs(s: System, e: Event)
    requires Sound(s) && (e.Record? || e.Finish?) && e.uid in s.vpcs
    ensures Acts(s, Next(s, e), e.uid)
  {
    hide EnsureTransit, DeleteTransit;
    assert PhaseSound(s, e.uid, PhaseOf(s, e.uid));
  }

  /** The acting VPC's own phase afterwards, and that anything it disturbs was under its lock or a free one. */
  lemma OwnPhase(s: System, e: Event, uid: string)
    requires Sound(s) && uid in s.vpcs && PhaseSound(s, uid, PhaseOf(s, uid))
    requires !e.Admit? && !e.Settle? && !e.Launch? && !e.Exit? && !e.Crash? && e.uid == uid
    ensures Acts(s, Next(s, e), uid)
  {
    hide PhaseSound, Undisturbed, Next, Acts;
    match e {
      case Scale(_, _) => ScaleActs(s, e);
      case Check(_) => RowActs(s, e);
      case Create(_) => CreateActs(s, e);
      case Destroy(_) => RowActs(s, e);
      case Abandon(_) => RowActs(s, e);
      case Acquire(_, _) => AcquireActs(s, e);
      case Resume(_) => ResumeActs(s, e);
      case Release(_) => ResumeActs(s, e);
      case _ => RecordActs(s, e);
    }
  }

  /** From deployments that are up, over every run of any number of VPCs with crashes anywhere: a paused deployment means
      the lock is held, and everything a phase relies on holds. */
  lemma {:induction false} RunSound(deployments: map<string, Deployment>, events: seq<Event>)
    requires forall c :: c in deployments ==> deployments[c].replicas == 1
    ensures Sound(Run(deployments, events))
  {
    if events != [] {
      RunSound(deployments, events[..|events| - 1]);
      NextSound(Run(deployments, events[..|events| - 1]), events[|events| - 1]);
    }
  }

  /** A transit row appears or disappears only while its own VPC holds the lock and every registered deployment is
      stopped, with no process left that could write. */
  lemma RowsChangeOnlyWhenQuiet(deployments: map<string, Deployment>, events: seq<Event>, e: Event)
    requires forall c :: c in deployments ==> deployments[c].replicas == 1
    requires Next(Run(deployments, events), e).rows != Run(deployments, events).rows
    ensures var s := Run(deployments, events);
      && (e.Create? || e.Destroy?) && s.lock.holder == e.uid && AllStopped(s.deployments)
      && forall n :: n != TransitName(e.uid) ==> (n in Next(s, e).rows <==> n in s.rows) && (n in s.rows ==> Next(s, e).rows[n] == s.rows[n])
  {
    hide Run;
    RunSound(deployments, events);
    var s := Run(deployments, events);
    if e.Create? || e.Destroy? {
      assert PhaseSound(s, e.uid, PhaseOf(s, e.uid));
    }
  }

  /** The row is the VPC's own, and the one its status records if it records any. */
  predicate OwnRow(s: System, uid: string, r: Row) {
    uid in s.vpcs && r.owner == uid && (s.vpcs[uid].transit.Some? ==> s.vpcs[uid].transit.value == r.uuid)
  }

  /** A row is never changed, and only ever removed by the VPC that owns it, as the row its status records. */
  lemma OnlyOwnRowsGo(deployments: map<string, Deployment>, events: seq<Event>, e: Event, n: string)
    requires forall c :: c in deployments ==> deployments[c].replicas == 1
    requires n in Run(deployments, events).rows
    ensures var s, t := Run(deployments, events), Next(Run(deployments, events), e);
      && (n in t.rows ==> t.rows[n] == s.rows[n])
      && (n !in t.rows ==> e.Destroy? && n == "ts-" + e.uid && OwnRow(s, e.uid, s.rows[n]))
  {
    hide Run;
  }

  /** Only a row a VPC owns is ever recorded as its transit, and never in place of another: the one that stands under its
      name, or a new one when there is none. */
  lemma OnlyOwnRowsRecorded(deployments: map<string, Deployment>, events: seq<Event>, e: Event, uid: string, id: nat)
    requires forall c :: c in deployments ==> deployments[c].replicas == 1
    requires var t := Next(Run(deployments, events), e); uid in t.vpcs && t.vpcs[uid].transit == Some(id)
    requires var s := Run(deployments, events); uid !in s.vpcs || s.vpcs[uid].transit != Some(id)
    ensures var s, t := Run(deployments, events), Next(Run(deployments, events), e); var n := "ts-" + uid;
      && e == Create(uid) && uid in s.vpcs && s.vpcs[uid].transit.None? && n in t.rows && t.rows[n] == Row(id, uid)
      && (if n in s.rows then s.rows[n] == t.rows[n] else id == s.clock)
  {
    hide Run;
  }

  /** A quiet removal takes the VPC's own row away exactly when it is the recorded one, and gives way to any other row. */
  lemma QuietRemoval(s: System, uid: string)
    requires uid in s.vpcs && PhaseOf(s, uid) == Quiet(true)
    ensures var n, t := "ts-" + uid, Next(s, Destroy(uid));
      && (n in s.rows && !OwnRow(s, uid, s.rows[n]) ==> t.rows == s.rows && PhaseOf(t, uid) == Idle)
      && (n in s.rows && OwnRow(s, uid, s.rows[n]) ==> t.rows == s.rows - {n} && PhaseOf(t, uid) == Changed(true))
      && (n !in s.rows ==> t.rows == s.rows && PhaseOf(t, uid) == Changed(true))
  {
  }

  /** A quiet creation recognises the VPC's own row, makes one only when there is none and none is recorded, and otherwise
      writes none; a recorded row that is gone is forgotten. */
  lemma QuietCreation(s: System, uid: string)
    requires uid in s.vpcs && PhaseOf(s, uid) == Quiet(false)
    ensures var n, v, t := "ts-" + uid, s.vpcs[uid], Next(s, Create(uid));
      && (n in s.rows && OwnRow(s, uid, s.rows[n]) ==>
            t.rows == s.rows && t.vpcs[uid] == v.(transit := Some(s.rows[n].uuid)) && PhaseOf(t, uid) == Changed(false))
      && (n in s.rows && !OwnRow(s, uid, s.rows[n]) ==> t.rows == s.rows && t.vpcs == s.vpcs && PhaseOf(t, uid) == Idle)
      && (n !in s.rows && v.transit.None? ==>
            t.rows == s.rows[n := Row(s.clock, uid)] && t.vpcs[uid] == v.(transit := Some(s.clock)) && PhaseOf(t, uid) == Changed(false))
      && (n !in s.rows && v.transit.Some? ==> t.rows == s.rows && t.vpcs[uid] == v.(transit := None) && PhaseOf(t, uid) == Idle)
  {
  }

  /** A free lock means every deployment is asked to run. */
  lemma FreeMeansUp(deployments: map<string, Deployment>, events: seq<Event>, c: string)
    requires forall c :: c in deployments ==> deployments[c].replicas == 1
    requires c in Run(deployments, events).deployments && Run(deployments, events).lock.holder == ""
    ensures Run(deployments, events).deployments[c].replicas == 1
  {
    RunSound(deployments, events);
  }
}
