/** What each request of a topology change does, in the lock, the deployments and the recorded operation
    (internal/controller/domain.go, internal/controller/reconciler.go). */
module TopologyMeaning {
  import opened Wrappers
  import opened TopologyLock

  // ---- Deployments ----

  /** No replica is wanted, every controller knows, and nothing runs. */
  lemma StopMeans(d: Deployment)
    ensures There(d, true) <==> d.replicas == 0 && d.settled && !d.live
    ensures There(d, false) <==> d.replicas == 1 && d.settled && d.live
    ensures Scalable(d) <==> d.dedicated && (d.replicas == 0 || d.replicas == 1)
    ensures AllStopped(map["c" := d]) <==> There(d, true)
  {
    var one := map["c" := d];
    assert one["c"] == d;
  }

  /** Scaling asks for the wanted replicas, which controllers then still have to observe; one already asked for is left alone. */
  lemma ScaleMeans(d: Deployment, wanted: int)
    ensures var e := Scaled(d, wanted);
      && e.replicas == wanted && e.live == d.live && e.dedicated == d.dedicated
      && (if d.replicas == wanted then e.settled == d.settled else !e.settled)
  {
  }

  // ---- Taking the lock ----

  /** Everything but the deployments, the lock and the acting VPC's phase stays. */
  ghost predicate KeepsRows(s: System, t: System, uid: string) {
    && t.rows == s.rows && t.vpcs == s.vpcs && t.clock == s.clock && forall u :: u != uid ==> PhaseOf(t, u) == PhaseOf(s, u)
  }

  /** An idle VPC with no operation recorded takes a lock that is free or already its own under the same configuration, and starts
      pausing every deployment; with none there is nothing to pause. */
  lemma AcquireMeans(s: System, uid: string, removing: bool)
    requires uid in s.vpcs
    ensures var t := Next(s, Acquire(uid, removing));
      var may := PhaseOf(s, uid) == Idle && s.vpcs[uid].operation == "" &&
                 (s.lock.holder == "" || (s.lock.holder == uid && s.lock.hash == s.vpcs[uid].hash));
      if may then
        && KeepsRows(s, t, uid) && t.deployments == s.deployments && t.lock.holder == uid && t.lock.hash == s.vpcs[uid].hash
        && PhaseOf(t, uid) == if |s.deployments.Keys| == 0 then Quiet(removing) else Pausing(removing, s.deployments.Keys, true)
      else t == s
  {
  }

  // ---- Pausing and resuming ----

  /** One deployment after another is asked to stop, by the holder only; when the last one is asked, the VPC is quiet exactly if
      every one of them was found stopped, and otherwise starts over. */
  lemma PauseMeans(s: System, uid: string, c: string, removing: bool, todo: set<string>, all: bool)
    requires uid in s.vpcs && PhaseOf(s, uid) == Pausing(removing, todo, all)
    ensures var t := Next(s, Scale(uid, c));
      if c in todo && c in s.deployments && s.lock.holder == uid then
        var d := s.deployments[c];
        var found := all && d.replicas == 0 && d.settled && !d.live;
        && KeepsRows(s, t, uid) && t.lock == s.lock && t.deployments == s.deployments[c := Scaled(d, 0)]
        && PhaseOf(t, uid) == if todo - {c} != {} then Pausing(removing, todo - {c}, found) else if found then Quiet(removing) else Idle
      else t == s
  {
  }

  lemma UnpauseMeans(s: System, uid: string, c: string, removing: bool, todo: set<string>, all: bool)
    requires uid in s.vpcs && PhaseOf(s, uid) == Unpausing(removing, todo, all)
    ensures var t := Next(s, Scale(uid, c));
      if c in todo && c in s.deployments && s.lock.holder == uid then
        var d := s.deployments[c];
        var found := all && d.replicas == 1 && d.settled && d.live;
        && KeepsRows(s, t, uid) && t.lock == s.lock && t.deployments == s.deployments[c := Scaled(d, 1)]
        && PhaseOf(t, uid) == if todo - {c} != {} then Unpausing(removing, todo - {c}, found) else if found then Releasing(removing) else Idle
      else t == s
  {
  }

  /** Scaling happens in these two phases only. */
  lemma ScaleOnlyThen(s: System, uid: string, c: string)
    requires uid in s.vpcs && !PhaseOf(s, uid).Pausing? && !PhaseOf(s, uid).Unpausing?
    ensures Next(s, Scale(uid, c)) == s
  {
  }

  // ---- Recording, resuming, releasing ----

  /** The operation recorded for a VPC, everything else of it as before. */
  ghost predicate Records(s: System, t: System, uid: string, operation: string, phase: Phase) {
    && uid in s.vpcs && t.vpcs == s.vpcs[uid := Vpc(s.vpcs[uid].hash, operation, s.vpcs[uid].transit)] && PhaseOf(t, uid) == phase
    && t.rows == s.rows && t.lock == s.lock && t.deployments == s.deployments && t.clock == s.clock
    && forall u :: u != uid ==> PhaseOf(t, u) == PhaseOf(s, u)
  }

  /** After its change a VPC records that the domain has to resume, and whether it goes away afterwards; a removal that gives way
      records a plain resumption. */
  lemma RecordMeans(s: System, uid: string)
    requires uid in s.vpcs
    ensures var p, t := PhaseOf(s, uid), Next(s, Record(uid));
      && (!p.Changed? ==> t == s)
      && (p == Changed(true) ==> Records(s, t, uid, "DeleteResume", Idle))
      && (p == Changed(false) ==> Records(s, t, uid, "Resume", Idle))
    ensures var p, t := PhaseOf(s, uid), Next(s, Abandon(uid));
      if p == Quiet(true) then Records(s, t, uid, "Resume", Idle) else t == s
  {
  }

  /** A recorded operation is resumed by its VPC whenever no other one holds the lock: the holder scales every deployment up again,
      and one that already released it only has to finish. */
  lemma ResumeMeans(s: System, uid: string)
    requires uid in s.vpcs
    ensures var t, v := Next(s, Resume(uid)), s.vpcs[uid]; var removing := v.operation == "DeleteResume";
      var may := PhaseOf(s, uid) == Idle && v.operation != "" && (s.lock.holder == "" || s.lock.holder == uid);
      if may then
        && KeepsRows(s, t, uid) && t.lock == s.lock && t.deployments == s.deployments
        && PhaseOf(t, uid) == if s.lock.holder == "" then Finishing(removing)
                              else if |s.deployments.Keys| == 0 then Releasing(removing) else Unpausing(removing, s.deployments.Keys, true)
      else t == s
  {
  }

  /** The holder that found everything running releases the lock; finishing forgets the operation, or the VPC when it goes. */
  lemma ReleaseMeans(s: System, uid: string)
    requires uid in s.vpcs
    ensures var p, t := PhaseOf(s, uid), Next(s, Release(uid));
      if p.Releasing? && s.lock.holder == uid then
        KeepsRows(s, t, uid) && t.deployments == s.deployments && t.lock == Lock("", "") && PhaseOf(t, uid) == Finishing(p.removing)
      else t == s
    ensures var p, t := PhaseOf(s, uid), Next(s, Finish(uid));
      && (!p.Finishing? ==> t == s)
      && (p == Finishing(false) ==> Records(s, t, uid, "", Idle))
      && (p == Finishing(true) ==>
            && t.vpcs == s.vpcs - {uid} && PhaseOf(t, uid) == Idle && t.rows == s.rows && t.lock == s.lock && t.deployments == s.deployments
            && forall u :: u != uid ==> PhaseOf(t, u) == PhaseOf(s, u))
  {
  }

  // ---- Outside an operation, and the environment ----

  /** Looking at a recorded row changes nothing. */
  lemma CheckMeans(s: System, uid: string)
    ensures Next(s, Check(uid)) == s
  {
  }

  /** VPCs are admitted once, under a name; a crash forgets how far a VPC has come and nothing else. */
  lemma AdmitMeans(s: System, uid: string, hash: string)
    ensures var t := Next(s, Admit(uid, hash));
      t == if uid == "" || uid in s.vpcs then s else System(s.lock, s.deployments, s.rows, s.vpcs[uid := Vpc(hash, "", None)], s.phases, s.clock)
    ensures Next(s, Crash(uid)) == System(s.lock, s.deployments, s.rows, s.vpcs, s.phases[uid := Idle], s.clock)
  {
  }

  /** Controllers observe what is asked for; a process may start while one is wanted or not yet known to be unwanted, and may end. */
  lemma ClusterMeans(s: System, c: string, e: Event)
    requires e == Settle(c) || e == Launch(c) || e == Exit(c)
    ensures var t := Next(s, e);
      if c !in s.deployments then t == s
      else
        var d := s.deployments[c];
        var after := if e.Settle? then Deployment(d.replicas, true, d.live, d.dedicated)
                     else if e.Exit? then Deployment(d.replicas, d.settled, false, d.dedicated)
                     else Deployment(d.replicas, d.settled, d.live || d.replicas == 1 || !d.settled, d.dedicated);
        t == System(s.lock, s.deployments[c := after], s.rows, s.vpcs, s.phases, s.clock)
  {
    if c in s.deployments {
      assert s.deployments[c := s.deployments[c]] == s.deployments;
    }
  }
}
