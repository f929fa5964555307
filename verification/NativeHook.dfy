/** The native installation hook: an Active/Pending receipt kept in the cluster, and the writes that install, upgrade,
    roll back and uninstall under it (internal/vpcctl/native_hook.go, internal/vpcctl/native.go,
    internal/vpcctl/native_lifecycle.go). A run may stop before any write; nothing else writes these objects. */
module NativeHook {
  import opened Wrappers
  import opened NativePlan

  datatype Receipt = Receipt(active: Option<Plan>, pending: Option<Plan>)

  /** The three objects a run writes: the resource definition, the Deployment's template and the receipt. */
  datatype World = World(spec: CrdSpec, specVersion: nat, template: Template, templateVersion: nat, receipt: Option<Receipt>)

  // ---- The states a receipt stands for ----

  ghost predicate Before(w: World, p: Plan) {
    w.spec == p.crdSpec && w.template == p.template
  }

  ghost predicate Partial(w: World, p: Plan) {
    w.spec == ExpectedSpec(p) && w.template == p.template
  }

  ghost predicate Installed(w: World, p: Plan) {
    w.spec == ExpectedSpec(p) && w.template == ExpectedTemplate(p)
  }

  /** On the way to the stock controller: the recorded original image, with the schema still or no longer extended. */
  ghost predicate Unwinding(w: World, p: Plan) {
    var t := RestoreTarget(p, true);
    t.Some? && w.template == t.value.template && (w.spec == ExpectedSpec(p) || w.spec == t.value.spec)
  }

  /** Stock images are none of the patched ones, which are known by digest. */
  predicate Unpatched(i: Image, patched: set<string>) {
    i.digest.Some? ==> i.digest.value !in patched
  }

  predicate ImageUnpatched(t: Template, container: string, patched: set<string>) {
    container in t.images ==> Unpatched(t.images[container], patched)
  }

  /** A receipt of this cluster whose root was taken from a stock controller. */
  ghost predicate Genuine(p: Plan, identity: Identity, patched: set<string>) {
    && Valid(p) && p.identity == identity
    && ImageUnpatched(Root(p).template, identity.container, patched)
    && forall i :: i in Root(p).originals ==> Unpatched(i, patched)
  }

  /** The persisted receipt pins the cluster to one of the exact states of its plans. */
  ghost predicate Pinned(w: World, identity: Identity, patched: set<string>) {
    match w.receipt
    case None => ImageUnpatched(w.template, identity.container, patched)
    case Some(Receipt(None, None)) => false
    case Some(Receipt(Some(a), None)) => Genuine(a, identity, patched) && (Installed(w, a) || Unwinding(w, a))
    case Some(Receipt(None, Some(p))) =>
      Genuine(p, identity, patched) && p.previous.None? && (Before(w, p) || Partial(w, p) || Installed(w, p) || Unwinding(w, p))
    case Some(Receipt(Some(a), Some(p))) =>
      && Genuine(a, identity, patched) && Genuine(p, identity, patched)
      && p.previous.Some? && (p.previous == Some(a) || p == a)
      && (Before(w, p) || Installed(w, p) || Unwinding(w, p))
  }

  /** A patched image never runs without both schema properties. */
  ghost predicate SchemaFirst(w: World, identity: Identity, patched: set<string>) {
    ImageUnpatched(w.template, identity.container, patched) || HasRoutes(w.spec)
  }

  lemma UnwindingUnpatched(w: World, p: Plan, identity: Identity, patched: set<string>)
    requires Genuine(p, identity, patched) && Unwinding(w, p)
    ensures ImageUnpatched(w.template, identity.container, patched)
  {
    UninstallIsRootState(p);
    var r := Root(p);
    ChainKeepsRest(p, 0);
    assert r.originals[0] in r.originals;
  }

  /** Whatever state a run stopped in, the pinned receipt rules out a patched image without its schema. */
  lemma PinnedKeepsSchemaFirst(w: World, identity: Identity, patched: set<string>)
    requires Pinned(w, identity, patched)
    ensures SchemaFirst(w, identity, patched)
  {
    hide Genuine, Unwinding;
    if w.receipt.Some? {
      var r := w.receipt.value;
      var p := if r.pending.Some? then r.pending.value else r.active.value;
      assert Genuine(p, identity, patched);
      if Unwinding(w, p) {
        UnwindingUnpatched(w, p, identity, patched);
      } else if Before(w, p) {
        BeforeIsSafe(w, p, identity, patched);
      }
    }
  }

  lemma BeforeIsSafe(w: World, p: Plan, identity: Identity, patched: set<string>)
    requires Genuine(p, identity, patched) && Before(w, p)
    ensures SchemaFirst(w, identity, patched)
  {
    if p.previous.Some? {
      PreviousValid(p);
    }
  }

  /** Before an upgrade is exactly its previous receipt's installed state, so a receipt for one is a receipt for the other. */
  lemma BeforeIsPrevious(w: World, p: Plan)
    requires Valid(p) && p.previous.Some?
    ensures Before(w, p) <==> Installed(w, p.previous.value)
  {
    PreviousValid(p);
  }

  // ---- Choosing images ----

  /** The immutable image the stock controller is known by; None when it cannot be proven. `proven` tells whether every
      running Pod shows the bundle's base digest. */
  function Original(image: Image, bundle: Bundle, proven: bool): (o: Option<Image>) {
    if image.digest.Some? then
      if bundle.baseImage.Some? && Reference(image) != Reference(bundle.baseImage.value) then None else Some(Reference(image))
    else if bundle.baseImage.Some? && proven then Some(Reference(bundle.baseImage.value)) else None
  }

  /** The nearest receipt of a chain recording an image. */
  function Nearest(p: Plan, image: Image): (n: Plan)
    decreases p
  {
    if p.bundle.image == image || p.previous.None? then p else Nearest(p.previous.value, image)
  }

  lemma {:induction false} NearestGenuine(p: Plan, image: Image, identity: Identity, patched: set<string>)
    requires Genuine(p, identity, patched) && HasImage(Some(p), image)
    ensures Genuine(Nearest(p, image), identity, patched) && Nearest(p, image).bundle.image == image
    decreases p
  {
    if p.bundle.image != image {
      PreviousGenuine(p, identity, patched);
      NearestGenuine(p.previous.value, image, identity, patched);
    }
  }

  lemma PreviousGenuine(p: Plan, identity: Identity, patched: set<string>)
    requires Genuine(p, identity, patched) && p.previous.Some?
    ensures Genuine(p.previous.value, identity, patched)
  {
    PreviousValid(p);
  }

  predicate SameBundle(b: Bundle, recorded: Bundle) {
    b.image == recorded.image && b.target == recorded.target && b.sourceCommit == recorded.sourceCommit && BaseReference(b) == BaseReference(recorded)
  }

  /** A restoration under way: the image is back, the schema still extended or already restored. */
  ghost predicate Restoring(w: World, p: Plan, t: Option<Target>) {
    && Valid(p) && t.Some? && w.template == t.value.template
    && (w.spec == ExpectedSpec(p) || (t.value.stock && w.spec == t.value.spec))
  }

  // ---- What each write keeps ----

  ghost predicate Same(v: World, w: World) {
    v.receipt == w.receipt
  }

  lemma InstallKeeps(v: World, w: World, p: Plan, identity: Identity, patched: set<string>)
    requires Pinned(v, identity, patched) && Same(v, w) && v.receipt.Some? && v.receipt.value.pending == Some(p)
    requires w == v || Partial(w, p) || Installed(w, p)
    ensures Pinned(w, identity, patched)
  {
    if p.previous.Some? && Partial(w, p) {
      PreviousValid(p);
    }
  }

  lemma RollbackKeeps(v: World, w: World, p: Plan, identity: Identity, patched: set<string>)
    requires Pinned(v, identity, patched) && Same(v, w) && v.receipt.Some? && v.receipt.value.pending == Some(p) && p.previous.Some?
    requires w == v || Restoring(w, p, RestoreTarget(p, false))
    ensures Pinned(w, identity, patched)
  {
    hide Genuine, Unwinding;
    if w != v {
      RollbackIsPreviousState(p);
      PreviousValid(p);
    }
  }

  lemma UninstallKeeps(v: World, w: World, p: Plan, identity: Identity, patched: set<string>)
    requires Pinned(v, identity, patched) && Same(v, w) && v.receipt.Some?
    requires p == if v.receipt.value.pending.Some? then v.receipt.value.pending.value else v.receipt.value.active.value
    requires w == v || Restoring(w, p, RestoreTarget(p, true))
    ensures Pinned(w, identity, patched)
  {
    hide Genuine;
  }

  /** The exact states a plan can be installed from: the state it was made from, untouched since, or one it left itself. */
  ghost predicate Installable(w: World, p: Plan, proven: bool) {
    || Installed(w, p)
    || ((Partial(w, p) || (Before(w, p) && w.template != ExpectedTemplate(p) && w.specVersion == p.crdVersion && w.templateVersion == p.deploymentVersion))
        && (p.previous.Some? || Provable(p, proven)))
  }

  /** A bundle an active receipt can be upgraded to: another image on the same baseline, and room in the chain. */
  predicate Upgrades(a: Plan, bundle: Bundle) {
    && bundle.target == a.bundle.target && BaseReference(bundle) == BaseReference(a.bundle) && bundle.image != a.bundle.image
    && Depth(a) < MAX_DEPTH
  }

  /** A stock controller a bundle can be installed on. */
  predicate Installs(w: World, container: string, bundle: Bundle, proven: bool) {
    NoRoutes(w.spec) && container in w.template.images && Original(w.template.images[container], bundle, proven).Some?
  }

  /** A new bundle can be brought in: on a stock controller of another image, or over an installed receipt that does not
      know its image. */
  ghost predicate Startable(w: World, container: string, bundle: Bundle, proven: bool) {
    match w.receipt
    case None => Installs(w, container, bundle, proven) && w.template.images[container] != bundle.image
    case Some(Receipt(Some(a), None)) => Installed(w, a) && !HasImage(Some(a), bundle.image) && Upgrades(a, bundle)
    case _ => false
  }

  /** A pending upgrade that is not in force: never applied, or rolled back with its receipt still to be saved. */
  ghost predicate NotInForce(w: World, p: Plan) {
    p.previous.Some? && Before(w, p) && !Installed(w, p) && !Unwinding(w, p)
  }

  /** A bundle the active receipt leads to: back along its chain, or by an upgrade. */
  predicate Reachable(a: Plan, bundle: Bundle) {
    if HasImage(Some(a), bundle.image) then SameBundle(bundle, Nearest(a, bundle.image).bundle) else Upgrades(a, bundle)
  }

  /** A run that brings this bundle in can start here, or was stopped here. */
  ghost predicate Resumable(w: World, container: string, bundle: Bundle, proven: bool) {
    match w.receipt
    case None => Installs(w, container, bundle, proven) && w.template.images[container] != bundle.image
    case Some(Receipt(Some(a), None)) => Installed(w, a) && Reachable(a, bundle)
    case Some(Receipt(_, Some(p))) =>
      if p.bundle.image == bundle.image then SameBundle(bundle, p.bundle) && Installable(w, p, proven)
      else (Installed(w, p) || Before(w, p)) && HasImage(p.previous, bundle.image) && SameBundle(bundle, Nearest(p.previous.value, bundle.image).bundle)
    case _ => false
  }

  /** How many receipts a run may still have to leave. */
  function Steps(r: Option<Receipt>): (n: nat) {
    match r
    case Some(Receipt(_, Some(p))) => Depth(p)
    case Some(Receipt(Some(a), None)) => Depth(a)
    case _ => 0
  }

  /** The image to return to is still known. */
  predicate Provable(p: Plan, proven: bool) {
    p.identity.container in p.template.images && Original(p.template.images[p.identity.container], p.bundle, proven).Some?
  }

  /** Rolling an upgrade back leads to the state before it. */
  lemma RestoredIsBefore(v: World, w: World, p: Plan)
    requires Valid(p) && p.previous.Some? && (w == v || Restoring(w, p, RestoreTarget(p, false)))
    ensures w == v || Before(w, p)
  {
    RollbackIsPreviousState(p);
    PreviousValid(p);
  }

  lemma StepsBounded(w: World, identity: Identity, patched: set<string>)
    requires Pinned(w, identity, patched)
    ensures Steps(w.receipt) <= MAX_DEPTH
  {
    if w.receipt.Some? {
      var r := w.receipt.value;
      var p := if r.pending.Some? then r.pending.value else r.active.value;
      ValidDepth(p, 0);
    }
  }

  /** One hook run and the number of writes it gets done. */
  datatype HookRun = Reconciling(writes: nat, bundle: Bundle, proven: bool) | Uninstalling(writes: nat)

  /** The rollback loop has another receipt to leave. */
  predicate Continuing(a: Plan, image: Image) {
    a.bundle.image != image && HasImage(a.previous, image)
  }

  class Hook {
    const identity: Identity
    ghost const patched: set<string>
    var world: World
    /** How many writes the API server takes before the run stops. */
    var budget: nat

    ghost predicate Sound()
      reads this
    {
      Pinned(world, identity, patched)
    }

    method Save(active: Option<Plan>, pending: Option<Plan>) returns (ok: bool)
      modifies this
      ensures ok <==> old(budget) > 0
      ensures ok ==> world == old(world).(receipt := Some(Receipt(active, pending))) && budget == old(budget) - 1
      ensures !ok ==> world == old(world)
    {
      if budget == 0 {
        return false;
      }
      budget := budget - 1;
      world := world.(receipt := Some(Receipt(active, pending)));
      return true;
    }

    /** Adds the schema, then replaces the image, resuming from any exact intermediate state of the same plan. */
    method Install(p: Plan, proven: bool) returns (ok: bool)
      modifies this
      ensures world.receipt == old(world).receipt
      ensures world != old(world) ==> Valid(p) && (Before(old(world), p) || Partial(old(world), p)) && (Partial(world, p) || Installed(world, p))
      ensures ok ==> Installed(world, p)
      // With two writes to spare it succeeds exactly from those states.
      ensures old(budget) >= 2 ==> (ok <==> Valid(p) && p.identity == identity && Installable(old(world), p, proven))
      ensures budget >= old(budget) - 2
      ensures Installable(old(world), p, proven) ==> Installable(world, p, proven)
    {
      if !Valid(p) || p.identity != identity {
        return false;
      }
      var schemaApplied, imageApplied := world.spec == ExpectedSpec(p), world.template == ExpectedTemplate(p);
      if !schemaApplied && world.spec != p.crdSpec {
        return false;
      }
      if !imageApplied && world.template != p.template {
        return false;
      }
      if !schemaApplied && imageApplied {
        return false;
      }
      if !schemaApplied && (world.specVersion != p.crdVersion || world.templateVersion != p.deploymentVersion) {
        return false;
      }
      if !imageApplied && p.previous.None? && Original(p.template.images[identity.container], p.bundle, proven).None? {
        return false;
      }
      if !schemaApplied {
        if p.previous.Some? {
          PreviousValid(p);
        }
        if budget == 0 {
          return false;
        }
        budget := budget - 1;
        world := world.(spec := WithRoutes(world.spec), specVersion := world.specVersion + 1);
      }
      if !imageApplied {
        if budget == 0 {
          return false;
        }
        budget := budget - 1;
        world := world.(template := SetImage(world.template, identity.container, p.bundle.image), templateVersion := world.templateVersion + 1);
      }
      return world.spec == ExpectedSpec(p) && world.template == ExpectedTemplate(p);
    }

    /** Restores the image first and, when returning to stock, removes the two schema properties afterwards. */
    method Restore(p: Plan, uninstall: bool) returns (ok: bool)
      modifies this
      ensures world.receipt == old(world).receipt
      ensures var t := RestoreTarget(p, uninstall);
        && (world != old(world) ==> Restoring(world, p, t))
        && (ok ==> Valid(p) && t.Some? && world.template == t.value.template && world.spec == t.value.spec)
      // From any exact state of the receipt the restoration can only stop for want of a write.
      ensures Valid(p) && p.identity == identity && RestoreTarget(p, uninstall).Some?
              && (old(budget) >= 2 || (old(budget) >= 1 && !RestoreTarget(p, uninstall).value.stock))
              && (Installed(old(world), p) || (uninstall && p.previous.None? && (Before(old(world), p) || Partial(old(world), p)))
                  || (uninstall && Unwinding(old(world), p)) || (p.previous.Some? && !uninstall && Before(old(world), p)))
              ==> ok && budget >= old(budget) - 2 && (!RestoreTarget(p, uninstall).value.stock ==> budget >= old(budget) - 1)
      // An upgrade that is not in force is not uninstalled over.
      ensures Valid(p) && uninstall && NotInForce(old(world), p) ==> !ok
    {
      if !Valid(p) || p.identity != identity {
        return false;
      }
      var target := RestoreTarget(p, uninstall);
      if target.None? {
        return false;
      }
      var t := target.value;
      RestoreFacts(p, uninstall);
      if p.previous.Some? {
        PreviousValid(p);
      }
      var imageRestored, schemaRestored := world.template == t.template, world.spec == t.spec;
      if world.spec != ExpectedSpec(p) && !schemaRestored {
        return false;
      }
      if !imageRestored && world.template != ExpectedTemplate(p) && !(p.previous.None? && world.template == p.template) {
        return false;
      }
      if t.stock && schemaRestored && !imageRestored && world.template != p.template {
        return false;
      }
      if !imageRestored {
        if budget == 0 {
          return false;
        }
        budget := budget - 1;
        world := world.(template := SetImage(world.template, identity.container, t.image), templateVersion := world.templateVersion + 1);
        assert world.template == t.template;
      }
      if t.stock && world.spec != t.spec {
        if budget == 0 {
          return false;
        }
        budget := budget - 1;
        world := world.(spec := WithoutRoutes(world.spec), specVersion := world.specVersion + 1);
      }
      // The final schema check.
      assert world.spec == t.spec;
      return true;
    }

    /** Finishes or reverses what an earlier run left pending. */
    method SettlePending(p: Plan, bundle: Bundle, proven: bool) returns (ok: bool)
      requires Sound() && world.receipt.Some? && world.receipt.value.pending == Some(p)
      modifies this
      ensures Sound()
      ensures ok ==> world.receipt.Some? && world.receipt.value.pending.None? && HasImage(world.receipt.value.active, bundle.image)
      ensures Resumable(old(world), identity.container, bundle, proven) ==> Resumable(world, identity.container, bundle, proven)
      ensures Resumable(old(world), identity.container, bundle, proven) && old(budget) >= 3 ==> ok && budget >= old(budget) - 3
      ensures ok ==> Steps(world.receipt) <= Steps(old(world).receipt)
    {
      if p.bundle.image == bundle.image {
        ok := FinishPending(p, bundle, proven);
      } else {
        var found := ReceiptHasImage(p.previous, bundle.image);
        if !found {
          return false;
        }
        ok := ReversePending(p, bundle, proven);
      }
    }

    method FinishPending(p: Plan, bundle: Bundle, proven: bool) returns (ok: bool)
      requires Sound() && world.receipt.Some? && world.receipt.value.pending == Some(p) && p.bundle.image == bundle.image
      modifies this
      ensures Sound()
      ensures ok ==> world.receipt == Some(Receipt(Some(p), None)) && Installed(world, p)
      ensures Resumable(old(world), identity.container, bundle, proven) ==> Resumable(world, identity.container, bundle, proven)
      ensures Resumable(old(world), identity.container, bundle, proven) && old(budget) >= 3 ==> ok && budget >= old(budget) - 3
    {
      ghost var before := world;
      ok := Install(p, proven);
      InstallKeeps(before, world, p, identity, patched);
      if ok {
        ok := Save(Some(p), None);
      }
    }

    method ReversePending(p: Plan, ghost bundle: Bundle, ghost proven: bool) returns (ok: bool)
      requires Sound() && world.receipt.Some? && world.receipt.value.pending == Some(p) && p.previous.Some?
      requires p.bundle.image != bundle.image && HasImage(p.previous, bundle.image)
      modifies this
      ensures Sound()
      ensures ok ==> world.receipt == Some(Receipt(p.previous, None)) && Installed(world, p.previous.value)
      ensures Resumable(old(world), identity.container, bundle, proven) ==> Resumable(world, identity.container, bundle, proven)
      ensures (Installed(old(world), p) || Before(old(world), p)) && old(budget) >= 2 ==> ok && budget >= old(budget) - 2
    {
      ghost var before := world;
      RollbackIsPreviousState(p);
      ok := Restore(p, false);
      RollbackKeeps(before, world, p, identity, patched);
      RestoredIsBefore(before, world, p);
      if ok {
        BeforeIsPrevious(world, p);
        PreviousGenuine(p, identity, patched);
        ok := Save(p.previous, None);
      }
    }

    /** Rolls back receipt by receipt to the nearest one recording the image. */
    method RollBack(image: Image) returns (ok: bool)
      requires Sound() && world.receipt.Some? && world.receipt.value.pending.None?
      modifies this
      ensures Sound()
      ensures var a := old(world).receipt.value.active.value;
        && (ok ==> world.receipt == Some(Receipt(Some(if HasImage(Some(a), image) then Nearest(a, image) else a), None)))
        && (!HasImage(Some(a), image) ==> ok && world == old(world) && budget == old(budget))
        && (Installed(old(world), a) && old(budget) >= 3 * Depth(a) ==> ok && Installed(world, world.receipt.value.active.value)
                                                                        && budget >= old(budget) - 3 * Depth(a))
      ensures forall b: Bundle, proven: bool :: b.image == image && Resumable(old(world), identity.container, b, proven) ==> Resumable(world, identity.container, b, proven)
    {
      ghost var first := world.receipt.value.active.value;
      ghost var start := world;
      var more := HasImageBelow(image);
      while more
        invariant Sound() && world.receipt.Some? && world.receipt.value.pending.None?
        invariant more <==> Continuing(world.receipt.value.active.value, image)
        invariant HasImage(Some(first), image) <==> HasImage(world.receipt.value.active, image)
        invariant HasImage(Some(first), image) ==> Nearest(world.receipt.value.active.value, image) == Nearest(first, image)
        invariant !HasImage(Some(first), image) ==> world == start && budget == old(budget)
        invariant Installed(start, first) && start == old(world) && old(budget) >= 3 * Depth(first) ==>
                    Installed(world, world.receipt.value.active.value)
                    && budget >= old(budget) - 3 * Depth(first) + 3 * Depth(world.receipt.value.active.value)
        invariant forall b: Bundle, proven: bool :: b.image == image && Resumable(start, identity.container, b, proven) ==> Resumable(world, identity.container, b, proven)
        decreases world.receipt.value.active
      {
        var a := world.receipt.value.active.value;
        ok := StepBack(a, image);
        if !ok {
          return false;
        }
        more := HasImageBelow(image);
      }
      return true;
    }

    method HasImageBelow(image: Image) returns (more: bool)
      requires world.receipt.Some? && world.receipt.value.active.Some?
      ensures more <==> Continuing(world.receipt.value.active.value, image)
    {
      var a := world.receipt.value.active.value;
      if a.bundle.image == image {
        return false;
      }
      more := ReceiptHasImage(a.previous, image);
    }

    /** One receipt back: marked pending, restored, and replaced by its predecessor. */
    method StepBack(a: Plan, ghost image: Image) returns (ok: bool)
      requires Sound() && world.receipt == Some(Receipt(Some(a), None)) && Continuing(a, image)
      modifies this
      ensures Sound()
      ensures ok ==> world.receipt == Some(Receipt(a.previous, None))
      ensures Installed(old(world), a) && old(budget) >= 3 ==>
                ok && Installed(world, a.previous.value) && budget >= old(budget) - 3
      ensures forall b: Bundle, proven: bool :: b.image == image && Resumable(old(world), identity.container, b, proven) ==> Resumable(world, identity.container, b, proven)
    {
      ok := Save(Some(a), Some(a));
      if !ok {
        return false;
      }
      ghost var before := world;
      RollbackIsPreviousState(a);
      ok := Restore(a, false);
      RollbackKeeps(before, world, a, identity, patched);
      RestoredIsBefore(before, world, a);
      BeforeIsPrevious(world, a);
      if !ok {
        return false;
      }
      PreviousGenuine(a, identity, patched);
      ok := Save(a.previous, None);
    }

    /** The plan of a first installation, taken from the stock controller. */
    method FirstPlan(bundle: Bundle, proven: bool) returns (plan: Option<Plan>)
      requires Sound() && world.receipt.None? && ValidBundle(bundle)
      requires bundle.baseImage.Some? ==> Unpatched(bundle.baseImage.value, patched)
      ensures plan.Some? <==> Installs(world, identity.container, bundle, proven)
      ensures plan.Some? ==> Genuine(plan.value, identity, patched) && plan.value.bundle == bundle && plan.value.previous.None? && Before(world, plan.value)
      ensures plan.Some? && world.template.images[identity.container] != bundle.image ==> Installable(world, plan.value, proven)
      // The immutable image of the controller found is what an uninstallation returns to.
      ensures plan.Some? ==> plan.value.originals == [Original(world.template.images[identity.container], bundle, proven).value]
    {
      if !NoRoutes(world.spec) || identity.container !in world.template.images {
        return None;
      }
      var original := Original(world.template.images[identity.container], bundle, proven);
      if original.None? {
        return None;
      }
      return Some(Plan(identity, bundle, world.specVersion, world.spec, world.templateVersion, world.template, [original.value], None));
    }

    /** The plan of an upgrade, taken from the exact installed state of the active receipt. */
    method UpgradePlan(a: Plan, bundle: Bundle) returns (plan: Option<Plan>)
      requires Genuine(a, identity, patched) && ValidBundle(bundle)
      ensures plan.Some? ==> Genuine(plan.value, identity, patched) && plan.value.bundle == bundle && plan.value.previous == Some(a) && Before(world, plan.value)
      ensures forall proven: bool :: plan.Some? ==> Installable(world, plan.value, proven)
      ensures plan.Some? <==> Installed(world, a) && Upgrades(a, bundle)
    {
      if bundle.target != a.bundle.target || BaseReference(bundle) != BaseReference(a.bundle) || bundle.image == a.bundle.image {
        return None;
      }
      if world.spec != ExpectedSpec(a) || world.template != ExpectedTemplate(a) {
        return None;
      }
      var p := Plan(identity, bundle, world.specVersion, world.spec, world.templateVersion, world.template, [a.bundle.image], Some(a));
      ValidDepth(a, 1);
      if !Valid(p) {
        return None;
      }
      return Some(p);
    }

    /** Persists a new plan before anything else is written, installs it, and makes it the active one. */
    method InstallNew(plan: Plan, proven: bool) returns (ok: bool)
      requires Sound() && Genuine(plan, identity, patched) && Before(world, plan)
      requires if plan.previous.Some? then world.receipt == Some(Receipt(plan.previous, None)) else world.receipt.None?
      modifies this
      ensures Sound()
      ensures ok ==> world.receipt == Some(Receipt(Some(plan), None)) && Installed(world, plan)
      ensures Installable(old(world), plan, proven) && old(budget) >= 4 ==> ok
      ensures Installable(old(world), plan, proven) ==> world == old(world) || Resumable(world, identity.container, plan.bundle, proven)
    {
      ok := Save(if world.receipt.Some? then world.receipt.value.active else None, Some(plan));
      if !ok {
        return false;
      }
      ghost var before := world;
      ok := Install(plan, proven);
      InstallKeeps(before, world, plan, identity, patched);
      if !ok {
        return false;
      }
      ok := Save(Some(plan), None);
    }

    /** The reconcile action of one hook run. */
    method Reconcile(bundle: Bundle, proven: bool) returns (ok: bool)
      requires Sound()
      requires bundle.baseImage.Some? ==> Unpatched(bundle.baseImage.value, patched)
      modifies this
      // Wherever the run stops, the receipt pins the cluster and the schema is there for any patched image.
      ensures Sound() && SchemaFirst(world, identity, patched)
      // Success means exactly this bundle's receipt is active and its state installed.
      ensures ok ==> world.receipt.Some? && world.receipt.value.pending.None? && world.receipt.value.active.Some?
      ensures ok ==> SameBundle(bundle, world.receipt.value.active.value.bundle) && Installed(world, world.receipt.value.active.value)
      // Rolling back to a recorded image always succeeds when nothing stops the run.
      ensures var r := old(world).receipt;
        r.Some? && r.value.pending.None? && ValidBundle(bundle) && Installed(old(world), r.value.active.value)
        && HasImage(r.value.active, bundle.image) && old(budget) >= 3 * Depth(r.value.active.value)
        && SameBundle(bundle, Nearest(r.value.active.value, bundle.image).bundle)
        ==> ok && world.receipt == Some(Receipt(Some(Nearest(r.value.active.value, bundle.image)), None))
      // A run stopped on the way can be repeated until it succeeds: wherever it stops it can be resumed, and resumed with
      // no write refused it finishes.
      ensures ValidBundle(bundle) && Resumable(old(world), identity.container, bundle, proven) ==> Resumable(world, identity.container, bundle, proven)
      ensures ValidBundle(bundle) && Resumable(old(world), identity.container, bundle, proven) && old(budget) >= 3 * Steps(old(world).receipt) + 7 ==> ok
      // So does a first installation on a stock controller of another image, and an upgrade of an installed receipt to a new image.
      ensures ValidBundle(bundle) && Startable(old(world), identity.container, bundle, proven) && old(budget) >= 4 ==> ok
    {
      PinnedKeepsSchemaFirst(world, identity, patched);
      if !ValidBundle(bundle) {
        return false;
      }
      if world.receipt.Some? && world.receipt.value.pending.Some? {
        ok := SettlePending(world.receipt.value.pending.value, bundle, proven);
        PinnedKeepsSchemaFirst(world, identity, patched);
        if !ok {
          return false;
        }
      }
      if world.receipt.Some? {
        ok := RollBack(bundle.image);
        PinnedKeepsSchemaFirst(world, identity, patched);
        if !ok {
          return false;
        }
        var a := world.receipt.value.active.value;
        if a.bundle.image == bundle.image {
          if !SameBundle(bundle, a.bundle) {
            return false;
          }
          ok := Verify(a);
          return ok;
        }
      }
      ok := InstallTarget(bundle, proven);
      PinnedKeepsSchemaFirst(world, identity, patched);
    }

    method InstallTarget(bundle: Bundle, proven: bool) returns (ok: bool)
      requires Sound() && ValidBundle(bundle) && (bundle.baseImage.Some? ==> Unpatched(bundle.baseImage.value, patched))
      requires world.receipt.Some? ==> world.receipt.value.pending.None?
      modifies this
      ensures Sound()
      ensures ok ==> world.receipt.Some? && world.receipt.value.pending.None? && world.receipt.value.active.Some?
      ensures ok ==> SameBundle(bundle, world.receipt.value.active.value.bundle) && Installed(world, world.receipt.value.active.value)
      ensures Startable(old(world), identity.container, bundle, proven) && old(budget) >= 4 ==> ok
      ensures Startable(old(world), identity.container, bundle, proven) ==> world == old(world) || Resumable(world, identity.container, bundle, proven)
    {
      var plan;
      if world.receipt.None? {
        plan := FirstPlan(bundle, proven);
      } else {
        plan := UpgradePlan(world.receipt.value.active.value, bundle);
      }
      if plan.None? {
        return false;
      }
      ok := InstallNew(plan.value, proven);
    }

    /** The uninstall action of one hook run. */
    method Uninstall() returns (ok: bool)
      requires Sound()
      modifies this
      ensures Sound() && SchemaFirst(world, identity, patched)
      // It fails only for want of a write, for a receipt without a provable original, or over an upgrade not in force.
      ensures old(world).receipt.Some? && old(budget) >= 3 ==>
                var r := old(world).receipt.value;
                var p := if r.pending.Some? then r.pending.value else r.active.value;
                ok <==> RestoreTarget(p, true).Some? && !NotInForce(old(world), p)
      // A run stopped on the way leaves the receipt, and repeating it meets the same condition.
      ensures !ok && old(world).receipt.Some? ==>
                var r := old(world).receipt.value;
                var p := if r.pending.Some? then r.pending.value else r.active.value;
                world.receipt == old(world).receipt && (NotInForce(world, p) ==> NotInForce(old(world), p))
      // Success leaves no receipt, and the root's schema and template with its recorded immutable image.
      ensures ok ==> world.receipt.None? && NoRoutes(world.spec)
      ensures ok && old(world).receipt.Some? ==>
                var r := old(world).receipt.value;
                var p := if r.pending.Some? then r.pending.value else r.active.value;
                && world.spec == Root(p).crdSpec && Root(p).originals != []
                && world.template == SetImage(Root(p).template, identity.container, Root(p).originals[0])
    {
      PinnedKeepsSchemaFirst(world, identity, patched);
      if world.receipt.None? {
        return NoRoutes(world.spec);
      }
      var r := world.receipt.value;
      var p := if r.pending.Some? then r.pending.value else r.active.value;
      ghost var before := world;
      ok := Restore(p, true);
      UninstallKeeps(before, world, p, identity, patched);
      PinnedKeepsSchemaFirst(world, identity, patched);
      if !ok || budget == 0 {
        return false;
      }
      UninstallIsRootState(p);
      ChainKeepsRest(p, 0);
      assert p.identity == identity;
      UnwindingUnpatched(world, p, identity, patched);
      budget := budget - 1;
      world := world.(receipt := None);
      PinnedKeepsSchemaFirst(world, identity, patched);
    }

    /** The same bundle brought in again after any number of stops: a last run in which no write is refused finishes. */
    method Repeat(stops: seq<nat>, bundle: Bundle, proven: bool) returns (ok: bool)
      requires Sound() && ValidBundle(bundle) && Resumable(world, identity.container, bundle, proven)
      requires bundle.baseImage.Some? ==> Unpatched(bundle.baseImage.value, patched)
      modifies this
      ensures Sound() && ok && world.receipt.Some? && world.receipt.value.pending.None? && world.receipt.value.active.Some?
      ensures SameBundle(bundle, world.receipt.value.active.value.bundle) && Installed(world, world.receipt.value.active.value)
    {
      for i := 0 to |stops|
        invariant Sound() && Resumable(world, identity.container, bundle, proven)
      {
        budget := stops[i];
        var _ := Reconcile(bundle, proven);
      }
      StepsBounded(world, identity, patched);
      budget := 3 * MAX_DEPTH + 7;
      ok := Reconcile(bundle, proven);
    }

    /** Any sequence of hook runs, each stopping after any number of writes. */
    method RunAll(runs: seq<HookRun>)
      requires Sound()
      requires forall r :: r in runs && r.Reconciling? && r.bundle.baseImage.Some? ==> Unpatched(r.bundle.baseImage.value, patched)
      modifies this
      ensures Sound() && SchemaFirst(world, identity, patched)
    {
      PinnedKeepsSchemaFirst(world, identity, patched);
      for i := 0 to |runs|
        invariant Sound() && SchemaFirst(world, identity, patched)
      {
        budget := runs[i].writes;
        match runs[i] {
          case Reconciling(_, bundle, proven) =>
            assert runs[i] in runs;
            var _ := Reconcile(bundle, proven);
          case Uninstalling(_) =>
            var _ := Uninstall();
        }
      }
    }

    /** Checks the installation against its receipt. */
    method Verify(p: Plan) returns (ok: bool)
      ensures ok <==> HasRoutes(world.spec) && p.identity == identity && Installed(world, p)
    {
      return world.spec.specRoutes == Some(SPEC_ROUTES) && world.spec.statusRoutes == Some(STATUS_ROUTES) && p.identity == identity
             && world.spec == ExpectedSpec(p) && world.template == ExpectedTemplate(p);
    }
  }

  /** What restoring needs of the chain: setting the restored image in any state of the receipt yields the target. */
  lemma RestoreFacts(p: Plan, uninstall: bool)
    requires Valid(p) && RestoreTarget(p, uninstall).Some?
    ensures var t := RestoreTarget(p, uninstall).value;
      && SetImage(p.template, p.identity.container, t.image) == t.template
      && SetImage(ExpectedTemplate(p), p.identity.container, t.image) == t.template
      && (t.stock ==> WithoutRoutes(ExpectedSpec(p)) == t.spec && NoRoutes(t.spec))
      && (!t.stock ==> ExpectedSpec(p) == t.spec && p.template == t.template)
  {
    ChainKeepsRest(p, 0);
    var t := RestoreTarget(p, uninstall).value;
    SetImageTwice(p.template, p.identity.container, p.bundle.image, t.image);
    if !t.stock {
      RollbackIsPreviousState(p);
    }
  }
}
