/** Receipts of the native extension: what a plan records, what state it expects, how plans chain, and what restoring
    one yields (internal/vpcctl/native.go, internal/vpcctl/native_lifecycle.go). */
module NativePlan {
  import opened Wrappers

  /** An image reference as text parts; it is immutable when it carries a digest. */
  datatype Image = Image(repository: string, tag: Option<string>, digest: Option<string>)

  /** The Vpc resource definition: its two extension properties, and everything else. */
  datatype CrdSpec = CrdSpec(rest: string, specRoutes: Option<string>, statusRoutes: Option<string>)

  /** The Deployment's pod template: an image per container, and everything else. */
  datatype Template = Template(rest: string, images: map<string, Image>)

  datatype Bundle = Bundle(target: string, sourceCommit: string, baseImage: Option<Image>, image: Image)

  /** The cluster, the two objects by UID, and the Deployment's namespace, name and container. */
  datatype Identity = Identity(cluster: string, crd: string, deployment: string, namespace: string, name: string, container: string)

  datatype Plan = Plan(
    identity: Identity, bundle: Bundle, crdVersion: nat, crdSpec: CrdSpec, deploymentVersion: nat, template: Template,
    originals: seq<Image>, previous: Option<Plan>)

  /** The pinned destination-routes.v1 contract. */
  const SPEC_ROUTES := "destination-routes.v1/spec"
  const STATUS_ROUTES := "destination-routes.v1/status"

  const COMMITS := map["v1.16.3" := "98af25ffae49193a8dc16bbc39bd8ca4110ec367", "v1.16.4" := "a9296ef2a37c6519bc0ecb798082ce139c72f8eb"]

  const MAX_DEPTH := 32

  function Reference(i: Image): (r: Image) {
    if i.digest.Some? then i.(tag := None) else i
  }

  function BaseReference(b: Bundle): (r: Option<Image>) {
    if b.baseImage.Some? then Some(Reference(b.baseImage.value)) else None
  }

  predicate ValidBundle(b: Bundle) {
    && b.target in COMMITS && b.sourceCommit == COMMITS[b.target]
    && b.image.digest.Some?
    && (b.baseImage.Some? ==> b.baseImage.value.digest.Some?)
  }

  // ---- Expected states ----

  function WithRoutes(s: CrdSpec): (t: CrdSpec) {
    s.(specRoutes := Some(SPEC_ROUTES), statusRoutes := Some(STATUS_ROUTES))
  }

  function WithoutRoutes(s: CrdSpec): (t: CrdSpec) {
    s.(specRoutes := None, statusRoutes := None)
  }

  predicate HasRoutes(s: CrdSpec) {
    s.specRoutes == Some(SPEC_ROUTES) && s.statusRoutes == Some(STATUS_ROUTES)
  }

  predicate NoRoutes(s: CrdSpec) {
    s.specRoutes.None? && s.statusRoutes.None?
  }

  function SetImage(t: Template, container: string, image: Image): (u: Template) {
    if container in t.images then t.(images := t.images[container := image]) else t
  }

  function ExpectedSpec(p: Plan): (s: CrdSpec) {
    WithRoutes(p.crdSpec)
  }

  function ExpectedTemplate(p: Plan): (t: Template) {
    SetImage(p.template, p.identity.container, p.bundle.image)
  }

  // ---- Chains ----

  /** A plan that upgrades another continues its exact installed state, on the same objects and the same baseline. */
  predicate Continues(p: Plan, q: Plan) {
    && p.identity == q.identity
    && p.crdSpec == ExpectedSpec(q) && p.template == ExpectedTemplate(q)
    && p.bundle.target == q.bundle.target && BaseReference(p.bundle) == BaseReference(q.bundle)
    && p.originals == [q.bundle.image]
  }

  predicate ValidAt(p: Plan, depth: nat)
    decreases p
  {
    && depth <= MAX_DEPTH
    && ValidBundle(p.bundle)
    && p.identity.container in p.template.images
    && match p.previous
       case None => NoRoutes(p.crdSpec)
       case Some(q) => ValidAt(q, depth + 1) && Continues(p, q)
  }

  predicate Valid(p: Plan) {
    ValidAt(p, 0)
  }

  lemma {:induction false} ValidDeeper(p: Plan, depth: nat, less: nat)
    requires ValidAt(p, depth) && less <= depth
    ensures ValidAt(p, less)
    decreases p
  {
    if p.previous.Some? {
      ValidDeeper(p.previous.value, depth + 1, less + 1);
    }
  }

  /** The previous receipt of a valid one is valid by itself. */
  lemma PreviousValid(p: Plan)
    requires Valid(p) && p.previous.Some?
    ensures Valid(p.previous.value) && Continues(p, p.previous.value)
  {
    ValidDeeper(p.previous.value, 1, 0);
  }

  function Root(p: Plan): (r: Plan)
    ensures r.previous.None?
    decreases p
  {
    if p.previous.Some? then Root(p.previous.value) else p
  }

  function Depth(p: Plan): (d: nat)
    decreases p
  {
    if p.previous.Some? then 1 + Depth(p.previous.value) else 0
  }

  /** How deep a valid chain may still be nested. */
  lemma {:induction false} ValidDepth(p: Plan, depth: nat)
    requires Valid(p)
    ensures ValidAt(p, depth) <==> depth + Depth(p) <= MAX_DEPTH
    decreases p
  {
    if p.previous.Some? {
      PreviousValid(p);
      ValidDepth(p.previous.value, depth + 1);
    } else {
      assert ValidAt(p, 0);
    }
  }

  /** Some receipt of the chain records the image. */
  predicate HasImage(p: Option<Plan>, image: Image)
    decreases p
  {
    p.Some? && (p.value.bundle.image == image || HasImage(p.value.previous, image))
  }

  /** The walk along the chain. */
  method ReceiptHasImage(plan: Option<Plan>, image: Image) returns (found: bool)
    ensures found <==> HasImage(plan, image)
  {
    var p := plan;
    while p.Some?
      invariant HasImage(plan, image) <==> HasImage(p, image)
      decreases p
    {
      if p.value.bundle.image == image {
        return true;
      }
      p := p.value.previous;
    }
    return false;
  }

  method RootPlan(plan: Plan) returns (root: Plan)
    ensures root == Root(plan)
  {
    root := plan;
    while root.previous.Some?
      invariant Root(root) == Root(plan)
      decreases root
    {
      root := root.previous.value;
    }
  }

  // ---- Restoration ----

  /** The schema, template and image restoring leads to, and whether that is the stock controller. */
  datatype Target = Target(spec: CrdSpec, template: Template, image: Image, stock: bool)

  function RestoreTarget(p: Plan, uninstall: bool): (t: Option<Target>) {
    var stock := p.previous.None? || uninstall;
    var target := if uninstall then Root(p) else p;
    if |target.originals| != 1 || target.originals[0].digest.None? then None
    else
      var image := target.originals[0];
      if stock && target.bundle.baseImage.Some? && Reference(image) != Reference(target.bundle.baseImage.value) then None
      else Some(Target(target.crdSpec, SetImage(target.template, target.identity.container, image), image, stock))
  }

  /** Rolling an upgrade back restores exactly the state the previous receipt expects. */
  lemma RollbackIsPreviousState(p: Plan)
    requires Valid(p) && p.previous.Some?
    ensures var t := RestoreTarget(p, false);
      && t.Some? && !t.value.stock && t.value.image == p.previous.value.bundle.image
      && t.value.spec == ExpectedSpec(p.previous.value) && t.value.template == ExpectedTemplate(p.previous.value)
      && t.value.spec == p.crdSpec && t.value.template == p.template
  {
    PreviousValid(p);
  }

  /** Along a valid chain every receipt keeps the root's schema but for the two properties, and the root's template but
      for the one image. */
  lemma {:induction false} ChainKeepsRest(p: Plan, depth: nat)
    requires ValidAt(p, depth)
    ensures var r := Root(p);
      && r.identity == p.identity && NoRoutes(r.crdSpec) && ValidBundle(r.bundle)
      && WithoutRoutes(ExpectedSpec(p)) == r.crdSpec
      && (p.previous.Some? ==> HasRoutes(p.crdSpec))
      && forall image :: SetImage(p.template, p.identity.container, image) == SetImage(r.template, r.identity.container, image)
    decreases p
  {
    if p.previous.Some? {
      var q := p.previous.value;
      ChainKeepsRest(q, depth + 1);
      forall image ensures SetImage(p.template, p.identity.container, image) == SetImage(q.template, q.identity.container, image) {
        SetImageTwice(q.template, q.identity.container, q.bundle.image, image);
      }
    }
  }

  lemma SetImageTwice(t: Template, container: string, a: Image, b: Image)
    ensures SetImage(SetImage(t, container, a), container, b) == SetImage(t, container, b)
  {
    if container in t.images {
      assert t.images[container := a][container := b] == t.images[container := b];
    }
  }

  /** Removing the two properties from any receipt's expected schema gives the root's schema back, so the final schema
      check of an uninstall cannot fail unless something else changed the schema; and the image written is the recorded
      immutable original. */
  lemma UninstallIsRootState(p: Plan)
    requires Valid(p) && RestoreTarget(p, true).Some?
    ensures var t := RestoreTarget(p, true).value; var r := Root(p);
      && t.stock && WithoutRoutes(ExpectedSpec(p)) == t.spec && NoRoutes(t.spec)
      && r.originals == [t.image] && t.template == SetImage(ExpectedTemplate(p), p.identity.container, t.image)
  {
    ChainKeepsRest(p, 0);
    SetImageTwice(p.template, p.identity.container, p.bundle.image, Root(p).originals[0]);
  }
}
