/** What receipts require, expect and restore, in images, schema properties and templates
    (internal/vpcctl/native.go, internal/vpcctl/native_lifecycle.go, internal/vpcctl/native_hook.go). */
module NativeMeaning {
  import opened Wrappers
  import opened NativePlan
  import opened NativeHook

  // ---- Images and bundles ----

  /** A digest identifies an image whatever its tag. */
  predicate SameImage(i: Image, j: Image) {
    i.repository == j.repository && i.digest == j.digest && (i.digest.None? ==> i.tag == j.tag)
  }

  lemma ReferenceMeans(i: Image, j: Image)
    ensures Reference(i) == Reference(j) <==> SameImage(i, j)
    ensures Reference(i) == Image(i.repository, if i.digest.Some? then None else i.tag, i.digest)
  {
  }

  /** One of the two pinned releases at its commit, with an image known by digest, and so its base image if there is one. */
  predicate PlainBundle(b: Bundle) {
    && ((b.target == "v1.16.3" && b.sourceCommit == "98af25ffae49193a8dc16bbc39bd8ca4110ec367")
        || (b.target == "v1.16.4" && b.sourceCommit == "a9296ef2a37c6519bc0ecb798082ce139c72f8eb"))
    && b.image.digest.Some? && (b.baseImage.None? || b.baseImage.value.digest.Some?)
  }

  lemma BundleMeans(b: Bundle)
    ensures ValidBundle(b) <==> PlainBundle(b)
  {
    assert COMMITS.Keys == {"v1.16.3", "v1.16.4"};
    assert COMMITS["v1.16.3"] == "98af25ffae49193a8dc16bbc39bd8ca4110ec367";
    assert COMMITS["v1.16.4"] == "a9296ef2a37c6519bc0ecb798082ce139c72f8eb";
  }

  /** The same base image, or none in both. */
  predicate SameBase(b: Bundle, c: Bundle) {
    (b.baseImage.None? && c.baseImage.None?) || (b.baseImage.Some? && c.baseImage.Some? && SameImage(b.baseImage.value, c.baseImage.value))
  }

  lemma SameBundleMeans(b: Bundle, c: Bundle)
    ensures BaseReference(b) == BaseReference(c) <==> SameBase(b, c)
    ensures SameBundle(b, c) <==> b.image == c.image && b.target == c.target && b.sourceCommit == c.sourceCommit && SameBase(b, c)
  {
    if b.baseImage.Some? && c.baseImage.Some? {
      ReferenceMeans(b.baseImage.value, c.baseImage.value);
    }
  }

  // ---- Expected states ----

  /** The schema a receipt expects is the recorded one with the two contract properties. */
  lemma SchemaMeans(p: Plan)
    ensures ExpectedSpec(p) == CrdSpec(p.crdSpec.rest, Some("destination-routes.v1/spec"), Some("destination-routes.v1/status"))
    ensures WithoutRoutes(p.crdSpec) == CrdSpec(p.crdSpec.rest, None, None)
    ensures HasRoutes(p.crdSpec) <==> p.crdSpec == ExpectedSpec(p)
    ensures NoRoutes(p.crdSpec) <==> p.crdSpec.specRoutes.None? && p.crdSpec.statusRoutes.None?
  {
  }

  /** The template is the recorded one with one container's image replaced. */
  lemma TemplateMeans(t: Template, container: string, image: Image)
    ensures var u := SetImage(t, container, image);
      && u.rest == t.rest && u.images.Keys == t.images.Keys
      && forall c :: c in t.images ==> u.images[c] == if c == container then image else t.images[c]
    ensures forall p: Plan :: ExpectedTemplate(p) == SetImage(p.template, p.identity.container, p.bundle.image)
  {
  }

  // ---- Chains ----

  /** A receipt and those before it, latest first. */
  function Chain(p: Plan): (c: seq<Plan>)
    ensures |c| >= 1 && c[0] == p
    decreases p
  {
    [p] + if p.previous.Some? then Chain(p.previous.value) else []
  }

  lemma ChainTail(p: Plan)
    ensures p.previous.Some? ==> Chain(p)[1..] == Chain(p.previous.value)
    ensures p.previous.None? ==> Chain(p) == [p]
  {
  }

  /** The receipt is made on the installed state of the one before: the same objects, release and base image, that state as its
      recorded one, and that one's image as the original to return to. */
  predicate MadeOn(p: Plan, q: Plan) {
    && p.identity == q.identity && p.bundle.target == q.bundle.target && SameBase(p.bundle, q.bundle) && p.originals == [q.bundle.image]
    && p.crdSpec == CrdSpec(q.crdSpec.rest, Some("destination-routes.v1/spec"), Some("destination-routes.v1/status"))
    && p.template == SetImage(q.template, q.identity.container, q.bundle.image)
  }

  lemma ContinuesMeans(p: Plan, q: Plan)
    ensures Continues(p, q) <==> MadeOn(p, q)
  {
    SameBundleMeans(p.bundle, q.bundle);
    SchemaMeans(q);
  }

  ghost predicate PlainPlan(p: Plan) {
    PlainBundle(p.bundle) && p.identity.container in p.template.images
  }

  ghost predicate PlainChain(c: seq<Plan>) {
    && (forall i :: 0 <= i < |c| ==> PlainPlan(c[i]))
    && (forall i :: 0 <= i < |c| - 1 ==> MadeOn(c[i], c[i + 1]))
    && (c != [] ==> c[|c| - 1].crdSpec.specRoutes.None? && c[|c| - 1].crdSpec.statusRoutes.None?)
  }

  lemma {:induction false} ValidAtMeans(p: Plan, depth: nat)
    ensures ValidAt(p, depth) <==> depth + |Chain(p)| <= 33 && PlainChain(Chain(p))
    decreases p
  {
    hide MadeOn, PlainPlan, Continues, ValidBundle, PlainBundle;
    PlanMeans(p);
    ChainTail(p);
    if p.previous.Some? {
      var q := p.previous.value;
      ValidAtMeans(q, depth + 1);
      ContinuesMeans(p, q);
      PlainTail(Chain(p));
    }
  }

  lemma PlanMeans(p: Plan)
    ensures PlainPlan(p) <==> ValidBundle(p.bundle) && p.identity.container in p.template.images
  {
    BundleMeans(p.bundle);
  }

  lemma PlainTail(c: seq<Plan>)
    requires |c| >= 2
    ensures PlainChain(c) <==> PlainPlan(c[0]) && MadeOn(c[0], c[1]) && PlainChain(c[1..])
  {
    hide MadeOn, PlainPlan;
    var d := c[1..];
    assert forall i :: 0 <= i < |d| ==> d[i] == c[i + 1];
    assert forall i :: 1 <= i < |c| ==> c[i] == d[i - 1];
  }

  /** A receipt is valid exactly when it has at most 32 others below it, each names a pinned bundle and an existing container,
      each is made on the one before, and the first was made on a schema without the extension. */
  lemma ValidMeans(p: Plan)
    ensures Valid(p) <==> |Chain(p)| <= 33 && PlainChain(Chain(p))
  {
    ValidAtMeans(p, 0);
  }

  lemma ChainOne(p: Plan, k: nat)
    ensures p.previous.Some? && k + 1 < |Chain(p)| ==> k < |Chain(p.previous.value)| && Chain(p)[k + 1] == Chain(p.previous.value)[k]
    ensures |Chain(p)| == if p.previous.Some? then |Chain(p.previous.value)| + 1 else 1
  {
  }

  /** The chain's last receipt, its length, whether it records an image, and the nearest receipt that does. */
  lemma {:induction false} ChainMeans(p: Plan, image: Image)
    ensures Root(p) == Chain(p)[|Chain(p)| - 1] && Depth(p) == |Chain(p)| - 1
    ensures HasImage(Some(p), image) <==> exists q :: q in Chain(p) && q.bundle.image == image
    ensures exists i :: 0 <= i < |Chain(p)| && NearestAt(p, image, i)
    decreases p
  {
    ChainTail(p);
    if p.previous.Some? {
      ChainMeans(p.previous.value, image);
      assert Chain(p) == [p] + Chain(p.previous.value);
      NearestMeans(p, image);
    } else {
      assert NearestAt(p, image, 0);
    }
  }

  lemma NearestMeans(p: Plan, image: Image)
    requires p.previous.Some? && exists i :: 0 <= i < |Chain(p.previous.value)| && NearestAt(p.previous.value, image, i)
    ensures exists i :: 0 <= i < |Chain(p)| && NearestAt(p, image, i)
  {
    var q := p.previous.value;
    var i :| 0 <= i < |Chain(q)| && NearestAt(q, image, i);
    if p.bundle.image == image {
      assert NearestAt(p, image, 0);
    } else {
      forall k: nat | k < |Chain(q)| ensures k + 1 < |Chain(p)| && Chain(p)[k + 1] == Chain(q)[k] {
        ChainOne(p, k);
      }
      hide Chain;
      assert NearestAt(p, image, i + 1) by {
        forall k | 0 <= k < i + 1 ensures Chain(p)[k].bundle.image != image {
          if k > 0 {
            assert Chain(p)[(k - 1) + 1] == Chain(q)[k - 1];
          }
        }
        ChainOne(p, i);
      }
    }
  }

  /** The receipt found is the first of the chain with the image, or the last one. */
  ghost predicate NearestAt(p: Plan, image: Image, i: int)
    requires 0 <= i < |Chain(p)|
  {
    && Nearest(p, image) == Chain(p)[i] && (forall j :: 0 <= j < i ==> Chain(p)[j].bundle.image != image)
    && (Chain(p)[i].bundle.image == image || i == |Chain(p)| - 1)
  }

  // ---- Originals and restoration ----

  /** The immutable image a stock controller is known by: its own, if it has a digest and is the bundle's base where there is
      one; otherwise the base, if every running Pod proves it. */
  lemma OriginalMeans(image: Image, bundle: Bundle, proven: bool, o: Image)
    ensures Original(image, bundle, proven) == Some(o) <==>
            if image.digest.Some? then (bundle.baseImage.None? || SameImage(image, bundle.baseImage.value)) && o == Image(image.repository, None, image.digest)
            else
              && bundle.baseImage.Some? && proven
              && o == Image(bundle.baseImage.value.repository, if bundle.baseImage.value.digest.Some? then None else bundle.baseImage.value.tag,
                            bundle.baseImage.value.digest)
  {
    if bundle.baseImage.Some? {
      ReferenceMeans(image, bundle.baseImage.value);
    }
  }

  /** Restoring leads to the recorded schema and template of the receipt, or of the chain's first one when uninstalling, with the
      one recorded immutable original image, which must be the base image when the stock controller is restored. */
  lemma RestoreMeans(p: Plan, uninstall: bool, t: Target)
    ensures var r := if uninstall then Chain(p)[|Chain(p)| - 1] else p;
      RestoreTarget(p, uninstall) == Some(t) <==>
        && r.originals == [t.image] && t.image.digest.Some? && (t.stock <==> uninstall || p.previous.None?)
        && (t.stock && r.bundle.baseImage.Some? ==> SameImage(t.image, r.bundle.baseImage.value))
        && t.spec == r.crdSpec && t.template == SetImage(r.template, r.identity.container, t.image)
  {
    ChainMeans(p, p.bundle.image);
    var r := if uninstall then Root(p) else p;
    if |r.originals| == 1 {
      assert r.originals == [r.originals[0]];
      if r.bundle.baseImage.Some? {
        ReferenceMeans(r.originals[0], r.bundle.baseImage.value);
      }
    }
  }

  // ---- What always holds ----

  /** A container that runs one of the patched images does so under both contract properties. */
  lemma SchemaFirstMeans(w: World, identity: Identity, patched: set<string>)
    ensures SchemaFirst(w, identity, patched) <==>
            (identity.container in w.template.images && w.template.images[identity.container].digest.Some?
             && w.template.images[identity.container].digest.value in patched ==>
               w.spec.specRoutes == Some("destination-routes.v1/spec") && w.spec.statusRoutes == Some("destination-routes.v1/status"))
  {
  }

  // ---- Where a run can start ----

  /** A plan can be installed on its own result, on its half-way state, or on the untouched state it was made from, as long as the
      image to return to is known. */
  lemma InstallableMeans(w: World, p: Plan, proven: bool)
    ensures var schema := w.spec == ExpectedSpec(p); var image := w.template == ExpectedTemplate(p);
      Installable(w, p, proven) <==>
        || (schema && image)
        || (&& w.template == p.template && (schema || (w.spec == p.crdSpec && !image && w.specVersion == p.crdVersion && w.templateVersion == p.deploymentVersion))
            && (p.previous.Some? || (p.identity.container in p.template.images
                                     && exists o :: Original(p.template.images[p.identity.container], p.bundle, proven) == Some(o))))
  {
    hide Original, ExpectedSpec, ExpectedTemplate;
  }

  lemma UpgradesMeans(a: Plan, bundle: Bundle)
    ensures Upgrades(a, bundle) <==>
            bundle.target == a.bundle.target && SameBase(bundle, a.bundle) && bundle.image != a.bundle.image && |Chain(a)| <= 32
  {
    SameBundleMeans(bundle, a.bundle);
    ChainMeans(a, a.bundle.image);
  }

  lemma InstallsMeans(w: World, container: string, bundle: Bundle, proven: bool)
    ensures Installs(w, container, bundle, proven) <==>
            && w.spec.specRoutes.None? && w.spec.statusRoutes.None? && container in w.template.images
            && exists o :: Original(w.template.images[container], bundle, proven) == Some(o)
  {
    hide Original;
  }
}
