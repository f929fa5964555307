/** Admission of a VPC's subnets into its prefix claims
    (internal/platformcontroller/reconciler.go, internal/platformplan/plan.go). */
module Admission {
  import opened Wrappers
  import opened Ipv4
  import SiteConfig

  /** A public subnet object; `guarded` is the cleanup finalizer, `vpcUid` the identity recorded in its status. */
  datatype Subnet = Subnet(uid: string, cidr: string, location: string, vpcUid: string, deleting: bool, guarded: bool)

  datatype Claim = Claim(uid: string, cidr: string, location: string)

  /** What admission is decided against: the VPC, the pools of each location, and the locations still detaching. */
  datatype Context = Context(vpcUid: string, pools: map<string, seq<string>>, detaching: set<string>, vpcDeleting: bool)

  /** The one write a pass makes, or the claims and accepted subnets it computed. */
  datatype Outcome = Guard(uid: string) | Unguard(uid: string) | Admitted(claims: seq<Claim>, accepted: seq<Subnet>)

  // ---- One subnet ----

  predicate InPool(p: Prefix, pool: string) {
    var q := SiteConfig.Network(pool);
    q.Some? && q.value.bits <= p.bits && q.value.Contains(p.addr)
  }

  predicate Valid(s: Subnet, ctx: Context) {
    && (s.vpcUid == "" || s.vpcUid == ctx.vpcUid)
    && s.location in ctx.pools
    && SiteConfig.Network(s.cidr).Some?
    && exists pool :: pool in ctx.pools[s.location] && InPool(SiteConfig.Network(s.cidr).value, pool)
  }

  function Own(claims: seq<Claim>, uid: string): (c: Option<Claim>)
    ensures c.Some? ==> c.value in claims && c.value.uid == uid
    ensures c.None? <==> forall d :: d in claims ==> d.uid != uid
  {
    if claims == [] then None else if claims[0].uid == uid then Some(claims[0]) else Own(claims[1..], uid)
  }

  predicate Clash(s: string, t: string) {
    var p, q := ParsePrefix(s), ParsePrefix(t);
    p.Some? && q.Some? && p.value.Overlaps(q.value)
  }

  /** A subnet that holds a claim keeps it only unchanged; a new one must clash with none. */
  ghost predicate Admissible(s: Subnet, claims: seq<Claim>, ctx: Context) {
    && Valid(s, ctx)
    && var own := Own(claims, s.uid);
       if own.Some? then own.value.cidr == s.cidr && own.value.location == s.location
       else s.location !in ctx.detaching && !ctx.vpcDeleting && forall c :: c in claims ==> !Clash(s.cidr, c.cidr)
  }

  function ClaimOf(s: Subnet): (c: Claim) {
    Claim(s.uid, s.cidr, s.location)
  }

  function WithClaim(claims: seq<Claim>, s: Subnet): (r: seq<Claim>) {
    if Own(claims, s.uid).Some? then claims else claims + [ClaimOf(s)]
  }

  // ---- The pass ----

  ghost function Admit(subnets: seq<Subnet>, claims: seq<Claim>, ctx: Context): (o: Outcome) {
    if subnets == [] then Admitted(claims, [])
    else
      var front := Admit(subnets[..|subnets| - 1], claims, ctx);
      if !front.Admitted? then front
      else
        var s := subnets[|subnets| - 1];
        if !s.guarded then (if s.deleting then front else Guard(s.uid))
        else if Admissible(s, front.claims, ctx) then Admitted(WithClaim(front.claims, s), front.accepted + [s])
        else if s.deleting && Own(front.claims, s.uid).None? then Unguard(s.uid)
        else front
  }

  method AllowsCidr(p: Prefix, pools: seq<string>) returns (allowed: bool)
    ensures allowed <==> exists pool :: pool in pools && InPool(p, pool)
  {
    for i := 0 to |pools|
      invariant forall k :: 0 <= k < i ==> !InPool(p, pools[k])
    {
      var inside := InPool(p, pools[i]);
      if inside {
        return true;
      }
    }
    return false;
  }

  method ValidateSubnet(s: Subnet, ctx: Context) returns (valid: bool)
    ensures valid <==> Valid(s, ctx)
  {
    hide InPool;
    if s.vpcUid != "" && s.vpcUid != ctx.vpcUid {
      return false;
    }
    if s.location !in ctx.pools {
      return false;
    }
    var p := SiteConfig.Network(s.cidr);
    if p.None? {
      return false;
    }
    valid := AllowsCidr(p.value, ctx.pools[s.location]);
  }

  method ClashesAny(cidr: string, claims: seq<Claim>) returns (clash: bool)
    ensures clash <==> exists c :: c in claims && Clash(cidr, c.cidr)
  {
    hide Clash;
    for i := 0 to |claims|
      invariant forall k :: 0 <= k < i ==> !Clash(cidr, claims[k].cidr)
    {
      if Clash(cidr, claims[i].cidr) {
        assert claims[i] in claims;
        return true;
      }
    }
    return false;
  }

  /** One subnet: the first reason against it, if any. */
  method CheckSubnet(s: Subnet, claims: seq<Claim>, ctx: Context) returns (ok: bool)
    ensures ok <==> Admissible(s, claims, ctx)
  {
    hide Clash, Valid;
    var valid := ValidateSubnet(s, ctx);
    if !valid {
      return false;
    }
    var own := Own(claims, s.uid);
    if own.Some? {
      return own.value.cidr == s.cidr && own.value.location == s.location;
    }
    if s.location in ctx.detaching || ctx.vpcDeleting {
      return false;
    }
    var clash := ClashesAny(s.cidr, claims);
    return !clash;
  }

  /** The admission pass over the subnets in order. */
  method AdmitSubnets(subnets: seq<Subnet>, claims: seq<Claim>, ctx: Context) returns (o: Outcome)
    ensures o == Admit(subnets, claims, ctx)
  {
    hide Admissible;
    var now := claims;
    var accepted: seq<Subnet> := [];
    for i := 0 to |subnets|
      invariant Admit(subnets[..i], claims, ctx) == Admitted(now, accepted)
    {
      var s := subnets[i];
      assert subnets[..i + 1][..i] == subnets[..i];
      if !s.guarded {
        if s.deleting {
          continue;
        }
        AdmitStops(subnets, i + 1, claims, ctx);
        return Guard(s.uid);
      }
      var ok := CheckSubnet(s, now, ctx);
      var own := Own(now, s.uid);
      if !ok {
        if s.deleting && own.None? {
          AdmitStops(subnets, i + 1, claims, ctx);
          return Unguard(s.uid);
        }
        continue;
      }
      if own.None? {
        now := now + [ClaimOf(s)];
      }
      accepted := accepted + [s];
    }
    assert subnets[..|subnets|] == subnets;
    return Admitted(now, accepted);
  }

  /** A pass that has decided on a write ignores the remaining subnets. */
  lemma {:induction false} AdmitStops(subnets: seq<Subnet>, i: nat, claims: seq<Claim>, ctx: Context)
    requires i <= |subnets| && !Admit(subnets[..i], claims, ctx).Admitted?
    ensures Admit(subnets, claims, ctx) == Admit(subnets[..i], claims, ctx)
    decreases |subnets|
  {
    if i == |subnets| {
      assert subnets[..i] == subnets;
    } else {
      assert subnets[..|subnets| - 1][..i] == subnets[..i];
      AdmitStops(subnets[..|subnets| - 1], i, claims, ctx);
    }
  }

  // ---- What a pass guarantees ----

  /** Claims of different subnets never overlap, and none is held twice. */
  ghost predicate Disjoint(claims: seq<Claim>) {
    && (forall c :: c in claims ==> SiteConfig.Network(c.cidr).Some?)
    && forall i, j :: 0 <= i < j < |claims| ==> claims[i].uid != claims[j].uid && !Clash(claims[i].cidr, claims[j].cidr)
  }

  lemma ClashSymmetric(s: string, t: string)
    ensures Clash(s, t) <==> Clash(t, s)
  {
    hide ParsePrefix;
    var p, q := ParsePrefix(s), ParsePrefix(t);
    if p.Some? && q.Some? {
      OverlapsSymmetric(p.value, q.value);
    }
  }

  lemma WithClaimDisjoint(claims: seq<Claim>, s: Subnet, ctx: Context)
    requires Disjoint(claims) && Admissible(s, claims, ctx)
    ensures Disjoint(WithClaim(claims, s))
  {
    hide Clash, SiteConfig.Network, InPool;
    forall c: Claim ensures Clash(c.cidr, s.cidr) <==> Clash(s.cidr, c.cidr) {
      ClashSymmetric(c.cidr, s.cidr);
    }
  }

  /** A pass only adds claims, keeps them disjoint, and every accepted subnet is present, guarded and holds its claim. */
  lemma {:induction false} AdmitKeepsDisjoint(subnets: seq<Subnet>, claims: seq<Claim>, ctx: Context)
    requires Disjoint(claims) && Admit(subnets, claims, ctx).Admitted?
    ensures var o := Admit(subnets, claims, ctx);
      && claims <= o.claims && Disjoint(o.claims)
      && (forall s :: s in o.accepted ==> s in subnets && s.guarded && ClaimOf(s) in o.claims)
      && (forall c :: c in o.claims && c !in claims ==> exists s :: s in o.accepted && ClaimOf(s) == c)
  {
    hide Admissible, Disjoint;
    if subnets != [] {
      var front, s := subnets[..|subnets| - 1], subnets[|subnets| - 1];
      AdmitKeepsDisjoint(front, claims, ctx);
      var o := Admit(front, claims, ctx);
      if s.guarded && Admissible(s, o.claims, ctx) {
        WithClaimDisjoint(o.claims, s, ctx);
        OwnClaimKept(s, o.claims, ctx);
        forall c | c in WithClaim(o.claims, s) && c !in claims ensures exists t :: t in o.accepted + [s] && ClaimOf(t) == c {
          if c !in o.claims {
            assert s in o.accepted + [s] && ClaimOf(s) == c;
          } else {
            var t :| t in o.accepted && ClaimOf(t) == c;
            assert t in o.accepted + [s];
          }
        }
      }
    }
  }

  lemma OwnClaimKept(s: Subnet, claims: seq<Claim>, ctx: Context)
    requires Admissible(s, claims, ctx)
    ensures ClaimOf(s) in WithClaim(claims, s)
  {
    hide Clash, Valid;
  }
}
