/** Which subnets a pass admits and what it writes, in the fields of subnets and claims
    (internal/platformcontroller/reconciler.go, internal/platformplan/plan.go). */
module AdmissionMeaning {
  import opened Wrappers
  import opened Ipv4
  import opened Admission
  import SiteConfig
  import SnapshotMeaning

  // ---- One subnet ----

  lemma Larger(p: Prefix, q: Prefix)
    requires p.bits < q.bits
    ensures Size(p.bits) > Size(q.bits)
  {
    hide Size;
    assert Size(p.bits) == 2 * Size(p.bits + 1) by { Sizes(); }
    var k := SizeRatio(p.bits + 1, q.bits);
    MulAtMost(1, k, Size(q.bits));
  }

  /** A prefix lies inside another one. */
  ghost predicate Inside(p: Prefix, q: Prefix) {
    forall a: Addr :: p.Contains(a) ==> q.Contains(a)
  }

  lemma InsideMeans(p: Prefix, q: Prefix)
    ensures q.bits <= p.bits && q.Contains(p.addr) <==> Inside(p, q)
  {
    hide Size;
    if q.bits <= p.bits && q.Contains(p.addr) {
      forall a: Addr | p.Contains(a) ensures q.Contains(a) {
        Nested(q, p, a);
      }
    }
    if Inside(p, q) {
      PrefixRange(p, p.Network());
      PrefixRange(p, p.Last());
      PrefixRange(q, p.Network());
      PrefixRange(q, p.Last());
      assert p.Contains(p.addr);
      if p.bits < q.bits {
        Larger(p, q);
      }
    }
  }

  /** The subnet's prefix lies in one of the pools. */
  ghost predicate Pooled(cidr: string, pools: seq<string>) {
    exists p: Prefix, pool, q: Prefix ::
      SnapshotMeaning.PlainNetwork(cidr, p) && pool in pools && SnapshotMeaning.PlainNetwork(pool, q) && Inside(p, q)
  }

  lemma PooledMeans(cidr: string, pools: seq<string>)
    ensures Pooled(cidr, pools) <==> SiteConfig.Network(cidr).Some? && exists pool :: pool in pools && InPool(SiteConfig.Network(cidr).value, pool)
  {
    hide SiteConfig.Network, SnapshotMeaning.PlainNetwork, Inside;
    if p: Prefix, pool, q: Prefix :| SnapshotMeaning.PlainNetwork(cidr, p) && pool in pools && SnapshotMeaning.PlainNetwork(pool, q) && Inside(p, q) {
      SnapshotMeaning.NetworkMeans(cidr, p);
      SnapshotMeaning.NetworkMeans(pool, q);
      InsideMeans(p, q);
      assert InPool(p, pool);
    }
    if SiteConfig.Network(cidr).Some? {
      var p := SiteConfig.Network(cidr).value;
      SnapshotMeaning.NetworkMeans(cidr, p);
      if pool :| pool in pools && InPool(p, pool) {
        var q := SiteConfig.Network(pool).value;
        SnapshotMeaning.NetworkMeans(pool, q);
        InsideMeans(p, q);
      }
    }
  }

  /** Two printed prefixes that share an address. */
  ghost predicate Sharing(s: string, t: string) {
    exists p: Prefix, q: Prefix, a: Addr :: s == PrefixText(p) && t == PrefixText(q) && p.Contains(a) && q.Contains(a)
  }

  lemma SharingMeans(s: string, t: string)
    ensures Clash(s, t) <==> Sharing(s, t)
  {
    hide PrefixText, ParsePrefix;
    forall p: Prefix | s == PrefixText(p) ensures ParsePrefix(s) == Some(p) {
      ParsePrinted(p);
    }
    forall q: Prefix | t == PrefixText(q) ensures ParsePrefix(t) == Some(q) {
      ParsePrinted(q);
    }
    if ParsePrefix(s).Some? && ParsePrefix(t).Some? {
      OverlapsIffShared(ParsePrefix(s).value, ParsePrefix(t).value);
    }
  }

  /** The first claim of the subnet. */
  ghost predicate ClaimedAs(claims: seq<Claim>, uid: string, c: Claim) {
    exists i :: 0 <= i < |claims| && claims[i] == c && c.uid == uid && forall j :: 0 <= j < i ==> claims[j].uid != uid
  }

  lemma {:induction false} OwnMeans(claims: seq<Claim>, uid: string)
    ensures forall c :: Own(claims, uid) == Some(c) <==> ClaimedAs(claims, uid, c)
  {
    if claims != [] {
      var rest := claims[1..];
      OwnMeans(rest, uid);
      assert forall k :: 0 <= k < |rest| ==> rest[k] == claims[k + 1];
      forall c ensures Own(claims, uid) == Some(c) <==> ClaimedAs(claims, uid, c) {
        if claims[0].uid != uid {
          OwnLater(claims, uid, c);
        }
      }
    }
  }

  lemma OwnLater(claims: seq<Claim>, uid: string, c: Claim)
    requires claims != [] && claims[0].uid != uid
    ensures ClaimedAs(claims, uid, c) <==> ClaimedAs(claims[1..], uid, c)
  {
    var rest := claims[1..];
    if i :| 0 <= i < |rest| && rest[i] == c && c.uid == uid && forall j :: 0 <= j < i ==> rest[j].uid != uid {
      assert claims[i + 1] == c && forall j :: 0 < j < i + 1 ==> claims[j] == rest[j - 1];
    }
    if i :| 0 <= i < |claims| && claims[i] == c && c.uid == uid && forall j :: 0 <= j < i ==> claims[j].uid != uid {
      assert rest[i - 1] == c && forall j :: 0 <= j < i - 1 ==> rest[j] == claims[j + 1];
    }
  }

  /** A subnet is admissible exactly when it is this VPC's or nobody's, at a known location, inside one of its pools, and its
      claim is unchanged, or it has none, may get one and shares no address with any. */
  lemma AdmissibleMeans(s: Subnet, claims: seq<Claim>, ctx: Context)
    ensures Admissible(s, claims, ctx) <==>
            && (s.vpcUid == "" || s.vpcUid == ctx.vpcUid) && s.location in ctx.pools && Pooled(s.cidr, ctx.pools[s.location])
            && (|| (exists c :: ClaimedAs(claims, s.uid, c) && c.cidr == s.cidr && c.location == s.location)
                || (&& (forall c :: c in claims ==> c.uid != s.uid) && s.location !in ctx.detaching && !ctx.vpcDeleting
                    && forall c :: c in claims ==> !Sharing(s.cidr, c.cidr)))
  {
    hide Clash, Sharing, SiteConfig.Network, InPool, Pooled, ClaimedAs;
    OwnMeans(claims, s.uid);
    forall c: Claim ensures Clash(s.cidr, c.cidr) <==> Sharing(s.cidr, c.cidr) {
      SharingMeans(s.cidr, c.cidr);
    }
    if s.location in ctx.pools {
      PooledMeans(s.cidr, ctx.pools[s.location]);
    }
  }

  // ---- The pass ----

  /** What one more subnet does to a pass: nothing once there is a write; an unguarded subnet is guarded first unless it is
      going away; an admissible one is accepted and claimed; one that goes away without a claim is let go. */
  lemma AdmitMeans(front: seq<Subnet>, s: Subnet, claims: seq<Claim>, ctx: Context)
    ensures Admit([], claims, ctx) == Admitted(claims, [])
    ensures var before, after := Admit(front, claims, ctx), Admit(front + [s], claims, ctx);
      && (!before.Admitted? ==> after == before)
      && (before.Admitted? ==>
            var held := exists c :: c in before.claims && c.uid == s.uid;
            && (!s.guarded ==> after == if s.deleting then before else Guard(s.uid))
            && (s.guarded && Admissible(s, before.claims, ctx) ==>
                  after == Admitted(if held then before.claims else before.claims + [Claim(s.uid, s.cidr, s.location)], before.accepted + [s]))
            && (s.guarded && !Admissible(s, before.claims, ctx) ==> after == if s.deleting && !held then Unguard(s.uid) else before))
  {
    hide Admissible;
    assert (front + [s])[..|front|] == front;
  }

  /** A listed, guarded subnet whose claim stands unchanged is accepted in every pass that admits. */
  lemma {:induction false} HolderAccepted(subnets: seq<Subnet>, claims: seq<Claim>, ctx: Context, s: Subnet, c: Claim)
    requires Admit(subnets, claims, ctx).Admitted? && s in subnets && s.guarded
    requires (s.vpcUid == "" || s.vpcUid == ctx.vpcUid) && s.location in ctx.pools && Pooled(s.cidr, ctx.pools[s.location])
    requires ClaimedAs(claims, s.uid, c) && c.cidr == s.cidr && c.location == s.location
    ensures s in Admit(subnets, claims, ctx).accepted
  {
    hide Admissible, ClaimedAs, Pooled;
    var front, last := subnets[..|subnets| - 1], subnets[|subnets| - 1];
    assert subnets == front + [last];
    if s in front {
      HolderAccepted(front, claims, ctx, s, c);
    } else {
      AdmitGrows(front, claims, ctx);
      StillFirst(claims, Admit(front, claims, ctx).claims, s.uid, c);
      AdmissibleMeans(s, Admit(front, claims, ctx).claims, ctx);
    }
  }

  lemma {:induction false} AdmitGrows(subnets: seq<Subnet>, claims: seq<Claim>, ctx: Context)
    requires Admit(subnets, claims, ctx).Admitted?
    ensures claims <= Admit(subnets, claims, ctx).claims
  {
    hide Admissible;
    if subnets != [] {
      AdmitGrows(subnets[..|subnets| - 1], claims, ctx);
    }
  }

  lemma StillFirst(claims: seq<Claim>, more: seq<Claim>, uid: string, c: Claim)
    requires claims <= more && ClaimedAs(claims, uid, c)
    ensures ClaimedAs(more, uid, c)
  {
    var i :| 0 <= i < |claims| && claims[i] == c && c.uid == uid && forall j :: 0 <= j < i ==> claims[j].uid != uid;
    assert more[i] == c && forall j :: 0 <= j < i ==> more[j] == claims[j];
  }
}
