/** Validation and canonical form of destination-route intent
    (integration/kube-ovn/destinationroute/plan.go). */
module DestinationPlan {
  import opened Wrappers
  import opened Ipv4
  import opened Ordering

  datatype Timers = Timers(minRx: int, minTx: int, multiplier: int)

  datatype Intent = Intent(cidr: string, nextHops: seq<string>, timers: Timers, fields: seq<string>)

  /** The digest is injective in the array it is computed over. */
  datatype Digest = Sha256(preimage: seq<Intent>)

  datatype Plan = Plan(routes: seq<Intent>, sessions: map<string, Timers>, hash: Digest)

  datatype Refusal = TooManyPrefixes | BadDestination | Overlapping | BadHopCount | BadTimers
                   | BadHop | ConflictingTimers | BadFieldCount | BadField

  const ALLOWED_FIELDS := {"eth_src", "eth_dst", "ip_proto", "ip_src", "ip_dst", "tp_src", "tp_dst"}

  // ---- What is accepted ----

  predicate GoodDestination(cidr: string) {
    var p := ParsePrefix(cidr);
    && p.Some? && p.value.bits != 0 && p.value.bits != 32
    && PrefixText(Prefix(p.value.Network(), p.value.bits)) == cidr
    && GlobalUnicast(p.value.addr)
  }

  predicate GoodTimers(t: Timers) {
    1 <= t.minRx <= 3600000 && 1 <= t.minTx <= 3600000 && 1 <= t.multiplier <= 255
  }

  predicate GoodHop(hop: string, cidr: string) {
    var a := ParseAddr(hop);
    && a.Some? && GlobalUnicast(a.value)
    && ParsePrefix(cidr).Some? && !ParsePrefix(cidr).value.Contains(a.value)
  }

  ghost predicate GoodIntent(r: Intent) {
    && GoodDestination(r.cidr)
    && 2 <= |r.nextHops| <= 64
    && GoodTimers(r.timers)
    && Distinct(r.nextHops) && (forall h :: h in r.nextHops ==> GoodHop(h, r.cidr))
    && 1 <= |r.fields| <= 7
    && Distinct(r.fields) && (forall f :: f in r.fields ==> f in ALLOWED_FIELDS)
  }

  /** The parsed destination; meaningful for a good destination text only. */
  function Destination(cidr: string): (p: Prefix)
    ensures GoodDestination(cidr) ==> ParsePrefix(cidr) == Some(p) && p.Canonical() && 1 <= p.bits <= 31
  {
    var p := ParsePrefix(cidr);
    if GoodDestination(cidr) then
      PrefixTextInjective(p.value, Prefix(p.value.Network(), p.value.bits));
      assert p.value.Canonical() by { CanonicalNetwork(p.value); }
      p.value
    else
      Prefix(0, 0)
  }

  lemma CanonicalNetwork(p: Prefix)
    requires p.Network() == p.addr
    ensures p.Canonical()
  {
    DivIs(p.addr, Size(p.bits), Block(p.addr, p.bits), 0);
  }

  /** Two intents may be installed together: disjoint destinations, and one set of timers per shared hop. */
  ghost predicate Compatible(r: Intent, s: Intent) {
    && !Destination(r.cidr).Overlaps(Destination(s.cidr))
    && forall h :: h in r.nextHops && h in s.nextHops ==> r.timers == s.timers
  }

  ghost predicate AllGood(input: seq<Intent>) {
    forall k :: 0 <= k < |input| ==> GoodIntent(input[k])
  }

  ghost predicate Acceptable(input: seq<Intent>) {
    |input| <= 256 && AllGood(input) && Pairwise(input, Compatible)
  }

  // ---- The canonical plan ----

  function Cidr(r: Intent): (c: string) {
    r.cidr
  }

  function Normal(r: Intent): (n: Intent) {
    r.(nextHops := Sort(r.nextHops, Self), fields := Sort(r.fields, Self))
  }

  function Normals(input: seq<Intent>): (ns: seq<Intent>)
    ensures |ns| == |input| && forall i :: 0 <= i < |ns| ==> ns[i] == Normal(input[i])
  {
    seq(|input|, i requires 0 <= i < |input| => Normal(input[i]))
  }

  function Sessions(input: seq<Intent>): (m: map<string, Timers>) {
    if input == [] then map[]
    else Sessions(input[..|input| - 1]) + SessionsOf(input[|input| - 1].nextHops, input[|input| - 1].timers)
  }

  function SessionsOf(hops: seq<string>, timers: Timers): (m: map<string, Timers>) {
    map h | h in hops :: timers
  }

  function CanonicalPlan(input: seq<Intent>): (p: Plan) {
    var routes := Sort(Normals(input), Cidr);
    Plan(routes, Sessions(input), Sha256(routes))
  }

  // ---- Compile ----

  /** Checks one next-hop list and records its sessions. */
  method AddHops(r: Intent, sessions: map<string, Timers>) returns (result: Result<map<string, Timers>, Refusal>)
    ensures result.Ok? <==>
            && Distinct(r.nextHops) && (forall h :: h in r.nextHops ==> GoodHop(h, r.cidr))
            && forall h :: h in r.nextHops && h in sessions ==> sessions[h] == r.timers
    ensures result.Ok? ==> result.value == sessions + SessionsOf(r.nextHops, r.timers)
  {
    var hops: set<string> := {};
    hide ParseAddr, ParsePrefix, GoodHop;
    var recorded := sessions;
    for i := 0 to |r.nextHops|
      invariant forall k :: 0 <= k < i ==> r.nextHops[k] in hops
      invariant forall h :: h in hops ==> h in r.nextHops[..i] && GoodHop(h, r.cidr) && (h in sessions ==> sessions[h] == r.timers)
      invariant Distinct(r.nextHops[..i])
      invariant forall h :: h in recorded <==> h in sessions || h in hops
      invariant forall h :: h in recorded ==> recorded[h] == if h in hops then r.timers else sessions[h]
    {
      var hop := r.nextHops[i];
      assert r.nextHops[..i + 1] == r.nextHops[..i] + [hop];
      var good := GoodHop(hop, r.cidr);
      if !good || hop in hops {
        assert hop in r.nextHops;
        return Err(BadHop);
      }
      hops := hops + {hop};
      if hop in recorded && recorded[hop] != r.timers {
        assert hop in r.nextHops;
        return Err(ConflictingTimers);
      }
      recorded := recorded[hop := r.timers];
    }
    assert r.nextHops[..|r.nextHops|] == r.nextHops;
    return Ok(recorded);
  }

  method CheckFields(fields: seq<string>) returns (good: bool)
    ensures good <==> Distinct(fields) && forall f :: f in fields ==> f in ALLOWED_FIELDS
  {
    var seen: set<string> := {};
    for i := 0 to |fields|
      invariant seen == set f | f in fields[..i]
      invariant Distinct(fields[..i]) && forall f :: f in fields[..i] ==> f in ALLOWED_FIELDS
    {
      assert fields[..i + 1] == fields[..i] + [fields[i]];
      if fields[i] !in ALLOWED_FIELDS || fields[i] in seen {
        assert fields[i] in seen ==> fields[i] in fields[..i];
        return false;
      }
      seen := seen + {fields[i]};
    }
    assert fields[..|fields|] == fields;
    return true;
  }

  lemma {:induction false} SessionsMeaning(input: seq<Intent>, h: string)
    ensures h in Sessions(input) <==> exists i :: 0 <= i < |input| && h in input[i].nextHops
    ensures h in Sessions(input) ==> exists i :: 0 <= i < |input| && h in input[i].nextHops && Sessions(input)[h] == input[i].timers
  {
    if input != [] {
      var front := input[..|input| - 1];
      SessionsMeaning(front, h);
      if h in Sessions(front) {
        var i :| 0 <= i < |front| && h in front[i].nextHops && Sessions(front)[h] == front[i].timers;
        assert h in input[i].nextHops;
        assert h !in input[|input| - 1].nextHops ==> Sessions(input)[h] == input[i].timers;
      }
    }
  }

  /** Under compatibility every intent naming a hop agrees with the recorded session. */
  lemma SessionAgrees(input: seq<Intent>, i: int)
    requires Pairwise(input, Compatible)
    requires 0 <= i < |input|
    ensures forall h :: h in input[i].nextHops ==> h in Sessions(input) && Sessions(input)[h] == input[i].timers
  {
    forall h | h in input[i].nextHops
      ensures h in Sessions(input) && Sessions(input)[h] == input[i].timers
    {
      SessionsMeaning(input, h);
      var j :| 0 <= j < |input| && h in input[j].nextHops && Sessions(input)[h] == input[j].timers;
      assert i < j ==> Compatible(input[i], input[j]);
      assert j < i ==> Compatible(input[j], input[i]);
    }
  }

  function Prefixes(input: seq<Intent>): (ps: seq<Prefix>) {
    seq(|input|, i requires 0 <= i < |input| => Destination(input[i].cidr))
  }

  ghost predicate FitsWith(r: Intent, prefixes: seq<Prefix>, sessions: map<string, Timers>) {
    && (forall k :: 0 <= k < |prefixes| ==> !Destination(r.cidr).Overlaps(prefixes[k]))
    && forall h :: h in r.nextHops && h in sessions ==> sessions[h] == r.timers
  }

  ghost predicate Fits(input: seq<Intent>, r: Intent) {
    FitsWith(r, Prefixes(input), Sessions(input))
  }

  lemma FitsWithEarlier(input: seq<Intent>, r: Intent, k: int)
    requires Pairwise(input, Compatible) && Fits(input, r) && 0 <= k < |input|
    ensures Compatible(input[k], r)
  {
    hide Destination, Sessions;
    OverlapsSymmetric(Destination(r.cidr), Destination(input[k].cidr));
    assert Prefixes(input)[k] == Destination(input[k].cidr);
    SessionAgrees(input, k);
  }

  lemma EarlierFit(input: seq<Intent>, r: Intent)
    requires forall k :: 0 <= k < |input| ==> Compatible(input[k], r)
    ensures Fits(input, r)
  {
    hide Destination, Sessions;
    forall k | 0 <= k < |Prefixes(input)| ensures !Destination(r.cidr).Overlaps(Prefixes(input)[k]) {
      OverlapsSymmetric(Destination(r.cidr), Destination(input[k].cidr));
    }
    forall h | h in r.nextHops && h in Sessions(input) ensures Sessions(input)[h] == r.timers {
      SessionsMeaning(input, h);
    }
  }

  /** Extending a compatible list by one intent: what remains to be checked. */
  lemma FitsIsCompatibility(input: seq<Intent>, r: Intent)
    requires Pairwise(input, Compatible)
    ensures Fits(input, r) <==> forall k :: 0 <= k < |input| ==> Compatible(input[k], r)
  {
    hide Fits, Compatible;
    if Fits(input, r) {
      forall k | 0 <= k < |input| ensures Compatible(input[k], r) {
        FitsWithEarlier(input, r, k);
      }
    } else if forall k :: 0 <= k < |input| ==> Compatible(input[k], r) {
      EarlierFit(input, r);
    }
  }

  lemma PairwiseAppended(done: seq<Intent>, r: Intent)
    ensures Pairwise(done + [r], Compatible) <==>
            Pairwise(done, Compatible) && forall k :: 0 <= k < |done| ==> Compatible(done[k], r)
    ensures AllGood(done + [r]) <==> AllGood(done) && GoodIntent(r)
  {
    hide Compatible, GoodIntent;
    var all := done + [r];
    assert forall k :: 0 <= k < |done| ==> all[k] == done[k];
    assert all[|done|] == r;
    if Pairwise(all, Compatible) {
      assert forall k :: 0 <= k < |done| ==> Compatible(all[k], all[|done|]);
    }
  }

  /** What one more intent must satisfy for the list to stay acceptable. */
  lemma AcceptablePrefix(input: seq<Intent>, n: int)
    requires 0 <= n < |input| && AllGood(input[..n]) && Pairwise(input[..n], Compatible)
    ensures Acceptable(input) ==> GoodIntent(input[n]) && Fits(input[..n], input[n])
    ensures GoodIntent(input[n]) && Fits(input[..n], input[n]) ==> AllGood(input[..n + 1]) && Pairwise(input[..n + 1], Compatible)
  {
    hide Compatible, GoodIntent, Fits;
    FitsIsCompatibility(input[..n], input[n]);
    PairwiseAppended(input[..n], input[n]);
    assert input[..n + 1] == input[..n] + [input[n]];
    if Acceptable(input) {
      assert forall k :: 0 <= k < n ==> Compatible(input[k], input[n]);
    }
  }

  method OverlapsAny(cidr: string, prefixes: seq<Prefix>) returns (found: bool)
    ensures found <==> exists k :: 0 <= k < |prefixes| && Destination(cidr).Overlaps(prefixes[k])
  {
    var prefix := Destination(cidr);
    for k := 0 to |prefixes|
      invariant forall l :: 0 <= l < k ==> !prefix.Overlaps(prefixes[l])
    {
      var o := prefix.Overlaps(prefixes[k]);
      if o {
        return true;
      }
    }
    return false;
  }

  /** The checks made on one intent after its destination is parsed, in order. */
  method CheckIntent(r: Intent, prefixes: seq<Prefix>, sessions: map<string, Timers>)
    returns (result: Result<map<string, Timers>, Refusal>)
    ensures result.Ok? <==>
            GoodIntent(r) && FitsWith(r, prefixes, sessions)
    ensures result.Ok? ==> result.value == sessions + SessionsOf(r.nextHops, r.timers)
    ensures result.Err? ==> !result.error.TooManyPrefixes?
  {
    var good := GoodDestination(r.cidr);
    if !good {
      return Err(BadDestination);
    }
    var overlap := OverlapsAny(r.cidr, prefixes);
    if overlap {
      return Err(Overlapping);
    }
    if |r.nextHops| < 2 || |r.nextHops| > 64 {
      return Err(BadHopCount);
    }
    var timers := GoodTimers(r.timers);
    if !timers {
      return Err(BadTimers);
    }
    var added := AddHops(r, sessions);
    if added.Err? {
      return Err(if added.error.BadHop? then BadHop else ConflictingTimers);
    }
    if |r.fields| == 0 || |r.fields| > 7 {
      return Err(BadFieldCount);
    }
    var fields := CheckFields(r.fields);
    if !fields {
      return Err(BadField);
    }
    return Ok(added.value);
  }

  lemma Appended(done: seq<Intent>, r: Intent)
    ensures Prefixes(done + [r]) == Prefixes(done) + [Destination(r.cidr)]
    ensures Normals(done + [r]) == Normals(done) + [Normal(r)]
    ensures Sessions(done + [r]) == Sessions(done) + SessionsOf(r.nextHops, r.timers)
  {
    hide Destination, Normal, SessionsOf;
    assert (done + [r])[..|done|] == done;
  }

  /** Compile accepts exactly the acceptable lists and returns their canonical plan. */
  method Compile(input: seq<Intent>) returns (result: Result<Plan, Refusal>)
    ensures result.Ok? <==> Acceptable(input)
    ensures result.Ok? ==> result.value == CanonicalPlan(input)
    ensures result.Err? && result.error.TooManyPrefixes? <==> |input| > 256
  {
    hide GoodIntent, Destination, Compatible, Normal, SessionsOf, Sessions, Normals, Pairwise, AllGood;
    assert Acceptable(input) <==> |input| <= 256 && AllGood(input) && Pairwise(input, Compatible);
    if |input| > 256 {
      return Err(TooManyPrefixes);
    }
    var prefixes: seq<Prefix> := [];
    var sessions: map<string, Timers> := map[];
    var routes: seq<Intent> := [];
    ghost var done: seq<Intent> := [];
    assert AllGood(done) && Pairwise(done, Compatible) && Sessions(done) == sessions by { NothingYet(); }
    for n := 0 to |input|
      invariant done == input[..n]
      invariant AllGood(done) && Pairwise(done, Compatible)
      invariant prefixes == Prefixes(done) && sessions == Sessions(done) && routes == Normals(done)
    {
      AcceptablePrefix(input, n);
      Appended(done, input[n]);
      assert input[..n + 1] == done + [input[n]];
      var checked := CheckIntent(input[n], prefixes, sessions);
      if checked.Err? {
        return Err(checked.error);
      }
      prefixes := prefixes + [Destination(input[n].cidr)];
      sessions := checked.value;
      routes := routes + [Normal(input[n])];
      done := done + [input[n]];
    }
    assert done == input;
    routes := Sort(routes, Cidr);
    return Ok(Plan(routes, sessions, Sha256(routes)));
  }

  lemma NothingYet()
    ensures AllGood([]) && Pairwise([], Compatible) && Sessions([]) == map[]
  {
  }

  // ---- Canonicity ----

  /** The same intents, ignoring the order of intents, hops and fields. */
  ghost predicate SameIntents(x: seq<Intent>, y: seq<Intent>) {
    multiset(Normals(x)) == multiset(Normals(y))
  }

  /** One intent equals another up to order exactly when their normal forms are equal. */
  lemma NormalIsSetEquality(r: Intent, s: Intent)
    ensures Normal(r) == Normal(s) <==>
            && r.cidr == s.cidr && r.timers == s.timers
            && multiset(r.nextHops) == multiset(s.nextHops) && multiset(r.fields) == multiset(s.fields)
  {
    if multiset(r.nextHops) == multiset(s.nextHops) {
      SortForgetsOrder(r.nextHops, s.nextHops, Self);
    }
    if multiset(r.fields) == multiset(s.fields) {
      SortForgetsOrder(r.fields, s.fields, Self);
    }
    if Normal(r) == Normal(s) {
      assert multiset(r.nextHops) == multiset(Normal(r).nextHops) == multiset(s.nextHops);
      assert multiset(r.fields) == multiset(Normal(r).fields) == multiset(s.fields);
    }
  }

  /** Goodness of one intent survives reordering. */
  lemma GoodNormal(r: Intent)
    ensures GoodIntent(r) <==> GoodIntent(Normal(r))
    ensures forall h :: h in r.nextHops <==> h in Normal(r).nextHops
  {
    SameMembers(r.nextHops, Normal(r).nextHops);
    SameMembers(r.fields, Normal(r).fields);
  }

  lemma CompatibleSeparates()
    ensures Separating(Compatible)
  {
    hide Destination;
    forall r, s
      ensures Compatible(r, s) ==> Compatible(s, r)
      ensures !Compatible(r, r)
    {
      OverlapsSymmetric(Destination(r.cidr), Destination(s.cidr));
      OverlapsSymmetric(Destination(r.cidr), Destination(r.cidr));
    }
  }

  /** Acceptance looks at the set of hops and fields of each intent only. */
  lemma AcceptableNormals(input: seq<Intent>)
    ensures Acceptable(input) <==> Acceptable(Normals(input))
  {
    hide GoodIntent;
    var ns := Normals(input);
    forall i | 0 <= i < |input|
      ensures GoodIntent(input[i]) <==> GoodIntent(ns[i])
      ensures ns[i].cidr == input[i].cidr && ns[i].timers == input[i].timers
      ensures forall h :: h in input[i].nextHops <==> h in ns[i].nextHops
    {
      GoodNormal(input[i]);
    }
    forall i, j | 0 <= i < j < |input|
      ensures Compatible(input[i], input[j]) <==> Compatible(ns[i], ns[j])
    {
      assert forall h :: h in input[i].nextHops && h in input[j].nextHops <==> h in ns[i].nextHops && h in ns[j].nextHops;
    }
  }

  lemma AcceptableForgetsOrder(x: seq<Intent>, y: seq<Intent>)
    requires multiset(x) == multiset(y)
    ensures Acceptable(x) <==> Acceptable(y)
  {
    hide GoodIntent, Compatible;
    CompatibleSeparates();
    PairwiseForgetsOrder(x, y, Compatible);
    SameMembers(x, y);
    assert AllGood(x) <==> forall r :: r in x ==> GoodIntent(r);
    assert AllGood(y) <==> forall r :: r in y ==> GoodIntent(r);
  }

  /** Accepted intents are identified by their destination text. */
  lemma CidrIdentifies(input: seq<Intent>)
    requires Acceptable(input)
    ensures forall r, s :: r in input && s in input && r.cidr == s.cidr ==> r == s
  {
    hide GoodIntent, Destination;
    CompatibleSeparates();
    PairwiseAsSet(input, Compatible);
    forall r, s | r in input && s in input && r != s
      ensures r.cidr != s.cidr
    {
      assert Compatible(r, s);
      assert Destination(r.cidr).Overlaps(Destination(r.cidr));
    }
  }

  lemma SessionsForgetOrder(x: seq<Intent>, y: seq<Intent>)
    requires Acceptable(x) && Acceptable(y) && SameIntents(x, y)
    ensures Sessions(x) == Sessions(y)
  {
    forall h | h in Sessions(x) ensures h in Sessions(y) && Sessions(x)[h] == Sessions(y)[h] {
      SessionCarries(x, y, h);
    }
    forall h | h in Sessions(y) ensures h in Sessions(x) {
      SessionCarries(y, x, h);
    }
  }

  lemma SessionCarries(x: seq<Intent>, y: seq<Intent>, h: string)
    requires Acceptable(y) && SameIntents(x, y) && h in Sessions(x)
    ensures h in Sessions(y) && Sessions(x)[h] == Sessions(y)[h]
  {
    SessionsMeaning(x, h);
    var i :| 0 <= i < |x| && h in x[i].nextHops && Sessions(x)[h] == x[i].timers;
    assert Normals(x)[i] in multiset(Normals(x));
    assert Normal(x[i]) in Normals(y);
    var j :| 0 <= j < |y| && Normals(y)[j] == Normal(x[i]);
    GoodNormal(x[i]);
    GoodNormal(y[j]);
    SessionAgrees(y, j);
  }

  /** Acceptance and the whole plan ignore the order of intents, hops and fields. */
  lemma CompileForgetsOrder(x: seq<Intent>, y: seq<Intent>)
    requires SameIntents(x, y)
    ensures Acceptable(x) <==> Acceptable(y)
    ensures Acceptable(x) ==> CanonicalPlan(x) == CanonicalPlan(y)
  {
    AcceptableNormals(x);
    AcceptableNormals(y);
    AcceptableForgetsOrder(Normals(x), Normals(y));
    if Acceptable(x) {
      CidrIdentifies(Normals(x));
      SortForgetsOrder(Normals(x), Normals(y), Cidr);
      SessionsForgetOrder(x, y);
    }
  }

  /** Equal hashes mean equal intent sets, so different intent sets never share a canonical array. */
  lemma HashIdentifiesIntents(x: seq<Intent>, y: seq<Intent>)
    ensures CanonicalPlan(x).hash == CanonicalPlan(y).hash ==> SameIntents(x, y)
    ensures CanonicalPlan(x).hash == CanonicalPlan(y).hash <==> CanonicalPlan(x).routes == CanonicalPlan(y).routes
  {
    if CanonicalPlan(x).hash == CanonicalPlan(y).hash {
      assert CanonicalPlan(x).hash.preimage == Sort(Normals(x), Cidr);
      assert CanonicalPlan(y).hash.preimage == Sort(Normals(y), Cidr);
    }
  }

  lemma NormalsOfNormals(input: seq<Intent>)
    ensures Normals(Sort(Normals(input), Cidr)) == Sort(Normals(input), Cidr)
  {
    var routes := Sort(Normals(input), Cidr);
    forall i | 0 <= i < |routes| ensures Normal(routes[i]) == routes[i] {
      assert routes[i] in multiset(routes);
      var j :| 0 <= j < |input| && Normals(input)[j] == routes[i];
      NormalIsSetEquality(input[j], Normal(input[j]));
    }
  }

  /** Compiling the routes of a plan gives the same plan. */
  lemma CompileIsIdempotent(input: seq<Intent>)
    requires Acceptable(input)
    ensures Acceptable(CanonicalPlan(input).routes)
    ensures CanonicalPlan(CanonicalPlan(input).routes) == CanonicalPlan(input)
  {
    NormalsOfNormals(input);
    CompileForgetsOrder(input, CanonicalPlan(input).routes);
  }

  // ---- Reachable gateways ----

  /** A gateway address on one connected network: a host, neither the router's own address,
      the network address, nor, when shorter than /31, the broadcast address. */
  predicate GatewayOn(a: Addr, p: Prefix) {
    && p.Contains(a) && a != p.addr && a != p.Network()
    && (p.bits < 31 ==> a != p.Last())
  }

  ghost predicate Reachable(hop: string, networks: seq<string>) {
    && ParseAddr(hop).Some?
    && exists i :: 0 <= i < |networks| && ParsePrefix(networks[i]).Some?
                   && GatewayOn(ParseAddr(hop).value, ParsePrefix(networks[i]).value)
  }

  method ReachableGateway(hop: string, networks: seq<string>) returns (reachable: bool)
    ensures reachable <==> Reachable(hop, networks)
  {
    hide ParseAddr, ParsePrefix;
    var a := ParseAddr(hop);
    if a.None? {
      return false;
    }
    for i := 0 to |networks|
      invariant forall k :: 0 <= k < i && ParsePrefix(networks[k]).Some? ==> !GatewayOn(a.value, ParsePrefix(networks[k]).value)
    {
      var p := ParsePrefix(networks[i]);
      if p.Some? && p.value.Contains(a.value) && a.value != p.value.addr && a.value != p.value.Network() {
        if p.value.bits < 31 && a.value == p.value.Last() {
          continue;
        }
        return true;
      }
    }
    return false;
  }
}
