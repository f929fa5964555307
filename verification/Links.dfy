/** One location's end of the protocol: snapshots are issued to it, accepted in order, applied and reported, and the
    authority tests reported revisions (internal/localcontroller/sync.go, internal/localcontroller/reconciler.go,
    internal/platformplan/plan.go). */
module Links {
  import opened Wrappers
  import Snapshot

  type Content = Snapshot.Content

  /** What a location says of itself: the snapshot it last applied, the native subnets it lists and its gateways. */
  datatype Status = Status(applied: Option<nat>, natives: set<string>, gateways: seq<Snapshot.Gateway>)

  const BLANK := Status(None, {}, [])

  /** The snapshots issued to a location in order, the one it has accepted, its statuses so far, the latest of them the
      authority has, and every prefix that may be configured there. */
  datatype Link = Link(issued: seq<Content>, at: Option<nat>, past: seq<Status>, told: Option<nat>, touched: set<string>)

  datatype LinkEvent =
    | Issue(content: Content)
    | Accept(k: nat)
    | Work(cidrs: set<string>, natives: set<string>, gateways: seq<Snapshot.Gateway>)
    | Apply
    | Report(i: nat)

  const NEW_LINK := Link([], None, [], None, {})

  function Now(l: Link): (s: Status) {
    if l.past == [] then BLANK else l.past[|l.past| - 1]
  }

  function Told(l: Link): (s: Status) {
    if l.told.Some? && l.told.value < |l.past| then l.past[l.told.value] else BLANK
  }

  // ---- What snapshots ask for ----

  /** The prefixes a snapshot names, as its own or as remote. */
  function Named(c: Content): (cidrs: set<string>) {
    (set b | b in c.subnets :: b.cidr) + (set r | r in c.remotes :: r.cidr)
  }

  /** What may be configured under a snapshot; a tombstone leaves nothing. */
  function Configured(c: Content): (cidrs: set<string>) {
    if c.deleting then {} else Named(c)
  }

  /** The native subnets a snapshot wants. */
  function Active(c: Content): (names: set<string>) {
    if c.deleting then {} else set b | b in c.subnets && !b.deleting :: Snapshot.NativeName(b.uid)
  }

  predicate AtMost(a: Option<nat>, b: Option<nat>) {
    a.Some? ==> b.Some? && a.value <= b.value
  }

  /** Snapshots are accepted in order, and none that is not deleting after one that is. */
  predicate MayAccept(l: Link, k: nat) {
    && k < |l.issued| && AtMost(l.at, Some(k))
    && (l.at.Some? && l.issued[l.at.value].deleting ==> l.issued[k].deleting)
  }

  /** Work on the accepted snapshot lists only what it creates, and forgets nothing the snapshot wants. */
  predicate MayWork(l: Link, cidrs: set<string>, natives: set<string>) {
    && l.at.Some? && l.at.value < |l.issued|
    && var c := l.issued[l.at.value];
       cidrs <= Configured(c) && natives <= Now(l).natives + Active(c) && Now(l).natives * Active(c) <= natives
  }

  /** A location works on what it accepted and acknowledges it once applied; a report carries any of its statuses not
      older than the one reported before. */
  function LinkNext(l: Link, e: LinkEvent): (m: Link) {
    match e
    case Issue(content) => l.(issued := l.issued + [content])
    case Accept(k) => if MayAccept(l, k) then l.(at := Some(k)) else l
    case Work(cidrs, natives, gateways) =>
      if MayWork(l, cidrs, natives) then
        l.(past := l.past + [Status(Now(l).applied, natives, gateways)], touched := l.touched + cidrs)
      else l
    case Apply =>
      if l.at.Some? && l.at.value < |l.issued| then
        var c := l.issued[l.at.value];
        l.(past := l.past + [Status(l.at, Active(c), Now(l).gateways)], touched := Configured(c))
      else l
    case Report(i) => if i < |l.past| && AtMost(l.told, Some(i)) then l.(told := Some(i)) else l
  }

  function LinkRun(events: seq<LinkEvent>): (l: Link) {
    if events == [] then NEW_LINK else LinkNext(LinkRun(events[..|events| - 1]), events[|events| - 1])
  }

  // ---- The authority's test ----

  predicate SameRevision(c: Content, d: Content) {
    Snapshot.RevisionOf(c) == Snapshot.RevisionOf(d)
  }

  function Latest(l: Link): (c: Content)
    requires l.issued != []
  {
    l.issued[|l.issued| - 1]
  }

  /** The reported revision is that of the current snapshot. */
  predicate Matches(l: Link) {
    var seen := Told(l).applied;
    l.issued != [] && seen.Some? && seen.value < |l.issued| && SameRevision(l.issued[seen.value], Latest(l))
  }

  predicate UpToDate(l: Link) {
    l.issued != [] && Now(l).applied == Some(|l.issued| - 1)
  }

  /** No earlier snapshot has the content of the latest one. */
  predicate LatestIsFresh(issued: seq<Content>) {
    forall k :: 0 <= k < |issued| - 1 ==> !SameRevision(issued[k], issued[|issued| - 1])
  }

  /** Between the latest content and any earlier occurrence of it, nothing was issued that may configure more. */
  ghost predicate Harmless(issued: seq<Content>) {
    forall k, j :: 0 <= k < j < |issued| && SameRevision(issued[k], issued[|issued| - 1]) && (issued[k].deleting ==> issued[j].deleting) ==>
      Configured(issued[j]) <= Configured(issued[|issued| - 1])
  }

  lemma SameRevisionMeans(c: Content, d: Content)
    requires SameRevision(c, d)
    ensures c.subnets == d.subnets && c.remotes == d.remotes && c.deleting == d.deleting
    ensures Named(c) == Named(d) && Configured(c) == Configured(d) && Active(c) == Active(d)
  {
  }

  // ---- What always holds ----

  /** The order of what was reported, applied and accepted. */
  ghost predicate InOrder(l: Link) {
    && (l.at.Some? ==> l.at.value < |l.issued|)
    && (l.at.None? ==> l.past == [] && l.touched == {})
    && (l.told.Some? ==> l.told.value < |l.past|)
    && (forall i, j :: 0 <= i < j < |l.past| ==> AtMost(l.past[i].applied, l.past[j].applied))
    && (forall i :: 0 <= i < |l.past| ==> AtMost(l.past[i].applied, l.at))
  }

  /** Whatever is configured was asked for by a snapshot accepted since the last one applied. */
  ghost predicate Traced(l: Link) {
    forall x :: x in l.touched ==> exists i: nat :: Since(l, i) && x in Configured(l.issued[i])
  }

  predicate Since(l: Link, i: nat) {
    var done := Now(l).applied;
    && i < |l.issued| && AtMost(done, Some(i)) && AtMost(Some(i), l.at)
    && (done.Some? && l.issued[done.value].deleting ==> l.issued[i].deleting)
  }

  /** Applying one snapshot and accepting another later: if the first was deleting, so is the second. */
  ghost predicate NeverRevived(l: Link)
    requires InOrder(l)
  {
    forall i :: 0 <= i < |l.past| && l.past[i].applied.Some? && l.issued[l.past[i].applied.value].deleting ==>
      l.issued[l.at.value].deleting && l.touched == {} && Now(l).natives == {}
  }

  ghost predicate LinkSound(l: Link) {
    InOrder(l) && Traced(l) && NeverRevived(l)
  }

  lemma OrderKept(l: Link, e: LinkEvent)
    requires LinkSound(l)
    ensures InOrder(LinkNext(l, e))
  {
    hide Configured, Active;
  }

  lemma NeverRevivedKept(l: Link, e: LinkEvent)
    requires LinkSound(l)
    ensures InOrder(LinkNext(l, e)) && NeverRevived(LinkNext(l, e))
  {
    OrderKept(l, e);
    hide Named;
    var m := LinkNext(l, e);
    forall i | 0 <= i < |m.past| && m.past[i].applied.Some? && m.issued[m.past[i].applied.value].deleting
      ensures m.issued[m.at.value].deleting && m.touched == {} && Now(m).natives == {}
    {
      assert i < |l.past| ==> m.past[i] == l.past[i];
      if e.Work? && i == |l.past| && l.past != [] {
        assert l.past[|l.past| - 1].applied == m.past[i].applied;
      }
    }
  }

  lemma TracedKept(l: Link, e: LinkEvent)
    requires LinkSound(l)
    ensures Traced(LinkNext(l, e))
  {
    OrderKept(l, e);
    hide Configured, Active;
    var m := LinkNext(l, e);
    forall x | x in m.touched ensures exists i: nat :: Since(m, i) && x in Configured(m.issued[i]) {
      if e.Apply? && m != l {
        assert Since(m, l.at.value);
      } else if x in l.touched {
        var i: nat :| Since(l, i) && x in Configured(l.issued[i]);
        assert Since(m, i) && m.issued[i] == l.issued[i];
      } else {
        assert Since(m, l.at.value);
      }
    }
  }

  /** In every run of one location what is reported was applied and what is applied was accepted, and once a tombstone is
      applied nothing is ever configured again. */
  lemma {:induction false} LinkRunSound(events: seq<LinkEvent>)
    ensures LinkSound(LinkRun(events))
  {
    if events != [] {
      LinkRunSound(events[..|events| - 1]);
      LinkNextSound(LinkRun(events[..|events| - 1]), events[|events| - 1]);
    }
  }

  lemma LinkNextSound(l: Link, e: LinkEvent)
    requires LinkSound(l)
    ensures LinkSound(LinkNext(l, e))
  {
    NeverRevivedKept(l, e);
    TracedKept(l, e);
  }

  /** A status repeats the one before it, or is the acknowledgement of the accepted snapshot. */
  lemma StatusFrom(l: Link, e: LinkEvent, i: nat)
    requires i < |LinkNext(l, e).past| && LinkNext(l, e).past[i].applied.Some?
    ensures (e == Apply && LinkNext(l, e).past[i].applied == l.at) || exists j :: 0 <= j < |l.past| && l.past[j].applied == LinkNext(l, e).past[i].applied
  {
    hide Configured, Active;
    if i < |l.past| {
      assert l.past[i].applied == LinkNext(l, e).past[i].applied;
    } else if e.Work? {
      assert l.past != [] && l.past[|l.past| - 1].applied == LinkNext(l, e).past[i].applied;
    }
  }

  /** Every snapshot a status names was applied at some moment of the run, while it was the accepted one. */
  lemma {:induction false} ReportedWasApplied(events: seq<LinkEvent>, i: nat)
    requires i < |LinkRun(events).past| && LinkRun(events).past[i].applied.Some?
    ensures exists t :: 0 <= t < |events| && events[t] == Apply && LinkRun(events[..t]).at == LinkRun(events).past[i].applied
  {
    hide LinkNext;
    var front, e := events[..|events| - 1], events[|events| - 1];
    StatusFrom(LinkRun(front), e, i);
    if !(e == Apply && LinkRun(events).past[i].applied == LinkRun(front).at) {
      var j :| 0 <= j < |LinkRun(front).past| && LinkRun(front).past[j].applied == LinkRun(events).past[i].applied;
      ReportedWasApplied(front, j);
      var t :| 0 <= t < |front| && front[t] == Apply && LinkRun(front[..t]).at == LinkRun(front).past[j].applied;
      assert front[..t] == events[..t] && events[t] == Apply;
    }
  }

  // ---- When the test can be trusted ----

  /** A match confines a location to what its current snapshot asks for, now and under anything it may still accept. */
  lemma MatchConfines(l: Link)
    requires LinkSound(l) && Matches(l) && Harmless(l.issued)
    ensures l.touched <= Configured(Latest(l))
    ensures forall k :: 0 <= k < |l.issued| && MayAccept(l, k) ==> Configured(l.issued[k]) <= Configured(Latest(l))
  {
    var k := Told(l).applied.value;
    SameRevisionMeans(l.issued[k], Latest(l));
    hide SameRevision, Configured;
    forall x | x in l.touched ensures x in Configured(Latest(l)) {
      var i: nat :| Since(l, i) && x in Configured(l.issued[i]);
      assert AtMost(Told(l).applied, Now(l).applied);
    }
  }

  lemma LinkRunMore(events: seq<LinkEvent>, e: LinkEvent)
    ensures LinkRun(events + [e]) == LinkNext(LinkRun(events), e)
  {
    assert (events + [e])[..|events|] == events;
  }

  /** A location that accepts, applies and reports snapshot k as soon as it is issued, and nothing after it. */
  function Laggard(issued: seq<Content>, k: nat): (events: seq<LinkEvent>) {
    if issued == [] then []
    else
      Laggard(issued[..|issued| - 1], k) + [Issue(issued[|issued| - 1])] +
      if |issued| == k + 1 then [Accept(k)] + [Apply] + [Report(0)] else []
  }

  function Stopped(issued: seq<Content>, k: nat): (l: Link)
    requires k < |issued|
  {
    Link(issued, Some(k), [Status(Some(k), Active(issued[k]), [])], Some(0), Configured(issued[k]))
  }

  lemma Catches(events: seq<LinkEvent>, issued: seq<Content>, k: nat)
    requires LinkRun(events) == NEW_LINK.(issued := issued) && |issued| == k + 1
    ensures LinkRun(events + ([Accept(k)] + [Apply] + [Report(0)])) == Stopped(issued, k)
  {
    hide LinkRun, Configured, Active;
    LinkRunMore(events, Accept(k));
    LinkRunMore(events + [Accept(k)], Apply);
    LinkRunMore(events + [Accept(k)] + [Apply], Report(0));
    assert events + [Accept(k)] + [Apply] + [Report(0)] == events + ([Accept(k)] + [Apply] + [Report(0)]);
  }

  lemma {:induction false} LaggardRuns(issued: seq<Content>, k: nat)
    ensures LinkRun(Laggard(issued, k)) == if |issued| <= k then NEW_LINK.(issued := issued) else Stopped(issued, k)
  {
    if issued != [] {
      var front := issued[..|issued| - 1];
      LaggardRuns(front, k);
      var first := Laggard(front, k) + [Issue(issued[|issued| - 1])];
      LinkRunMore(Laggard(front, k), Issue(issued[|issued| - 1]));
      assert front + [issued[|issued| - 1]] == issued;
      if |issued| == k + 1 {
        Catches(first, issued, k);
      } else {
        assert first + [] == first;
      }
    }
  }

  /** The authority may take the test for completion: whatever the location did, a match means it has completely applied
      the latest snapshot. */
  ghost predicate Trustworthy(issued: seq<Content>) {
    forall events: seq<LinkEvent> :: LinkRun(events).issued == issued && Matches(LinkRun(events)) ==> UpToDate(LinkRun(events))
  }

  lemma FreshMatch(l: Link)
    requires LinkSound(l) && Matches(l) && LatestIsFresh(l.issued)
    ensures UpToDate(l)
  {
    hide SameRevision, Configured, Active;
    assert AtMost(Told(l).applied, Now(l).applied);
  }

  /** A revision names content, not a generation, so the test means completion exactly for histories whose latest content
      is new; for any other, a location that stopped at the earlier occurrence passes it. */
  lemma TrustExactlyFresh(issued: seq<Content>)
    requires issued != []
    ensures Trustworthy(issued) <==> LatestIsFresh(issued)
  {
    hide LinkRun, LinkSound, SameRevision, Active, Configured;
    if LatestIsFresh(issued) {
      forall events: seq<LinkEvent> | LinkRun(events).issued == issued && Matches(LinkRun(events))
        ensures UpToDate(LinkRun(events))
      {
        LinkRunSound(events);
        FreshMatch(LinkRun(events));
      }
    } else {
      var k :| 0 <= k < |issued| - 1 && SameRevision(issued[k], issued[|issued| - 1]);
      LaggardRuns(issued, k);
      var l := LinkRun(Laggard(issued, k));
      assert Matches(l) && !UpToDate(l);
    }
  }

  /** The authority may take the test for withdrawal: whatever the location did, a match means that nothing is configured
      there beyond what the latest snapshot asks for. */
  ghost predicate Confining(issued: seq<Content>) {
    forall events: seq<LinkEvent> :: LinkRun(events).issued == issued && Matches(LinkRun(events)) ==>
      LinkRun(events).touched <= Configured(issued[|issued| - 1])
  }

  /** The test means withdrawal exactly for histories in which nothing issued since an earlier occurrence of the latest
      content may configure more; for any other, a location busy with such a snapshot passes it. */
  lemma ConfinesExactlyHarmless(issued: seq<Content>)
    requires issued != []
    ensures Confining(issued) <==> Harmless(issued)
  {
    if Harmless(issued) {
      forall events: seq<LinkEvent> | LinkRun(events).issued == issued && Matches(LinkRun(events))
        ensures LinkRun(events).touched <= Configured(issued[|issued| - 1])
      {
        LinkRunSound(events);
        MatchConfines(LinkRun(events));
      }
    } else {
      var k, j :| 0 <= k < j < |issued| && SameRevision(issued[k], issued[|issued| - 1]) && (issued[k].deleting ==> issued[j].deleting)
                  && !(Configured(issued[j]) <= Configured(issued[|issued| - 1]));
      Strays(issued, k, j);
    }
  }

  /** The laggard accepts a later snapshot and works on it without getting done. */
  lemma Strays(issued: seq<Content>, k: nat, j: nat)
    requires k < j < |issued| && SameRevision(issued[k], issued[|issued| - 1]) && (issued[k].deleting ==> issued[j].deleting)
    requires !(Configured(issued[j]) <= Configured(issued[|issued| - 1]))
    ensures !Confining(issued)
  {
    LaggardRuns(issued, k);
    var first := Laggard(issued, k);
    var names := Active(issued[k]) + Active(issued[j]);
    var e1, e2 := Accept(j), Work(Configured(issued[j]), names, []);
    LinkRunMore(first, e1);
    LinkRunMore(first + [e1], e2);
    hide LinkRun, SameRevision, Configured, Active;
    var l := LinkRun(first + [e1] + [e2]);
    assert l.issued == issued && Told(l) == Status(Some(k), Active(issued[k]), []) && Configured(issued[j]) <= l.touched;
    assert Matches(l);
  }
}
