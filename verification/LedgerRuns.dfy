/** Any number of concurrent allocations over the site ledger, its identity object and the bindings' receipts: every API
    request is one event, and a call may stop after any of them (internal/localcontroller/allocation.go). */
module LedgerRuns {
  import opened Wrappers
  import opened Ipv4
  import opened SiteLedger
  import opened LedgerPools

  datatype Receipt = Receipt(owner: string, ledgerUid: nat, allocation: Allocation)

  datatype Stored = Stored(uid: nat, version: nat, ledger: Ledger)

  /** A local binding object: the source it was accepted from, and the receipt on it. */
  datatype Binding = Binding(owner: string, receipt: Option<Receipt>)

  /** One call for a binding and its source: what it has listed and read, the reservation stored, the allocation returned. */
  datatype Call =
    | Begun(uid: string, owner: string)
    | Listed(uid: string, owner: string, seen: map<string, Binding>)
    | Identified(uid: string, owner: string, seen: map<string, Binding>, identity: Option<nat>)
    | Creating(uid: string, owner: string, seen: map<string, Binding>)
    | Loaded(uid: string, owner: string, seen: map<string, Binding>, identity: Option<nat>, stored: Stored)
    | HasRead(uid: string, owner: string, stored: Stored)
    | Committed(uid: string, owner: string, ledgerUid: nat, allocation: Allocation)
    | Returned(uid: string, owner: string, allocation: Allocation)
    | Refused

  /** `born` are the binding UIDs ever used. */
  datatype System = System(stored: Option<Stored>, identity: Option<nat>, bindings: map<string, Binding>, born: set<string>,
                           calls: map<nat, Call>, clock: nat)

  datatype Event =
    | Bind(uid: string, owner: string)
    | Unbind(uid: string)
    | Begin(id: nat, uid: string)
    | List(id: nat)
    | GetIdentity(id: nat)
    | GetLedger(id: nat)
    | CreateLedger(id: nat)
    | Check(id: nat)
    | Reserve(id: nat, r: Result<Ledger, Refusal>)
    | Sign(id: nat)
    | Stop(id: nat)

  // ---- The requests ----

  ghost predicate Evidence(seen: map<string, Binding>) {
    exists u :: u in seen && seen[u].receipt.Some?
  }

  predicate Matches(b: Binding, u: string, st: Stored) {
    b.receipt.Some? ==>
      var r := b.receipt.value;
      && r.owner == b.owner && r.ledgerUid == st.uid
      && r.owner in st.ledger.allocations && st.ledger.allocations[r.owner] == r.allocation
      && r.owner in st.ledger.bindings && st.ledger.bindings[r.owner] == u
  }

  ghost predicate AllMatch(seen: map<string, Binding>, st: Stored) {
    forall u :: u in seen ==> Matches(seen[u], u, st)
  }

  function At(s: System, id: nat, c: Call): (t: System) {
    s.(calls := s.calls[id := c])
  }

  /** One event; a call that lost a race or meets a mismatch is refused. */
  ghost function Next(s: System, cfg: Config, e: Event): (t: System)
    requires GoodConfig(cfg)
  {
    match e
    case Bind(uid, owner) =>
      if uid == "" || owner == "" || uid in s.born then s
      else s.(bindings := s.bindings[uid := Binding(owner, None)], born := s.born + {uid})
    case Unbind(uid) => s.(bindings := s.bindings - {uid})
    case Begin(id, uid) => if id in s.calls || uid !in s.bindings then s else At(s, id, Begun(uid, s.bindings[uid].owner))
    case Stop(id) => s.(calls := s.calls - {id})
    case _ =>
      if e.id !in s.calls then s
      else
        var (u, c) := Step(s, cfg, e, s.calls[e.id]);
        At(u, e.id, c)
  }

  type Outcome = (System, Call)

  /** Creating the ledger when neither it nor any trace of one was seen. */
  ghost function CreateStep(s: System, c: Call): (r: Outcome)
    requires c.Creating?
  {
    if s.stored.Some? then (s, Refused)
    else
      var st := Stored(s.clock, s.clock, Ledger(map[], map[]));
      (s.(stored := Some(st), clock := s.clock + 1), Loaded(c.uid, c.owner, c.seen, None, st))
  }

  /** The checks on what was read, and the identity of a ledger still empty. */
  ghost function CheckStep(s: System, cfg: Config, c: Call): (r: Outcome)
    requires c.Loaded?
  {
    if !Readable(c.stored.ledger, cfg) || !AllMatch(c.seen, c.stored) then (s, Refused)
    else if c.identity.Some? then (s, if c.identity.value == c.stored.uid then HasRead(c.uid, c.owner, c.stored) else Refused)
    else if c.stored.ledger.allocations != map[] || Evidence(c.seen) || s.identity.Some? then (s, Refused)
    else (s.(identity := Some(c.stored.uid)), HasRead(c.uid, c.owner, c.stored))
  }

  function Swapped(s: System, c: Call, l: Ledger): (u: System)
    requires c.HasRead?
  {
    s.(stored := Some(Stored(c.stored.uid, s.clock, l)), clock := s.clock + 1)
  }

  /** The compare-and-swap on the ledger. */
  ghost function ReserveStep(s: System, cfg: Config, c: Call, r: Result<Ledger, Refusal>): (o: Outcome)
    requires GoodConfig(cfg) && c.HasRead?
  {
    if !Allocates(c.stored.ledger, cfg, c.owner, c.uid, r) then (s, c)
    else if r.Err? || c.owner !in r.value.allocations then (s, Refused)
    else if r.value == c.stored.ledger then (s, Committed(c.uid, c.owner, c.stored.uid, r.value.allocations[c.owner]))
    else if s.stored.None? || s.stored.value.version != c.stored.version then (s, Refused)
    else (Swapped(s, c, r.value), Committed(c.uid, c.owner, c.stored.uid, r.value.allocations[c.owner]))
  }

  /** The receipt on the binding, unless it is gone. */
  ghost function SignStep(s: System, c: Call): (r: Outcome)
    requires c.Committed?
  {
    if c.uid !in s.bindings then (s, Refused)
    else
      var b := s.bindings[c.uid];
      (s.(bindings := s.bindings[c.uid := if b.receipt.Some? then b else b.(receipt := Some(Receipt(c.owner, c.ledgerUid, c.allocation)))]),
       Returned(c.uid, c.owner, c.allocation))
  }

  /** What a call does next to everything but the calls, and where it then is. */
  ghost function Step(s: System, cfg: Config, e: Event, c: Call): (r: Outcome)
    requires GoodConfig(cfg)
  {
    match e
    case List(_) =>
      (s, if !c.Begun? then c
          else if c.uid in s.bindings && s.bindings[c.uid].owner == c.owner then Listed(c.uid, c.owner, s.bindings) else Refused)
    case GetIdentity(_) => (s, if c.Listed? then Identified(c.uid, c.owner, c.seen, s.identity) else c)
    case GetLedger(_) =>
      (s, if !c.Identified? then c
          else if s.stored.Some? then Loaded(c.uid, c.owner, c.seen, c.identity, s.stored.value)
          else if c.identity.Some? || Evidence(c.seen) then Refused else Creating(c.uid, c.owner, c.seen))
    case CreateLedger(_) => if c.Creating? then CreateStep(s, c) else (s, c)
    case Check(_) => if c.Loaded? then CheckStep(s, cfg, c) else (s, c)
    case Reserve(_, r) => if c.HasRead? then ReserveStep(s, cfg, c, r) else (s, c)
    case Sign(_) => if c.Committed? then SignStep(s, c) else (s, c)
    case _ => (s, c)
  }

  const EMPTY := System(None, None, map[], {}, map[], 0)

  ghost function Run(cfg: Config, events: seq<Event>): (s: System)
    requires GoodConfig(cfg)
  {
    if events == [] then EMPTY else Next(Run(cfg, events[..|events| - 1]), cfg, events[|events| - 1])
  }

  // ---- What always holds ----

  ghost predicate Follows(a: Stored, b: Stored) {
    b.uid == a.uid && a.version <= b.version && Grows(a.ledger, b.ledger) && (a.version == b.version ==> a == b)
  }

  /** The allocation of a source is stored for its binding. */
  ghost predicate Reserved(s: System, uid: string, owner: string, ledgerUid: nat, a: Allocation) {
    && s.stored.Some? && s.stored.value.uid == ledgerUid
    && var l := s.stored.value.ledger;
       owner in l.allocations && l.allocations[owner] == a && owner in l.bindings && l.bindings[owner] == uid
  }

  /** A binding keeps its source for as long as it exists, and its UID is never used again. */
  ghost predicate Bound(s: System, uid: string, owner: string) {
    uid != "" && owner != "" && uid in s.born && (uid in s.bindings ==> s.bindings[uid].owner == owner)
  }

  /** Receipts listed earlier still match the ledger. */
  ghost predicate SeenSound(stored: Option<Stored>, seen: map<string, Binding>) {
    forall u :: u in seen && seen[u].receipt.Some? ==> stored.Some? && Matches(seen[u], u, stored.value)
  }

  ghost predicate CallSound(s: System, c: Call) {
    match c
    case Begun(uid, owner) => Bound(s, uid, owner)
    case Listed(uid, owner, seen) => Bound(s, uid, owner) && SeenSound(s.stored, seen)
    case Identified(uid, owner, seen, identity) => Bound(s, uid, owner) && SeenSound(s.stored, seen) && (identity.Some? ==> s.identity == identity)
    case Creating(uid, owner, seen) => Bound(s, uid, owner) && SeenSound(s.stored, seen)
    case Loaded(uid, owner, seen, identity, st) =>
      && Bound(s, uid, owner) && (identity.Some? ==> s.identity == identity) && s.stored.Some? && Follows(st, s.stored.value)
    case HasRead(uid, owner, st) =>
      Bound(s, uid, owner) && s.identity == Some(st.uid) && s.stored.Some? && Follows(st, s.stored.value)
    case Committed(uid, owner, ledgerUid, a) => Bound(s, uid, owner) && Reserved(s, uid, owner, ledgerUid, a)
    case Returned(uid, owner, a) =>
      && Bound(s, uid, owner) && s.stored.Some? && Reserved(s, uid, owner, s.stored.value.uid, a)
      && (uid in s.bindings ==> s.bindings[uid].receipt == Some(Receipt(owner, s.stored.value.uid, a)))
    case Refused => true
  }

  ghost predicate StoreSound(s: System, cfg: Config) {
    && (s.stored.Some? ==> Readable(s.stored.value.ledger, cfg) && s.stored.value.uid < s.clock && s.stored.value.version < s.clock)
    && (s.identity.Some? ==> s.stored.Some? && s.identity.value == s.stored.value.uid)
    && (forall u :: u in s.bindings ==> u != "" && u in s.born && s.bindings[u].owner != "")
    && SeenSound(s.stored, s.bindings)
  }

  ghost predicate Sound(s: System, cfg: Config) {
    StoreSound(s, cfg) && forall id :: id in s.calls ==> CallSound(s, s.calls[id])
  }

  /** What any event may change. */
  ghost predicate Evolves(s: System, t: System) {
    && (s.stored.Some? ==> t.stored.Some? && Follows(s.stored.value, t.stored.value))
    && (s.identity.Some? ==> t.identity == s.identity) && s.born <= t.born
    && (forall u :: u in t.bindings && u in s.born ==> u in s.bindings && Signed(s.bindings[u], t.bindings[u]))
  }

  ghost predicate Signed(a: Binding, b: Binding) {
    b.owner == a.owner && (a.receipt.Some? ==> b.receipt == a.receipt)
  }

  lemma CallStays(s: System, t: System, c: Call)
    requires Evolves(s, t) && CallSound(s, c)
    ensures CallSound(t, c)
  {
  }

  ghost predicate StepSound(s: System, r: Outcome, cfg: Config) {
    StoreSound(r.0, cfg) && Evolves(s, r.0) && CallSound(r.0, r.1) && r.0.calls == s.calls
  }

  lemma EvolvesSelf(s: System)
    ensures Evolves(s, s)
  {
  }

  lemma ReadKeeps(s: System, cfg: Config, e: Event, c: Call)
    requires GoodConfig(cfg) && StoreSound(s, cfg) && CallSound(s, c) && (e.List? || e.GetIdentity? || e.GetLedger?)
    ensures StepSound(s, Step(s, cfg, e, c), cfg)
  {
    EvolvesSelf(s);
    hide Readable, GoodConfig, Matches, Evolves, Grows;
  }

  lemma CreateKeeps(s: System, cfg: Config, c: Call)
    requires GoodConfig(cfg) && StoreSound(s, cfg) && CallSound(s, c) && c.Creating?
    ensures StepSound(s, CreateStep(s, c), cfg)
  {
    EvolvesSelf(s);
    assert Readable(Ledger(map[], map[]), cfg);
    hide Readable, GoodConfig, Matches;
  }

  lemma CheckKeeps(s: System, cfg: Config, c: Call)
    requires GoodConfig(cfg) && StoreSound(s, cfg) && CallSound(s, c) && c.Loaded?
    ensures StepSound(s, CheckStep(s, cfg, c), cfg)
  {
    EvolvesSelf(s);
    CheckedCall(s, c);
    hide Readable, GoodConfig, AllMatch, Evidence, StoreSound, Evolves, CallSound;
    if s.identity.None? {
      Anchored(s, cfg);
    }
    assert CallSound(s, Refused) by { NothingAsked(s); }
  }

  lemma NothingAsked(s: System)
    ensures CallSound(s, Refused)
  {
  }

  /** A loaded ledger under the identity seen, or given to it now, is what the call may go on with. */
  lemma CheckedCall(s: System, c: Call)
    requires CallSound(s, c) && c.Loaded?
    ensures s.stored.Some? && s.stored.value.uid == c.stored.uid
    ensures c.identity == Some(c.stored.uid) ==> CallSound(s, HasRead(c.uid, c.owner, c.stored))
    ensures CallSound(s.(identity := Some(c.stored.uid)), HasRead(c.uid, c.owner, c.stored))
  {
    hide Grows;
  }

  lemma Anchored(s: System, cfg: Config)
    requires StoreSound(s, cfg) && s.identity.None? && s.stored.Some?
    ensures var u := s.(identity := Some(s.stored.value.uid)); StoreSound(u, cfg) && Evolves(s, u)
  {
    hide Readable, SeenSound;
    EvolvesSelf(s);
  }

  lemma ReserveKeeps(s: System, cfg: Config, c: Call, r: Result<Ledger, Refusal>)
    requires GoodConfig(cfg) && SafePools(cfg) && StoreSound(s, cfg) && CallSound(s, c) && c.HasRead?
    ensures StepSound(s, ReserveStep(s, cfg, c, r), cfg)
  {
    hide Readable, SafePools, GoodConfig, Allocates, StoreSound, Evolves, CallSound, Grows, Swapped;
    EvolvesSelf(s);
    NothingAsked(s);
    SameStored(s, c);
    if Allocates(c.stored.ledger, cfg, c.owner, c.uid, r) && r.Ok? {
      KeptReservation(c.stored.ledger, cfg, c.owner, c.uid, r);
      if r.value == c.stored.ledger {
        RetainedReserved(s, c);
      } else if s.stored.value.version == c.stored.version {
        SwapKeeps(s, cfg, c, r);
      }
    }
  }

  lemma SwapKeeps(s: System, cfg: Config, c: Call, r: Result<Ledger, Refusal>)
    requires GoodConfig(cfg) && SafePools(cfg) && StoreSound(s, cfg) && CallSound(s, c) && c.HasRead? && s.stored == Some(c.stored)
    requires Allocates(c.stored.ledger, cfg, c.owner, c.uid, r) && r.Ok? && c.owner in r.value.allocations
    ensures StepSound(s, (Swapped(s, c, r.value), Committed(c.uid, c.owner, c.stored.uid, r.value.allocations[c.owner])), cfg)
  {
    hide Readable, SafePools, GoodConfig, Allocates, StoreSound, Evolves, CallSound, Grows, Swapped;
    Usable(s, cfg, c);
    KeptReservation(c.stored.ledger, cfg, c.owner, c.uid, r);
    SafeAllocation(c.stored.ledger, cfg, c.owner, c.uid, r);
    SwappedStore(s, cfg, c, r.value);
    SwappedCall(s, c, r.value);
    SwappedRest(s, c, r.value);
  }

  lemma Usable(s: System, cfg: Config, c: Call)
    requires StoreSound(s, cfg) && CallSound(s, c) && c.HasRead?
    ensures c.uid != "" && c.owner != "" && (s.stored.Some? ==> Readable(s.stored.value.ledger, cfg))
  {
    hide Readable, SeenSound, Follows;
  }

  /** A call whose version is still the stored one has read the stored ledger. */
  lemma SameStored(s: System, c: Call)
    requires CallSound(s, c) && c.HasRead?
    ensures s.stored.Some? && (s.stored.value.version == c.stored.version ==> s.stored.value == c.stored)
  {
    hide Grows;
  }

  lemma RetainedReserved(s: System, c: Call)
    requires CallSound(s, c) && c.HasRead? && c.owner in c.stored.ledger.allocations
    requires c.owner in c.stored.ledger.bindings && c.stored.ledger.bindings[c.owner] == c.uid
    ensures CallSound(s, Committed(c.uid, c.owner, c.stored.uid, c.stored.ledger.allocations[c.owner]))
  {
  }

  /** The ledger is replaced by a grown, readable one. */
  lemma SwappedStore(s: System, cfg: Config, c: Call, l: Ledger)
    requires StoreSound(s, cfg) && CallSound(s, c) && c.HasRead? && s.stored == Some(c.stored)
    requires Readable(l, cfg) && Grows(c.stored.ledger, l)
    ensures StoreSound(Swapped(s, c, l), cfg) && Evolves(s, Swapped(s, c, l))
  {
    GrownMatches(s, Stored(c.stored.uid, s.clock, l));
    hide Readable, SeenSound, Grows;
  }

  lemma SwappedCall(s: System, c: Call, l: Ledger)
    requires CallSound(s, c) && c.HasRead? && c.owner in l.allocations && c.owner in l.bindings && l.bindings[c.owner] == c.uid
    ensures CallSound(Swapped(s, c, l), Committed(c.uid, c.owner, c.stored.uid, l.allocations[c.owner]))
  {
  }

  lemma SwappedRest(s: System, c: Call, l: Ledger)
    requires c.HasRead?
    ensures Swapped(s, c, l).calls == s.calls
  {
  }

  lemma GrownMatches(s: System, st: Stored)
    requires s.stored.Some? && SeenSound(s.stored, s.bindings) && st.uid == s.stored.value.uid && Grows(s.stored.value.ledger, st.ledger)
    ensures SeenSound(Some(st), s.bindings)
  {
  }

  lemma SignKeeps(s: System, cfg: Config, c: Call)
    requires GoodConfig(cfg) && StoreSound(s, cfg) && CallSound(s, c) && c.Committed?
    ensures StepSound(s, SignStep(s, c), cfg)
  {
    EvolvesSelf(s);
    hide Readable, GoodConfig;
  }

  lemma StepKeeps(s: System, cfg: Config, e: Event, c: Call)
    requires GoodConfig(cfg) && SafePools(cfg) && StoreSound(s, cfg) && CallSound(s, c)
    ensures StepSound(s, Step(s, cfg, e, c), cfg)
  {
    EvolvesSelf(s);
    hide StoreSound, CallSound, GoodConfig, SafePools, Evolves, CreateStep, CheckStep, ReserveStep, SignStep;
    if e.List? || e.GetIdentity? || e.GetLedger? {
      ReadKeeps(s, cfg, e, c);
    } else if e.CreateLedger? && c.Creating? {
      CreateKeeps(s, cfg, c);
    } else if e.Check? && c.Loaded? {
      CheckKeeps(s, cfg, c);
    } else if e.Reserve? && c.HasRead? {
      ReserveKeeps(s, cfg, c, e.r);
    } else if e.Sign? && c.Committed? {
      SignKeeps(s, cfg, c);
    }
  }

  lemma OutsideKeeps(s: System, cfg: Config, e: Event)
    requires GoodConfig(cfg) && StoreSound(s, cfg) && (e.Bind? || e.Unbind? || e.Begin? || e.Stop?)
    ensures StoreSound(Next(s, cfg, e), cfg) && Evolves(s, Next(s, cfg, e))
    ensures forall id :: id in Next(s, cfg, e).calls ==>
              (id in s.calls && Next(s, cfg, e).calls[id] == s.calls[id]) || CallSound(Next(s, cfg, e), Next(s, cfg, e).calls[id])
  {
    EvolvesSelf(s);
    hide Readable, GoodConfig, Step, Matches;
  }

  /** A system's soundness does not look at other calls. */
  lemma Moved(u: System, cfg: Config, id: nat, c: Call, d: Call)
    requires CallSound(u, d)
    ensures CallSound(At(u, id, c), d)
    ensures StoreSound(u, cfg) ==> StoreSound(At(u, id, c), cfg)
  {
  }

  lemma EvolvesMoved(s: System, u: System, id: nat, c: Call)
    requires Evolves(s, u)
    ensures Evolves(s, At(u, id, c))
  {
  }

  lemma NextSound(s: System, cfg: Config, e: Event)
    requires GoodConfig(cfg) && SafePools(cfg) && Sound(s, cfg)
    ensures Sound(Next(s, cfg, e), cfg) && Evolves(s, Next(s, cfg, e))
  {
    var t := Next(s, cfg, e);
    EvolvesSelf(s);
    if e.Bind? || e.Unbind? || e.Begin? || e.Stop? {
      OutsideKeeps(s, cfg, e);
      hide StoreSound, CallSound, GoodConfig, SafePools, Evolves, Step, Next;
      forall id | id in t.calls ensures CallSound(t, t.calls[id]) {
        if id in s.calls && t.calls[id] == s.calls[id] {
          CallStays(s, t, s.calls[id]);
        }
      }
    } else if e.id in s.calls {
      StepKeeps(s, cfg, e, s.calls[e.id]);
      var (u, c) := Step(s, cfg, e, s.calls[e.id]);
      assert t == At(u, e.id, c);
      hide StoreSound, CallSound, GoodConfig, SafePools, Evolves, Step, Next;
      Moved(u, cfg, e.id, c, c);
      EvolvesMoved(s, u, e.id, c);
      forall id | id in t.calls ensures CallSound(t, t.calls[id]) {
        if id != e.id {
          CallStays(s, t, s.calls[id]);
        }
      }
    }
  }

  // ---- Whole runs ----

  /** Over every run with bindings coming and going and calls interleaving and stopping anywhere: the ledger stays readable,
      so blocks stay disjoint; and an allocation is returned only once ledger and receipt both hold it. */
  lemma {:induction false} LedgerStaysSound(cfg: Config, events: seq<Event>)
    requires GoodConfig(cfg) && SafePools(cfg)
    ensures Sound(Run(cfg, events), cfg)
  {
    hide GoodConfig, SafePools;
    if events != [] {
      LedgerStaysSound(cfg, events[..|events| - 1]);
      NextSound(Run(cfg, events[..|events| - 1]), cfg, events[|events| - 1]);
    }
  }

  /** A source keeps its one allocation for ever, even when its binding is gone or replaced. */
  lemma {:induction false} AllocationIsForEver(cfg: Config, events: seq<Event>, more: seq<Event>, owner: string)
    requires GoodConfig(cfg) && SafePools(cfg)
    requires var s := Run(cfg, events); s.stored.Some? && owner in s.stored.value.ledger.allocations
    ensures var s, t := Run(cfg, events), Run(cfg, events + more);
      && t.stored.Some? && t.stored.value.uid == s.stored.value.uid && owner in t.stored.value.ledger.allocations
      && t.stored.value.ledger.allocations[owner] == s.stored.value.ledger.allocations[owner]
  {
    hide GoodConfig, SafePools, Sound, Next;
    if more == [] {
      assert events + more == events;
    } else {
      var front := more[..|more| - 1];
      assert (events + more)[..|events + more| - 1] == events + front;
      AllocationIsForEver(cfg, events, front, owner);
      LedgerStaysSound(cfg, events + front);
      NextSound(Run(cfg, events + front), cfg, more[|more| - 1]);
    }
  }

  /** Whatever two calls returned, in any order and however long ago, one source always got the same allocation. */
  lemma OneAllocationPerSource(cfg: Config, events: seq<Event>, c: nat, d: nat)
    requires GoodConfig(cfg) && SafePools(cfg)
    requires var s := Run(cfg, events);
      && c in s.calls && s.calls[c].Returned? && d in s.calls && s.calls[d].Returned?
    ensures var s := Run(cfg, events);
      s.calls[c].owner == s.calls[d].owner <==> s.calls[c].allocation == s.calls[d].allocation
  {
    LedgerStaysSound(cfg, events);
    var s := Run(cfg, events);
    hide Run;
    assert CallSound(s, s.calls[c]) && CallSound(s, s.calls[d]);
    var l, o, q := s.stored.value.ledger, s.calls[c].owner, s.calls[d].owner;
    if o != q {
      assert OwnersApart(l, o, q);
    }
  }
}
