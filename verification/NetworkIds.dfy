/** The sharded network identifier allocator (internal/platformcontroller/networkid.go) as a step
    machine: any number of calls interleave at every API request, and any call may stop after any of
    them, which is also what a lost response looks like to the caller. */
module NetworkIds {
  import opened Wrappers
  import opened Ordering

  const MAX_ID := 16777215

  /** One claim shard: its resource version and the identifiers retained in it. */
  datatype ClaimShard = ClaimShard(version: nat, claims: map<string, int>)

  datatype Sequence = Sequence(uid: nat, version: nat, next: int)

  /** The registry namespace. The clock hands out unique identities and resource versions. */
  datatype Store = Store(shards: map<string, ClaimShard>, anchor: Option<nat>, sequence: Option<Sequence>, clock: nat)

  datatype Failure = DamagedClaim | DuplicateId | SequenceMissing | SequenceInvalid | SequenceRegressed | AnchorMissing
                   | IdentityChanged | Exhausted | WriteRefused | Stopped

  /** How far one call has come, with what it has read. */
  datatype Phase =
    | Idle
    | Started(keys: seq<string>)
    | Listed(keys: seq<string>, seen: map<string, ClaimShard>)
    | AnchorRead(keys: seq<string>, seen: map<string, ClaimShard>, anchor: Option<nat>)
    | Creating(keys: seq<string>, seen: map<string, ClaimShard>)
    | Anchoring(keys: seq<string>, seen: map<string, ClaimShard>, sequence: Sequence)
    | Ready(keys: seq<string>, seen: map<string, ClaimShard>, sequence: Sequence)
    | Reserved(keys: seq<string>, seen: map<string, ClaimShard>, result: map<string, int>, todo: set<string>)
    | Done(keys: seq<string>, result: map<string, int>)
    | Failed(why: Failure)

  /** The store, every call in flight, and the history of identifiers ever reserved, each with its key. */
  datatype System = System(store: Store, calls: map<nat, Phase>, issued: map<int, string>)

  datatype Event =
    | Call(id: nat, keys: seq<string>)
    | List(id: nat)
    | GetAnchor(id: nat)
    | GetSequence(id: nat)
    | CreateSequence(id: nat)
    | CreateAnchor(id: nat)
    | CreateShard(id: nat, shard: string)
    | Reserve(id: nat)
    | Record(id: nat, shard: string)
    | Stop(id: nat)
    | DeleteSequence

  // ---- What a call computes between requests ----

  predicate GoodClaim(place: string -> string, shard: string, key: string, id: int) {
    key != "" && place(key) == shard && 1 <= id <= MAX_ID
  }

  predicate AllGood(place: string -> string, seen: map<string, ClaimShard>) {
    forall s, k | s in seen && k in seen[s].claims :: GoodClaim(place, s, k, seen[s].claims[k])
  }

  predicate NoDuplicate(seen: map<string, ClaimShard>) {
    forall s, k, t, l | s in seen && k in seen[s].claims && t in seen && l in seen[t].claims && seen[s].claims[k] == seen[t].claims[l] ::
      s == t && k == l
  }

  /** Some retained identifier is at least n. */
  predicate AnyAtLeast(seen: map<string, ClaimShard>, n: int) {
    exists s, k | s in seen && k in seen[s].claims :: seen[s].claims[k] >= n
  }

  predicate Claimed(place: string -> string, seen: map<string, ClaimShard>, key: string) {
    place(key) in seen && key in seen[place(key)].claims
  }

  /** The keys without a retained claim, each once. */
  function Unclaimed(place: string -> string, keys: seq<string>, seen: map<string, ClaimShard>): (u: seq<string>)
    ensures Distinct(u) && forall k :: k in u <==> k in keys && !Claimed(place, seen, k)
  {
    if keys == [] then []
    else
      var front, last := Unclaimed(place, keys[..|keys| - 1], seen), keys[|keys| - 1];
      if last in front || Claimed(place, seen, last) then front else front + [last]
  }

  function Missing(place: string -> string, keys: seq<string>, seen: map<string, ClaimShard>): (m: seq<string>)
    ensures Distinct(m) && forall k :: k in m <==> k in keys && !Claimed(place, seen, k)
  {
    var u := Unclaimed(place, keys, seen);
    SameMembers(Sort(u, Self), u);
    Sort(u, Self)
  }

  function Position(s: seq<string>, k: string): (i: nat)
    requires k in s
    ensures i < |s| && s[i] == k
  {
    if s[0] == k then 0 else 1 + Position(s[1..], k)
  }

  /** Every key's identifier: the retained one, or the next of the reserved range. */
  function Results(place: string -> string, keys: seq<string>, seen: map<string, ClaimShard>, next: int): (r: map<string, int>) {
    var missing := Missing(place, keys, seen);
    map k | k in keys :: if k in missing then next + Position(missing, k) else RetainedId(place, seen, k)
  }

  function RetainedId(place: string -> string, seen: map<string, ClaimShard>, k: string): (id: int) {
    if Claimed(place, seen, k) then seen[place(k)].claims[k] else 0
  }

  function ShardsOf(place: string -> string, keys: seq<string>): (s: set<string>) {
    set k | k in keys :: place(k)
  }

  /** The part of the results recorded in one shard. */
  function InShard(place: string -> string, result: map<string, int>, shard: string): (claims: map<string, int>) {
    map k | k in result && place(k) == shard :: result[k]
  }

  /** The call once sequence and anchor agree. */
  function Settled(place: string -> string, keys: seq<string>, seen: map<string, ClaimShard>, sequence: Sequence): (p: Phase) {
    var missing := Missing(place, keys, seen);
    if missing == [] then Done(keys, Results(place, keys, seen, 0))
    else if sequence.next + |missing| > MAX_ID + 1 then Failed(Exhausted)
    else Ready(keys, seen, sequence)
  }

  /** The checks on a sequence just read or created. */
  function Checked(place: string -> string, keys: seq<string>, seen: map<string, ClaimShard>, anchor: Option<nat>, sequence: Sequence): (p: Phase) {
    if !(1 <= sequence.next <= MAX_ID + 1) then Failed(SequenceInvalid)
    else if AnyAtLeast(seen, sequence.next) then Failed(SequenceRegressed)
    else if anchor.None? then
      if sequence.next != 1 || AnyAtLeast(seen, 1) then Failed(AnchorMissing) else Anchoring(keys, seen, sequence)
    else if anchor.value != sequence.uid then Failed(IdentityChanged)
    else Settled(place, keys, seen, sequence)
  }

  // ---- The requests ----

  /** The store and the calling phase after one request; None when the call is not at this point. */
  function Request(place: string -> string, store: Store, p: Phase, event: Event): (r: Option<(Store, Phase)>) {
    match (event, p)
    case (Call(_, keys), Idle) =>
      if "" in keys then None else Some((store, Started(keys)))
    case (List(_), Started(keys)) =>
      Some((store,
        if !AllGood(place, store.shards) then Failed(DamagedClaim)
        else if !NoDuplicate(store.shards) then Failed(DuplicateId)
        else Listed(keys, store.shards)))
    case (GetAnchor(_), Listed(keys, seen)) =>
      Some((store, AnchorRead(keys, seen, store.anchor)))
    case (GetSequence(_), AnchorRead(keys, seen, anchor)) =>
      Some((store,
        if store.sequence.Some? then Checked(place, keys, seen, anchor, store.sequence.value)
        else if anchor.Some? || AnyAtLeast(seen, 1) then Failed(SequenceMissing)
        else Creating(keys, seen)))
    case (CreateSequence(_), Creating(keys, seen)) =>
      if store.sequence.Some? then Some((store, Failed(WriteRefused)))
      else
        var sequence := Sequence(store.clock, store.clock, 1);
        Some((store.(sequence := Some(sequence), clock := store.clock + 1), Checked(place, keys, seen, None, sequence)))
    case (CreateAnchor(_), Anchoring(keys, seen, sequence)) =>
      if store.anchor.Some? then Some((store, Failed(WriteRefused)))
      else Some((store.(anchor := Some(sequence.uid)), Settled(place, keys, seen, sequence)))
    case (CreateShard(_, shard), Ready(keys, seen, sequence)) =>
      if shard !in ShardsOf(place, keys) || shard in seen then None
      else if shard in store.shards then Some((store, Failed(WriteRefused)))
      else
        var empty := ClaimShard(store.clock, map[]);
        Some((store.(shards := store.shards[shard := empty], clock := store.clock + 1), Ready(keys, seen[shard := empty], sequence)))
    case (Reserve(_), Ready(keys, seen, sequence)) =>
      if !(ShardsOf(place, keys) <= seen.Keys) then None
      else if store.sequence.None? || store.sequence.value.uid != sequence.uid || store.sequence.value.version != sequence.version then
        Some((store, Failed(WriteRefused)))
      else
        var missing := Missing(place, keys, seen);
        Some((store.(sequence := Some(Sequence(sequence.uid, store.clock, sequence.next + |missing|)), clock := store.clock + 1),
              Reserved(keys, seen, Results(place, keys, seen, sequence.next), ShardsOf(place, missing))))
    case (Record(_, shard), Reserved(keys, seen, result, todo)) =>
      if shard !in todo || shard !in seen then None
      else if shard !in store.shards || store.shards[shard].version != seen[shard].version then Some((store, Failed(WriteRefused)))
      else
        var written := ClaimShard(store.clock, seen[shard].claims + InShard(place, result, shard));
        var left := todo - {shard};
        Some((store.(shards := store.shards[shard := written], clock := store.clock + 1),
              if left == {} then Done(keys, result) else Reserved(keys, seen, result, left)))
    case (Stop(_), _) =>
      Some((store, Failed(Stopped)))
    case _ => None
  }

  /** The reserved range, each identifier with the key it is reserved for. */
  function Range(missing: seq<string>, next: int): (ids: map<int, string>)
    requires Distinct(missing)
    ensures forall id :: id in ids <==> next <= id < next + |missing|
    ensures forall id :: id in ids ==> ids[id] == missing[id - next]
    ensures forall k :: k in missing ==> next + Position(missing, k) in ids && ids[next + Position(missing, k)] == k
  {
    if missing == [] then map[]
    else
      var front, last := missing[..|missing| - 1], missing[|missing| - 1];
      assert last !in front;
      assert forall k :: k in missing ==> k in front || k == last;
      Range(front, next)[next + |missing| - 1 := last]
  }

  /** Identifiers reserved by this request. */
  function Fresh(place: string -> string, p: Phase, after: Phase): (ids: map<int, string>) {
    if p.Ready? && after.Reserved? then Range(Missing(place, p.keys, p.seen), p.sequence.next) else map[]
  }

  function PhaseOf(s: System, id: nat): (p: Phase) {
    if id in s.calls then s.calls[id] else Idle
  }

  /** One event; an event that does not apply changes nothing. */
  function Next(place: string -> string, s: System, event: Event): (t: System) {
    if event.DeleteSequence? then s.(store := s.store.(sequence := None))
    else
      var p := PhaseOf(s, event.id);
      var r := Request(place, s.store, p, event);
      if r.None? then s
      else System(r.value.0, s.calls[event.id := r.value.1], s.issued + Fresh(place, p, r.value.1))
  }

  function Run(place: string -> string, s: System, events: seq<Event>): (t: System) {
    if events == [] then s else Next(place, Run(place, s, events[..|events| - 1]), events[|events| - 1])
  }

  const EMPTY := System(Store(map[], None, None, 0), map[], map[])

  // ---- What always holds ----

  ghost predicate Recorded(place: string -> string, store: Store, key: string, id: int) {
    place(key) in store.shards && key in store.shards[place(key)].claims && store.shards[place(key)].claims[key] == id
  }

  /** Every recorded identifier was reserved for its key, and the live sequence is above all of them. */
  ghost predicate StoreSound(place: string -> string, store: Store, issued: map<int, string>) {
    && (forall s, k :: s in store.shards && k in store.shards[s].claims ==> Owned(place, issued, s, k, store.shards[s].claims[k]))
    && (forall id :: id in issued ==> 1 <= id <= MAX_ID)
    && (forall s :: s in store.shards ==> store.shards[s].version < store.clock)
    && (store.anchor.Some? ==> store.anchor.value < store.clock)
    && (store.anchor.None? ==> issued == map[])
    && (store.sequence.Some? ==> SequenceSound(store.anchor, store.sequence.value, issued, store.clock))
  }

  ghost predicate Owned(place: string -> string, issued: map<int, string>, shard: string, key: string, id: int) {
    key != "" && place(key) == shard && id in issued && issued[id] == key
  }

  ghost predicate SequenceSound(anchor: Option<nat>, q: Sequence, issued: map<int, string>, clock: nat) {
    && q.uid < clock && q.version < clock && 1 <= q.next <= MAX_ID + 1
    && (anchor == Some(q.uid) ==> forall id :: id in issued ==> id < q.next)
    && (anchor != Some(q.uid) ==> q.next == 1)
  }

  /** What was read is still there: objects change version when they change, and claims are never withdrawn. */
  ghost predicate SeenSound(store: Store, seen: map<string, ClaimShard>) {
    forall s :: s in seen ==> s in store.shards && ShardGrew(seen[s], store.shards[s])
  }

  ghost predicate ShardGrew(a: ClaimShard, b: ClaimShard) {
    && a.version <= b.version && (a.version == b.version ==> a == b)
    && forall k :: k in a.claims ==> k in b.claims && b.claims[k] == a.claims[k]
  }

  ghost predicate ReadSound(store: Store, q: Sequence) {
    && q.uid < store.clock && q.version < store.clock && 1 <= q.next <= MAX_ID + 1
    && (store.sequence.Some? && store.sequence.value.version == q.version ==> store.sequence.value == q)
  }

  /** Results not yet recorded are reserved for their keys; all others are recorded. */
  ghost predicate ResultSound(place: string -> string, store: Store, issued: map<int, string>, keys: seq<string>, result: map<string, int>, todo: set<string>) {
    && result.Keys == (set k | k in keys)
    && (forall k :: k in result ==> Owned(place, issued, place(k), k, result[k]))
    && (forall k :: k in result && place(k) !in todo ==> Recorded(place, store, k, result[k]))
  }

  /** A claim already seen is the result; what is unseen lies in a shard still to be written. */
  ghost predicate ResultExtends(place: string -> string, seen: map<string, ClaimShard>, result: map<string, int>) {
    forall k :: k in result && Claimed(place, seen, k) ==> result[k] == seen[place(k)].claims[k]
  }

  ghost predicate CallSound(place: string -> string, store: Store, issued: map<int, string>, p: Phase) {
    match p
    case Idle => true
    case Started(keys) => "" !in keys
    case Listed(keys, seen) => "" !in keys && SeenSound(store, seen)
    case AnchorRead(keys, seen, anchor) => "" !in keys && SeenSound(store, seen) && (anchor.Some? ==> anchor == store.anchor)
    case Creating(keys, seen) => "" !in keys && SeenSound(store, seen)
    case Anchoring(keys, seen, q) => "" !in keys && SeenSound(store, seen) && ReadSound(store, q)
    case Ready(keys, seen, q) =>
      && "" !in keys && SeenSound(store, seen) && ReadSound(store, q) && store.anchor == Some(q.uid)
      && q.next + |Missing(place, keys, seen)| <= MAX_ID + 1
    case Reserved(keys, seen, result, todo) =>
      && SeenSound(store, seen) && todo <= seen.Keys
      && ResultSound(place, store, issued, keys, result, todo) && ResultExtends(place, seen, result)
    case Done(keys, result) => ResultSound(place, store, issued, keys, result, {})
    case Failed(why) => why != DamagedClaim && why != DuplicateId && why != SequenceInvalid
  }

  ghost predicate Sound(place: string -> string, s: System) {
    && StoreSound(place, s.store, s.issued)
    && forall id :: id in s.calls ==> CallSound(place, s.store, s.issued, s.calls[id])
  }

  /** What any event may do to the store and the history. */
  ghost predicate Evolves(a: Store, b: Store) {
    && a.clock <= b.clock
    && (forall s :: s in a.shards ==> s in b.shards && ShardGrew(a.shards[s], b.shards[s]))
    && (a.anchor.Some? ==> b.anchor == a.anchor)
    && (b.sequence.Some? ==> b.sequence == a.sequence || b.sequence.value.version >= a.clock)
  }

  ghost predicate Extends(a: map<int, string>, b: map<int, string>) {
    forall id :: id in a ==> id in b && b[id] == a[id]
  }

  // ---- Calls are undisturbed by other calls ----

  lemma SeenStays(a: Store, b: Store, seen: map<string, ClaimShard>)
    requires Evolves(a, b) && SeenSound(a, seen)
    ensures SeenSound(b, seen)
  {
  }

  lemma ResultStays(place: string -> string, a: Store, b: Store, i: map<int, string>, j: map<int, string>,
                    keys: seq<string>, result: map<string, int>, todo: set<string>)
    requires Evolves(a, b) && Extends(i, j) && ResultSound(place, a, i, keys, result, todo)
    ensures ResultSound(place, b, j, keys, result, todo)
  {
  }

  lemma CallStays(place: string -> string, a: Store, b: Store, i: map<int, string>, j: map<int, string>, p: Phase)
    requires Evolves(a, b) && Extends(i, j) && CallSound(place, a, i, p)
    ensures CallSound(place, b, j, p)
  {
    hide Missing, SeenSound, ResultSound, ResultExtends, ShardGrew;
    if p.Listed? || p.AnchorRead? || p.Creating? || p.Anchoring? || p.Ready? || p.Reserved? {
      SeenStays(a, b, p.seen);
    }
    if p.Reserved? {
      ResultStays(place, a, b, i, j, p.keys, p.result, p.todo);
    } else if p.Done? {
      ResultStays(place, a, b, i, j, p.keys, p.result, {});
    }
  }

  // ---- One request keeps everything ----

  lemma SeenNow(place: string -> string, store: Store, issued: map<int, string>, seen: map<string, ClaimShard>)
    requires StoreSound(place, store, issued) && SeenSound(store, seen)
    ensures forall s, k :: s in seen && k in seen[s].claims ==>
              Owned(place, issued, s, k, seen[s].claims[k]) && Recorded(place, store, k, seen[s].claims[k])
  {
    hide SequenceSound;
    forall s, k | s in seen && k in seen[s].claims
      ensures Owned(place, issued, s, k, seen[s].claims[k]) && Recorded(place, store, k, seen[s].claims[k])
    {
      assert k in store.shards[s].claims;
    }
  }

  lemma RetainedSound(place: string -> string, store: Store, issued: map<int, string>, seen: map<string, ClaimShard>, k: string)
    requires StoreSound(place, store, issued) && SeenSound(store, seen) && Claimed(place, seen, k)
    ensures Owned(place, issued, place(k), k, RetainedId(place, seen, k)) && Recorded(place, store, k, RetainedId(place, seen, k))
  {
    hide StoreSound, SeenSound;
    SeenNow(place, store, issued, seen);
  }

  lemma SettledSound(place: string -> string, store: Store, issued: map<int, string>, keys: seq<string>, seen: map<string, ClaimShard>, q: Sequence)
    requires StoreSound(place, store, issued) && "" !in keys && SeenSound(store, seen) && ReadSound(store, q) && store.anchor == Some(q.uid)
    ensures CallSound(place, store, issued, Settled(place, keys, seen, q))
  {
    hide StoreSound, SeenSound, ReadSound, Missing, Claimed, RetainedId, Owned, Recorded;
    if Missing(place, keys, seen) == [] {
      forall k | k in keys
        ensures Owned(place, issued, place(k), k, RetainedId(place, seen, k)) && Recorded(place, store, k, RetainedId(place, seen, k))
      {
        RetainedSound(place, store, issued, seen, k);
      }
    }
  }

  lemma CheckedSound(place: string -> string, store: Store, issued: map<int, string>, keys: seq<string>,
                     seen: map<string, ClaimShard>, anchor: Option<nat>, q: Sequence)
    requires StoreSound(place, store, issued) && "" !in keys && SeenSound(store, seen) && ReadSound(store, q)
    requires anchor.Some? ==> anchor == store.anchor
    ensures CallSound(place, store, issued, Checked(place, keys, seen, anchor, q))
  {
    hide StoreSound, SeenSound, ShardGrew, Settled, AnyAtLeast;
    if anchor == Some(q.uid) {
      SettledSound(place, store, issued, keys, seen, q);
    }
  }

  /** What one request guarantees about the store, the history and its own call. */
  ghost predicate StepSound(place: string -> string, a: Store, issued: map<int, string>, p: Phase, b: Store, after: Phase) {
    var more := issued + Fresh(place, p, after);
    && Evolves(a, b) && Extends(issued, more)
    && StoreSound(place, b, more) && CallSound(place, b, more, after)
  }

  lemma ListSound(place: string -> string, store: Store, issued: map<int, string>)
    requires StoreSound(place, store, issued)
    ensures AllGood(place, store.shards) && NoDuplicate(store.shards) && SeenSound(store, store.shards)
  {
    hide SequenceSound;
    forall s, k | s in store.shards && k in store.shards[s].claims
      ensures Owned(place, issued, s, k, store.shards[s].claims[k])
    {
    }
  }

  lemma ReadsSound(place: string -> string, a: Store, issued: map<int, string>, p: Phase, event: Event)
    requires StoreSound(place, a, issued) && CallSound(place, a, issued, p)
    requires event.Call? || event.List? || event.GetAnchor? || event.GetSequence? || event.Stop?
    requires Request(place, a, p, event).Some?
    ensures StepSound(place, a, issued, p, Request(place, a, p, event).value.0, Request(place, a, p, event).value.1)
  {
    hide SeenSound, AllGood, NoDuplicate, AnyAtLeast, Checked, Owned;
    assert issued + map[] == issued;
    if event.List? {
      ListSound(place, a, issued);
    }
    if event.GetSequence? && a.sequence.Some? {
      CheckedSound(place, a, issued, p.keys, p.seen, p.anchor, a.sequence.value);
    }
  }

  lemma CreateSequenceSound(place: string -> string, a: Store, issued: map<int, string>, p: Phase, event: Event)
    requires StoreSound(place, a, issued) && CallSound(place, a, issued, p) && event.CreateSequence?
    requires Request(place, a, p, event).Some?
    ensures StepSound(place, a, issued, p, Request(place, a, p, event).value.0, Request(place, a, p, event).value.1)
  {
    hide SeenSound, Checked, Owned;
    assert issued + map[] == issued;
    if a.sequence.None? {
      var q := Sequence(a.clock, a.clock, 1);
      var b := a.(sequence := Some(q), clock := a.clock + 1);
      assert forall s :: s in a.shards ==> ShardGrew(a.shards[s], b.shards[s]);
      SeenStays(a, b, p.seen);
      CheckedSound(place, b, issued, p.keys, p.seen, None, q);
    }
  }

  lemma CreateAnchorSound(place: string -> string, a: Store, issued: map<int, string>, p: Phase, event: Event)
    requires StoreSound(place, a, issued) && CallSound(place, a, issued, p) && event.CreateAnchor?
    requires Request(place, a, p, event).Some?
    ensures StepSound(place, a, issued, p, Request(place, a, p, event).value.0, Request(place, a, p, event).value.1)
  {
    hide SeenSound, Settled, Owned;
    assert issued + map[] == issued;
    if a.anchor.None? {
      var b := a.(anchor := Some(p.sequence.uid));
      assert forall s :: s in a.shards ==> ShardGrew(a.shards[s], b.shards[s]);
      SeenStays(a, b, p.seen);
      SettledSound(place, b, issued, p.keys, p.seen, p.sequence);
    }
  }

  lemma CreateShardSound(place: string -> string, a: Store, issued: map<int, string>, p: Phase, event: Event)
    requires StoreSound(place, a, issued) && CallSound(place, a, issued, p) && event.CreateShard?
    requires Request(place, a, p, event).Some?
    ensures StepSound(place, a, issued, p, Request(place, a, p, event).value.0, Request(place, a, p, event).value.1)
  {
    hide SeenSound, StoreSound, Owned, ShardsOf, Missing;
    assert issued + map[] == issued;
    if event.shard !in a.shards {
      var empty := ClaimShard(a.clock, map[]);
      EmptyShardStore(place, a, issued, event.shard, empty);
      EmptyShardSeen(a, p.seen, event.shard, empty);
      MissingStays(place, p.keys, p.seen, event.shard, empty);
    } else {
      NothingMoves(place, a, issued, p, Failed(WriteRefused));
    }
  }

  lemma EmptyShardStore(place: string -> string, a: Store, issued: map<int, string>, shard: string, empty: ClaimShard)
    requires StoreSound(place, a, issued) && shard !in a.shards && empty == ClaimShard(a.clock, map[])
    ensures var b := a.(shards := a.shards[shard := empty], clock := a.clock + 1); StoreSound(place, b, issued) && Evolves(a, b)
  {
    hide Owned, SequenceSound;
    SequenceLater(a.anchor, a.sequence, issued, a.clock, a.clock + 1);
  }

  lemma EmptyShardSeen(a: Store, seen: map<string, ClaimShard>, shard: string, empty: ClaimShard)
    requires SeenSound(a, seen) && shard !in a.shards
    ensures SeenSound(a.(shards := a.shards[shard := empty], clock := a.clock + 1), seen[shard := empty])
  {
  }

  lemma SequenceLater(anchor: Option<nat>, q: Option<Sequence>, issued: map<int, string>, clock: nat, later: nat)
    requires clock <= later
    ensures q.Some? && SequenceSound(anchor, q.value, issued, clock) ==> SequenceSound(anchor, q.value, issued, later)
  {
  }

  /** An empty new shard claims no key. */
  lemma {:induction false} UnclaimedStays(place: string -> string, keys: seq<string>, seen: map<string, ClaimShard>, shard: string, empty: ClaimShard)
    requires shard !in seen && empty.claims == map[]
    ensures Unclaimed(place, keys, seen[shard := empty]) == Unclaimed(place, keys, seen)
  {
    if keys != [] {
      UnclaimedStays(place, keys[..|keys| - 1], seen, shard, empty);
    }
  }

  lemma MissingStays(place: string -> string, keys: seq<string>, seen: map<string, ClaimShard>, shard: string, empty: ClaimShard)
    requires shard !in seen && empty.claims == map[]
    ensures Missing(place, keys, seen[shard := empty]) == Missing(place, keys, seen)
  {
    UnclaimedStays(place, keys, seen, shard, empty);
  }

  lemma ResultsStay(place: string -> string, keys: seq<string>, seen: map<string, ClaimShard>, shard: string, empty: ClaimShard, next: int)
    requires shard !in seen && empty.claims == map[]
    ensures Results(place, keys, seen[shard := empty], next) == Results(place, keys, seen, next)
  {
    MissingStays(place, keys, seen, shard, empty);
    hide Missing, Position;
  }

  lemma OwnedStays(place: string -> string, i: map<int, string>, j: map<int, string>, shard: string, k: string, id: int)
    requires Extends(i, j) && Owned(place, i, shard, k, id)
    ensures Owned(place, j, shard, k, id)
  {
  }

  lemma RangeAbove(issued: map<int, string>, missing: seq<string>, next: int)
    requires Distinct(missing) && forall id :: id in issued ==> id < next
    ensures Extends(issued, issued + Range(missing, next))
    ensures forall id :: id in issued + Range(missing, next) ==> id in issued || next <= id < next + |missing|
  {
  }

  /** Reserving only ever adds identifiers above every one reserved before. */
  lemma ReservedAbove(place: string -> string, a: Store, issued: map<int, string>, missing: seq<string>, q: Sequence)
    requires StoreSound(place, a, issued) && a.sequence == Some(q) && a.anchor == Some(q.uid) && Distinct(missing)
    requires q.next + |missing| <= MAX_ID + 1
    ensures Extends(issued, issued + Range(missing, q.next))
    ensures StoreSound(place, a.(sequence := Some(Sequence(q.uid, a.clock, q.next + |missing|)), clock := a.clock + 1), issued + Range(missing, q.next))
  {
    hide StoreSound, Range, Extends;
    AbovePrevious(place, a, issued, q);
    RangeAbove(issued, missing, q.next);
    AdvanceSound(place, a, issued, issued + Range(missing, q.next), q, q.next + |missing|);
  }

  lemma AbovePrevious(place: string -> string, a: Store, issued: map<int, string>, q: Sequence)
    requires StoreSound(place, a, issued) && a.sequence == Some(q) && a.anchor == Some(q.uid)
    ensures q.next >= 1 && forall id :: id in issued ==> id < q.next
  {
  }

  lemma AdvanceSound(place: string -> string, a: Store, issued: map<int, string>, more: map<int, string>, q: Sequence, next: int)
    requires StoreSound(place, a, issued) && a.sequence == Some(q) && a.anchor == Some(q.uid) && q.next <= next <= MAX_ID + 1
    requires Extends(issued, more) && forall id :: id in more ==> id in issued || q.next <= id < next
    ensures StoreSound(place, a.(sequence := Some(Sequence(q.uid, a.clock, next)), clock := a.clock + 1), more)
  {
    hide Owned;
    forall s, k | s in a.shards && k in a.shards[s].claims ensures Owned(place, more, s, k, a.shards[s].claims[k]) {
      OwnedStays(place, issued, more, s, k, a.shards[s].claims[k]);
    }
  }

  lemma ReservedResults(place: string -> string, a: Store, issued: map<int, string>, keys: seq<string>, seen: map<string, ClaimShard>, next: int, k: string)
    requires StoreSound(place, a, issued) && SeenSound(a, seen) && "" !in keys && k in keys
    requires var missing := Missing(place, keys, seen); Extends(issued, issued + Range(missing, next))
    ensures var missing := Missing(place, keys, seen); var id := Results(place, keys, seen, next)[k];
      && Owned(place, issued + Range(missing, next), place(k), k, id)
      && (k !in missing ==> Claimed(place, seen, k) && id == seen[place(k)].claims[k] && Recorded(place, a, k, id))
  {
    hide StoreSound, SeenSound, Missing, Recorded;
    var missing := Missing(place, keys, seen);
    if k !in missing {
      RetainedSound(place, a, issued, seen, k);
    }
  }

  lemma ReserveSound(place: string -> string, a: Store, issued: map<int, string>, p: Phase, event: Event)
    requires StoreSound(place, a, issued) && CallSound(place, a, issued, p) && event.Reserve?
    requires Request(place, a, p, event).Some?
    ensures StepSound(place, a, issued, p, Request(place, a, p, event).value.0, Request(place, a, p, event).value.1)
  {
    hide SeenSound, Owned, StoreSound, Missing, Recorded, Range, Claimed, Results;
    assert issued + map[] == issued;
    var (b, after) := Request(place, a, p, event).value;
    if after.Reserved? {
      var missing := Missing(place, p.keys, p.seen);
      var more := issued + Range(missing, p.sequence.next);
      ReservedAbove(place, a, issued, missing, p.sequence);
      assert forall s :: s in a.shards ==> ShardGrew(a.shards[s], b.shards[s]);
      SeenStays(a, b, p.seen);
      KeysOfResults(place, p.keys, p.seen, p.sequence.next);
      hide ResultExtends;
      forall k | k in p.keys
        ensures Owned(place, more, place(k), k, after.result[k])
        ensures k !in missing ==> Recorded(place, b, k, after.result[k])
      {
        ReservedResults(place, a, issued, p.keys, p.seen, p.sequence.next, k);
        RecordedLooksAtShards(place, a, b, k, after.result[k]);
      }
    } else {
      assert StepSound(place, a, issued, p, a, after) by { NothingMoves(place, a, issued, p, after); }
    }
  }

  lemma KeysOfResults(place: string -> string, keys: seq<string>, seen: map<string, ClaimShard>, next: int)
    ensures Results(place, keys, seen, next).Keys == set k | k in keys
    ensures ResultExtends(place, seen, Results(place, keys, seen, next))
  {
    hide Position;
  }

  lemma RecordedLooksAtShards(place: string -> string, a: Store, b: Store, k: string, id: int)
    requires a.shards == b.shards
    ensures Recorded(place, a, k, id) <==> Recorded(place, b, k, id)
  {
  }

  lemma NothingMoves(place: string -> string, a: Store, issued: map<int, string>, p: Phase, after: Phase)
    requires StoreSound(place, a, issued) && after == Failed(WriteRefused)
    ensures StepSound(place, a, issued, p, a, after)
  {
    hide StoreSound;
    assert issued + map[] == issued;
    assert forall s :: s in a.shards ==> ShardGrew(a.shards[s], a.shards[s]);
  }

  /** The write to one shard keeps its claims and adds the results that belong there. */
  lemma WrittenGrew(place: string -> string, shard: string, seen: map<string, ClaimShard>, result: map<string, int>, clock: nat)
    requires shard in seen && seen[shard].version < clock && ResultExtends(place, seen, result)
    ensures ShardGrew(seen[shard], ClaimShard(clock, seen[shard].claims + InShard(place, result, shard)))
  {
  }

  lemma RecordStore(place: string -> string, a: Store, issued: map<int, string>, shard: string, written: ClaimShard)
    requires StoreSound(place, a, issued) && shard in a.shards && written.version == a.clock && ShardGrew(a.shards[shard], written)
    requires forall k :: k in written.claims ==> Owned(place, issued, shard, k, written.claims[k])
    ensures var b := a.(shards := a.shards[shard := written], clock := a.clock + 1);
            StoreSound(place, b, issued) && Evolves(a, b)
  {
    hide Owned;
  }

  lemma RecordSound(place: string -> string, a: Store, issued: map<int, string>, p: Phase, event: Event)
    requires StoreSound(place, a, issued) && CallSound(place, a, issued, p) && event.Record?
    requires Request(place, a, p, event).Some?
    ensures StepSound(place, a, issued, p, Request(place, a, p, event).value.0, Request(place, a, p, event).value.1)
  {
    hide StoreSound, Results, Missing, ShardsOf;
    assert issued + map[] == issued;
    var (b, after) := Request(place, a, p, event).value;
    if after.Failed? {
      NothingMoves(place, a, issued, p, after);
    } else {
      var shard := event.shard;
      var written := b.shards[shard];
      VersionsBelow(place, a, issued, shard);
      assert a.shards[shard] == p.seen[shard];
      WrittenGrew(place, shard, p.seen, p.result, a.clock);
      forall k | k in written.claims ensures Owned(place, issued, shard, k, written.claims[k]) {
        SeenNow(place, a, issued, p.seen);
      }
      RecordStore(place, a, issued, shard, written);
      ResultRecorded(place, a, issued, p.keys, p.seen, p.result, p.todo, shard);
    }
  }

  lemma VersionsBelow(place: string -> string, a: Store, issued: map<int, string>, shard: string)
    requires StoreSound(place, a, issued) && shard in a.shards
    ensures a.shards[shard].version < a.clock
  {
  }

  lemma ResultRecorded(place: string -> string, a: Store, issued: map<int, string>, keys: seq<string>, seen: map<string, ClaimShard>,
                       result: map<string, int>, todo: set<string>, shard: string)
    requires ResultSound(place, a, issued, keys, result, todo) && SeenSound(a, seen) && shard in seen && shard in todo
    requires a.shards[shard] == seen[shard]
    requires var written := ClaimShard(a.clock, seen[shard].claims + InShard(place, result, shard));
      Evolves(a, a.(shards := a.shards[shard := written], clock := a.clock + 1))
    ensures var written := ClaimShard(a.clock, seen[shard].claims + InShard(place, result, shard));
      var b := a.(shards := a.shards[shard := written], clock := a.clock + 1);
      ResultSound(place, b, issued, keys, result, todo - {shard}) && SeenSound(b, seen)
  {
    hide Owned;
    var written := ClaimShard(a.clock, seen[shard].claims + InShard(place, result, shard));
    var b := a.(shards := a.shards[shard := written], clock := a.clock + 1);
    SeenStays(a, b, seen);
    hide Evolves, SeenSound, ShardGrew;
    forall k | k in result && place(k) !in todo - {shard} ensures Recorded(place, b, k, result[k]) {
      if place(k) == shard {
        assert k in InShard(place, result, shard);
      }
    }
  }

  lemma RequestSound(place: string -> string, a: Store, issued: map<int, string>, p: Phase, event: Event)
    requires StoreSound(place, a, issued) && CallSound(place, a, issued, p)
    requires Request(place, a, p, event).Some?
    ensures StepSound(place, a, issued, p, Request(place, a, p, event).value.0, Request(place, a, p, event).value.1)
  {
    hide StoreSound, CallSound, StepSound;
    assert !event.DeleteSequence?;
    hide Request;
    match event {
      case CreateSequence(_) => CreateSequenceSound(place, a, issued, p, event);
      case CreateAnchor(_) => CreateAnchorSound(place, a, issued, p, event);
      case CreateShard(_, _) => CreateShardSound(place, a, issued, p, event);
      case Reserve(_) => ReserveSound(place, a, issued, p, event);
      case Record(_, _) => RecordSound(place, a, issued, p, event);
      case _ => ReadsSound(place, a, issued, p, event);
    }
  }

  /** What one event does to the whole system. */
  lemma NextSound(place: string -> string, s: System, event: Event)
    requires Sound(place, s)
    ensures Sound(place, Next(place, s, event))
    ensures Evolves(s.store, Next(place, s, event).store) && Extends(s.issued, Next(place, s, event).issued)
  {
    hide CallSound, StoreSound;
    var t := Next(place, s, event);
    if event.DeleteSequence? {
      DeletionSound(place, s.store, s.issued);
    } else {
      var p := PhaseOf(s, event.id);
      assert CallSound(place, s.store, s.issued, p) by { IdleSound(place, s.store, s.issued); }
      if Request(place, s.store, p, event).Some? {
        RequestSound(place, s.store, s.issued, p, event);
      } else {
        assert forall n :: n in s.store.shards ==> ShardGrew(s.store.shards[n], s.store.shards[n]);
      }
    }
    forall id | id in t.calls ensures CallSound(place, t.store, t.issued, t.calls[id]) {
      if id in s.calls && t.calls[id] == s.calls[id] {
        CallStays(place, s.store, t.store, s.issued, t.issued, s.calls[id]);
      }
    }
  }

  lemma IdleSound(place: string -> string, store: Store, issued: map<int, string>)
    ensures CallSound(place, store, issued, Idle)
  {
  }

  lemma DeletionSound(place: string -> string, store: Store, issued: map<int, string>)
    requires StoreSound(place, store, issued)
    ensures StoreSound(place, store.(sequence := None), issued) && Evolves(store, store.(sequence := None))
  {
    hide Owned;
  }

  // ---- Whole runs ----

  lemma {:induction false} RunSound(place: string -> string, events: seq<Event>)
    ensures Sound(place, Run(place, EMPTY, events))
  {
    if events != [] {
      RunSound(place, events[..|events| - 1]);
      NextSound(place, Run(place, EMPTY, events[..|events| - 1]), events[|events| - 1]);
    }
  }

  lemma EvolvesTransitive(a: Store, b: Store, c: Store)
    requires Evolves(a, b) && Evolves(b, c)
    ensures Evolves(a, c)
  {
    forall s | s in a.shards ensures s in c.shards && ShardGrew(a.shards[s], c.shards[s]) {
      assert ShardGrew(a.shards[s], b.shards[s]) && ShardGrew(b.shards[s], c.shards[s]);
    }
  }

  lemma EvolvesSelf(a: Store)
    ensures Evolves(a, a)
  {
  }

  lemma {:induction false} RunEvolves(place: string -> string, events: seq<Event>, more: seq<Event>)
    ensures Evolves(Run(place, EMPTY, events).store, Run(place, EMPTY, events + more).store)
    ensures Extends(Run(place, EMPTY, events).issued, Run(place, EMPTY, events + more).issued)
  {
    if more == [] {
      assert events + more == events;
      EvolvesSelf(Run(place, EMPTY, events).store);
    } else {
      var front := more[..|more| - 1];
      assert (events + more)[..|events + more| - 1] == events + front;
      RunEvolves(place, events, front);
      RunSound(place, events + front);
      NextSound(place, Run(place, EMPTY, events + front), more[|more| - 1]);
      EvolvesTransitive(Run(place, EMPTY, events).store, Run(place, EMPTY, events + front).store, Run(place, EMPTY, events + more).store);
    }
  }

  /** Over every interleaving, with calls stopping anywhere and the sequence deleted at any time: an identifier
      once recorded for a key is recorded for that key for ever and for no other key, now or later. */
  lemma NeverReused(place: string -> string, events: seq<Event>, more: seq<Event>, key: string, other: string, id: int)
    requires Recorded(place, Run(place, EMPTY, events).store, key, id)
    ensures 1 <= id <= 16777215
    ensures Recorded(place, Run(place, EMPTY, events + more).store, key, id)
    ensures Recorded(place, Run(place, EMPTY, events + more).store, other, id) ==> other == key
  {
    hide SequenceSound, Run;
    var s, t := Run(place, EMPTY, events), Run(place, EMPTY, events + more);
    RunSound(place, events);
    RunSound(place, events + more);
    RunEvolves(place, events, more);
    assert Owned(place, s.issued, place(key), key, id);
    assert ShardGrew(s.store.shards[place(key)], t.store.shards[place(key)]);
    if Recorded(place, t.store, other, id) {
      assert Owned(place, t.issued, place(other), other, id);
    }
  }

  /** Every identifier a finished call returns is already recorded, and every key asked for is answered. */
  lemma ReturnedIsRecorded(place: string -> string, events: seq<Event>, call: nat)
    requires PhaseOf(Run(place, EMPTY, events), call).Done?
    ensures var s := Run(place, EMPTY, events); var p := PhaseOf(s, call);
      && p.result.Keys == (set k | k in p.keys)
      && forall k :: k in p.result ==> 1 <= p.result[k] <= 16777215 && Recorded(place, s.store, k, p.result[k])
  {
    hide Run, Recorded;
    RunSound(place, events);
    var s := Run(place, EMPTY, events);
    var p := PhaseOf(s, call);
    assert CallSound(place, s.store, s.issued, p);
    forall k | k in p.result ensures 1 <= p.result[k] <= 16777215 {
      assert Owned(place, s.issued, place(k), k, p.result[k]);
    }
  }

  /** The autonomous system number of a location. */
  function LocalAsn(id: int): (asn: int) {
    4200000000 + id
  }

  /** Whatever calls returned them, different keys have different identifiers: a location's system number is a private
      four-octet one (RFC 6996) no other location has, and a link's network identifier has 24 bits and no other user. */
  lemma DistinctIdentifiers(place: string -> string, events: seq<Event>, c: nat, d: nat, key: string, other: string)
    requires var s := Run(place, EMPTY, events);
      PhaseOf(s, c).Done? && key in PhaseOf(s, c).result && PhaseOf(s, d).Done? && other in PhaseOf(s, d).result
    ensures var s := Run(place, EMPTY, events); var i, j := PhaseOf(s, c).result[key], PhaseOf(s, d).result[other];
      && (i == j <==> key == other)
      && 0 < i < 0x100_0000 && LocalAsn(i) - i == 4200000000 && LocalAsn(i) <= 4294967294
  {
    hide Run, Recorded;
    ReturnedIsRecorded(place, events, c);
    ReturnedIsRecorded(place, events, d);
    var s := Run(place, EMPTY, events);
    var i, j := PhaseOf(s, c).result[key], PhaseOf(s, d).result[other];
    assert events + [] == events;
    NeverReused(place, events, [], key, other, i);
    OneRecord(place, s.store, key, i, j);
  }

  lemma OneRecord(place: string -> string, store: Store, key: string, i: int, j: int)
    ensures Recorded(place, store, key, i) && Recorded(place, store, key, j) ==> i == j
  {
  }

  // ---- Runs without outside deletion ----

  /** The anchored sequence is still there, and no call has met an inconsistency. */
  ghost predicate Calm(s: System) {
    && (s.store.anchor.Some? ==> s.store.sequence.Some? && s.store.sequence.value.uid == s.store.anchor.value)
    && forall id :: id in s.calls ==> CalmCall(s.store, s.calls[id])
  }

  ghost predicate CalmCall(store: Store, p: Phase) {
    && (p.Anchoring? ==> store.sequence.Some? && store.sequence.value.uid == p.sequence.uid)
    && (p.Failed? ==> p.why in {AnchorMissing, Exhausted, WriteRefused, Stopped})
  }

  /** A retained identifier means the anchor exists, and it is below the anchored sequence. */
  lemma RetainedMeansAnchored(place: string -> string, store: Store, issued: map<int, string>, seen: map<string, ClaimShard>, n: int)
    requires StoreSound(place, store, issued) && SeenSound(store, seen)
    ensures AnyAtLeast(seen, n) ==> store.anchor.Some?
    ensures AnyAtLeast(seen, n) && store.sequence.Some? && store.anchor == Some(store.sequence.value.uid) ==> n < store.sequence.value.next
  {
    SeenNow(place, store, issued, seen);
    if AnyAtLeast(seen, n) {
      var s, k :| s in seen && k in seen[s].claims && seen[s].claims[k] >= n;
      assert Owned(place, issued, s, k, seen[s].claims[k]);
    }
  }

  /** Reading the sequence after the claims: what the checks can find without outside deletion. */
  lemma SequenceReadCalm(place: string -> string, s: System, id: nat)
    requires Sound(place, s) && Calm(s) && PhaseOf(s, id).AnchorRead?
    ensures var p := PhaseOf(s, id); var after := PhaseOf(Next(place, s, GetSequence(id)), id);
      && CalmCall(s.store, after)
      && (after == Failed(AnchorMissing) <==> p.anchor.None? && s.store.sequence.Some? && s.store.sequence.value.next > 1)
      && (after == Failed(AnchorMissing) ==> s.store.anchor.Some?)
      && (after.Failed? ==> after.why in {AnchorMissing, Exhausted})
  {
    hide SeenSound, AnyAtLeast, Missing, Results;
    var p := PhaseOf(s, id);
    assert CallSound(place, s.store, s.issued, p);
    RetainedMeansAnchored(place, s.store, s.issued, p.seen, 1);
    if s.store.sequence.Some? {
      RetainedMeansAnchored(place, s.store, s.issued, p.seen, s.store.sequence.value.next);
    }
  }

  lemma CreatedCalm(place: string -> string, s: System, id: nat)
    requires Sound(place, s) && Calm(s) && PhaseOf(s, id).Creating?
    ensures Calm(Next(place, s, CreateSequence(id)))
  {
    hide SeenSound, AnyAtLeast, Settled;
    var p := PhaseOf(s, id);
    assert CallSound(place, s.store, s.issued, p);
    RetainedMeansAnchored(place, s.store, s.issued, p.seen, 1);
  }

  lemma CalmStays(a: Store, b: Store, p: Phase)
    requires CalmCall(a, p)
    requires a.sequence.Some? ==> b.sequence.Some? && b.sequence.value.uid == a.sequence.value.uid
    ensures CalmCall(b, p)
  {
  }

  lemma NextCalm(place: string -> string, s: System, event: Event)
    requires Sound(place, s) && Calm(s) && !event.DeleteSequence?
    ensures Calm(Next(place, s, event))
  {
    var p := PhaseOf(s, event.id);
    if event.GetSequence? && p.AnchorRead? {
      SequenceReadCalm(place, s, event.id);
    }
    if event.CreateSequence? && p.Creating? {
      CreatedCalm(place, s, event.id);
    } else {
      NextCalmOther(place, s, event);
    }
  }

  lemma NextCalmOther(place: string -> string, s: System, event: Event)
    requires Sound(place, s) && Calm(s) && !event.DeleteSequence? && !(event.CreateSequence? && PhaseOf(s, event.id).Creating?)
    requires event.GetSequence? && PhaseOf(s, event.id).AnchorRead? ==> CalmCall(s.store, PhaseOf(Next(place, s, event), event.id))
    ensures Calm(Next(place, s, event))
  {
    hide SeenSound, Missing, Results, Checked, StoreSound, Range;
    var p, t := PhaseOf(s, event.id), Next(place, s, event);
    assert event.List? ==> StoreSound(place, s.store, s.issued);
    if event.List? {
      ListSound(place, s.store, s.issued);
    }
    assert s.store.sequence.Some? ==> t.store.sequence.Some? && t.store.sequence.value.uid == s.store.sequence.value.uid;
    assert CalmCall(t.store, PhaseOf(t, event.id));
    forall id | id in t.calls ensures CalmCall(t.store, t.calls[id]) {
      if id != event.id {
        CalmStays(s.store, t.store, s.calls[id]);
      }
    }
  }

  /** Unless the sequence is deleted from outside, no call ever reports a damaged, duplicate or regressed registry, a
      missing sequence, or a changed identity. */
  lemma {:induction false} RunCalm(place: string -> string, events: seq<Event>)
    requires DeleteSequence !in events
    ensures Calm(Run(place, EMPTY, events))
    ensures var s := Run(place, EMPTY, events);
      forall id :: id in s.calls && s.calls[id].Failed? ==> s.calls[id].why in {AnchorMissing, Exhausted, WriteRefused, Stopped}
  {
    if events != [] {
      var front := events[..|events| - 1];
      RunCalm(place, front);
      RunSound(place, front);
      NextCalm(place, Run(place, EMPTY, front), events[|events| - 1]);
    }
  }

  /** Losing the anchored sequence freezes the registry: nothing is ever reserved again. */
  ghost predicate Frozen(store: Store) {
    store.anchor.Some? && (store.sequence.Some? ==> store.sequence.value.uid != store.anchor.value)
  }

  lemma NextFrozen(place: string -> string, s: System, event: Event)
    requires Sound(place, s) && Frozen(s.store)
    ensures Frozen(Next(place, s, event).store) && Next(place, s, event).issued == s.issued
  {
    hide SeenSound, Missing, Results, Checked, Settled, Range, AllGood, NoDuplicate, AnyAtLeast;
    assert s.issued + map[] == s.issued;
    if !event.DeleteSequence? {
      var p := PhaseOf(s, event.id);
      assert CallSound(place, s.store, s.issued, p);
    }
  }

  /** Once the anchored sequence is lost, whatever happens afterwards, nothing is ever reserved again. */
  lemma {:induction false} DeletionFreezes(place: string -> string, events: seq<Event>, more: seq<Event>)
    requires Frozen(Run(place, EMPTY, events).store)
    ensures Frozen(Run(place, EMPTY, events + more).store)
    ensures Run(place, EMPTY, events + more).issued == Run(place, EMPTY, events).issued
  {
    hide Frozen, Next, Sound;
    if more == [] {
      assert events + more == events;
    } else {
      var front := more[..|more| - 1];
      assert (events + more)[..|events + more| - 1] == events + front;
      DeletionFreezes(place, events, front);
      RunSound(place, events + front);
      NextFrozen(place, Run(place, EMPTY, events + front), more[|more| - 1]);
    }
  }

  // ---- A transient refusal ----

  const READS := [Call(0, ["k"])] + [List(0)] + [GetAnchor(0)]
  const OVERTAKES := READS + [Call(1, ["k"])] + [List(1)] + [GetAnchor(1)] + [GetSequence(1)]
  const ANCHORS := OVERTAKES + [CreateSequence(1)] + [CreateAnchor(1)]
  const RACE := ANCHORS + [CreateShard(1, "s")] + [Reserve(1)]

  lemma RunMore(place: string -> string, events: seq<Event>, event: Event)
    ensures Run(place, EMPTY, events + [event]) == Next(place, Run(place, EMPTY, events), event)
  {
    assert (events + [event])[..|events|] == events;
  }

  lemma OneMissing(place: string -> string)
    ensures Missing(place, ["k"], map[]) == ["k"]
  {
    assert ["k"][..0] == [];
    assert Unclaimed(place, ["k"], map[]) == ["k"];
    assert ["k"][1..] == [];
  }

  const UNUSED := Store(map[], None, None, 0)
  const WAITING := AnchorRead(["k"], map[], None)
  const FIRST := Sequence(0, 0, 1)
  const EMPTY_SHARD := ClaimShard(1, map[])

  lemma BothRead(place: string -> string)
    ensures Next(place, Next(place, Next(place, EMPTY, Call(0, ["k"])), List(0)), GetAnchor(0)) == System(UNUSED, map[0 := WAITING], map[])
    ensures var s := System(UNUSED, map[0 := WAITING], map[]);
      Next(place, Next(place, Next(place, Next(place, s, Call(1, ["k"])), List(1)), GetAnchor(1)), GetSequence(1))
      == System(UNUSED, map[0 := WAITING, 1 := Creating(["k"], map[])], map[])
  {
    hide Missing, Checked, Range;
    var none: map<int, string> := map[];
    assert none + none == none;
  }

  lemma OneAnchors(place: string -> string)
    ensures var s := System(UNUSED, map[0 := WAITING, 1 := Creating(["k"], map[])], map[]);
      Next(place, Next(place, s, CreateSequence(1)), CreateAnchor(1))
      == System(Store(map[], Some(0), Some(FIRST), 1), map[0 := WAITING, 1 := Ready(["k"], map[], FIRST)], map[])
  {
    OneMissing(place);
    hide Missing, Range;
    var none: map<int, string> := map[];
    assert none + none == none;
  }

  function Prepared(): (s: System) {
    System(Store(map["s" := EMPTY_SHARD], Some(0), Some(FIRST), 2), map[0 := WAITING, 1 := Ready(["k"], map["s" := EMPTY_SHARD], FIRST)], map[])
  }

  lemma ShardOfK(place: string -> string)
    requires place("k") == "s"
    ensures ShardsOf(place, ["k"]) == {"s"}
  {
    assert "k" in ["k"] && "s" in ShardsOf(place, ["k"]);
  }

  lemma OneCreatesShard(place: string -> string)
    requires place("k") == "s"
    ensures Next(place, System(Store(map[], Some(0), Some(FIRST), 1), map[0 := WAITING, 1 := Ready(["k"], map[], FIRST)], map[]), CreateShard(1, "s"))
            == Prepared()
  {
    ShardOfK(place);
    hide Missing, Range, ShardsOf;
    var none: map<int, string> := map[];
    assert none + none == none;
  }

  lemma OneReserves(place: string -> string)
    requires place("k") == "s"
    ensures var t := Next(place, Prepared(), Reserve(1));
      t.store.sequence == Some(Sequence(0, 2, 2)) && t.store.anchor == Some(0) && PhaseOf(t, 0) == WAITING
  {
    OneMissing(place);
    MissingStays(place, ["k"], map[], "s", EMPTY_SHARD);
    ShardOfK(place);
    hide Missing, Results, Range, ShardsOf;
  }

  lemma RaceRuns(place: string -> string)
    requires place("k") == "s"
    ensures var t := Run(place, EMPTY, RACE);
      t.store.sequence == Some(Sequence(0, 2, 2)) && t.store.anchor == Some(0) && PhaseOf(t, 0) == WAITING
  {
    hide Next;
    BothRead(place);
    OneAnchors(place);
    OneCreatesShard(place);
    OneReserves(place);
    RunMore(place, [], Call(0, ["k"]));
    assert [] + [Call(0, ["k"])] == [Call(0, ["k"])];
    RunMore(place, [Call(0, ["k"])], List(0));
    RunMore(place, [Call(0, ["k"])] + [List(0)], GetAnchor(0));
    RunMore(place, READS, Call(1, ["k"]));
    RunMore(place, READS + [Call(1, ["k"])], List(1));
    RunMore(place, READS + [Call(1, ["k"])] + [List(1)], GetAnchor(1));
    RunMore(place, READS + [Call(1, ["k"])] + [List(1)] + [GetAnchor(1)], GetSequence(1));
    RunMore(place, OVERTAKES, CreateSequence(1));
    RunMore(place, OVERTAKES + [CreateSequence(1)], CreateAnchor(1));
    RunMore(place, ANCHORS, CreateShard(1, "s"));
    RunMore(place, ANCHORS + [CreateShard(1, "s")], Reserve(1));
  }

  /** A call that reads the anchor before another call's first reservation and the sequence after it is told the
      anchor is missing, although by then it exists. */
  lemma RaceReportsMissingAnchor()
    ensures var place := (k: string) => "s";
      && PhaseOf(Run(place, EMPTY, RACE + [GetSequence(0)]), 0) == Failed(AnchorMissing)
      && Run(place, EMPTY, RACE).store.anchor.Some?
  {
    var place := (k: string) => "s";
    RaceRuns(place);
    hide Run, Next;
    RunSound(place, RACE);
    RunCalm(place, RACE);
    RunMore(place, RACE, GetSequence(0));
    SequenceReadCalm(place, Run(place, EMPTY, RACE), 0);
  }

  // ---- The loops of a call ----

  type Owners = map<int, (string, string)>

  /** Every claim visited is good and alone in holding its identifier, and none is above the highest. */
  ghost predicate Scanned(place: string -> string, shards: map<string, ClaimShard>, visited: set<(string, string)>, owners: Owners, highest: int) {
    && (forall v :: v in visited ==> v.0 in shards && v.1 in shards[v.0].claims && Holds(place, shards, owners, v, highest))
    && (forall id :: id in owners ==> owners[id] in visited && shards[owners[id].0].claims[owners[id].1] == id)
    && (highest == 0 || highest in owners) && highest >= 0
  }

  ghost predicate Holds(place: string -> string, shards: map<string, ClaimShard>, owners: Owners, v: (string, string), highest: int)
    requires v.0 in shards && v.1 in shards[v.0].claims
  {
    var id := shards[v.0].claims[v.1];
    GoodClaim(place, v.0, v.1, id) && id in owners && owners[id] == v && id <= highest
  }

  lemma ScanOne(place: string -> string, shards: map<string, ClaimShard>, visited: set<(string, string)>, owners: Owners, highest: int, s: string, k: string)
    requires Scanned(place, shards, visited, owners, highest) && s in shards && k in shards[s].claims && (s, k) !in visited
    ensures shards[s].claims[k] in owners ==> !NoDuplicate(shards)
    ensures var id := shards[s].claims[k];
      GoodClaim(place, s, k, id) && id !in owners ==>
        Scanned(place, shards, visited + {(s, k)}, owners[id := (s, k)], if id > highest then id else highest)
  {
    hide GoodClaim;
    var id := shards[s].claims[k];
    assert GoodClaim(place, s, k, id) ==> id >= 1 by { ClaimPositive(place, s, k, id); }
    if id in owners {
      var v := owners[id];
      assert shards[v.0].claims[v.1] == id && v != (s, k);
    }
  }

  lemma ClaimPositive(place: string -> string, s: string, k: string, id: int)
    ensures GoodClaim(place, s, k, id) ==> id >= 1
  {
  }

  lemma ScanComplete(place: string -> string, shards: map<string, ClaimShard>, visited: set<(string, string)>, owners: Owners, highest: int)
    requires Scanned(place, shards, visited, owners, highest)
    requires forall s, k :: s in shards && k in shards[s].claims ==> (s, k) in visited
    ensures AllGood(place, shards) && NoDuplicate(shards)
    ensures forall n :: n >= 1 ==> (highest >= n <==> AnyAtLeast(shards, n))
  {
    forall s, k | s in shards && k in shards[s].claims ensures Holds(place, shards, owners, (s, k), highest) {
      assert (s, k) in visited;
    }
    forall n | n >= 1 && highest >= n ensures AnyAtLeast(shards, n) {
      var v := owners[highest];
      assert v.1 in shards[v.0].claims;
    }
  }

  /** The integrity scan over every retained claim: the highest identifier, or the first defect found. */
  method ScanClaims(place: string -> string, shards: map<string, ClaimShard>) returns (highest: Result<int, Failure>)
    ensures highest.Ok? <==> AllGood(place, shards) && NoDuplicate(shards)
    ensures highest == Err(DamagedClaim) || highest == Err(DuplicateId) || highest.Ok?
    ensures highest == Err(DamagedClaim) ==> !AllGood(place, shards)
    ensures highest == Err(DuplicateId) ==> !NoDuplicate(shards)
    ensures highest.Ok? ==> forall n :: n >= 1 ==> (highest.value >= n <==> AnyAtLeast(shards, n))
  {
    hide Scanned, GoodClaim, NoDuplicate, AnyAtLeast;
    var used: set<int> := {};
    var top := 0;
    ghost var visited: set<(string, string)> := {};
    ghost var owners: Owners := map[];
    assert Scanned(place, shards, visited, owners, top) by { NothingScanned(place, shards); }
    var todo := shards.Keys;
    while todo != {}
      invariant todo <= shards.Keys && used == owners.Keys
      invariant Scanned(place, shards, visited, owners, top)
      invariant forall s, k :: s in shards && k in shards[s].claims ==> (s !in todo <==> (s, k) in visited)
    {
      var shard :| shard in todo;
      var ids := shards[shard].claims;
      var keys := ids.Keys;
      while keys != {}
        invariant keys <= ids.Keys && used == owners.Keys
        invariant Scanned(place, shards, visited, owners, top)
        invariant forall s, k :: s in shards && k in shards[s].claims ==>
                    ((s, k) in visited <==> if s == shard then k !in keys else s !in todo)
      {
        var key :| key in keys;
        var id := ids[key];
        var good := GoodClaim(place, shard, key, id);
        if !good {
          return Err(DamagedClaim);
        }
        ScanOne(place, shards, visited, owners, top, shard, key);
        if id in used {
          return Err(DuplicateId);
        }
        used := used + {id};
        top := if id > top then id else top;
        visited, owners := visited + {(shard, key)}, owners[id := (shard, key)];
        keys := keys - {key};
      }
      todo := todo - {shard};
    }
    ScanComplete(place, shards, visited, owners, top);
    return Ok(top);
  }

  lemma NothingScanned(place: string -> string, shards: map<string, ClaimShard>)
    ensures Scanned(place, shards, {}, map[], 0)
  {
  }

  /** Splitting the keys into retained and missing ones. */
  method SplitKeys(place: string -> string, keys: seq<string>, seen: map<string, ClaimShard>)
    returns (retained: map<string, int>, missing: seq<string>)
    ensures missing == Unclaimed(place, keys, seen)
    ensures retained == map k | k in keys && Claimed(place, seen, k) :: RetainedId(place, seen, k)
  {
    retained, missing := map[], [];
    hide Claimed, RetainedId;
    for i := 0 to |keys|
      invariant missing == Unclaimed(place, keys[..i], seen)
      invariant forall k :: k in retained <==> k in keys[..i] && Claimed(place, seen, k)
      invariant forall k :: k in retained ==> retained[k] == RetainedId(place, seen, k)
    {
      var key := keys[i];
      assert keys[..i + 1][..i] == keys[..i];
      assert forall k :: k in keys[..i + 1] <==> k in keys[..i] || k == key;
      if Claimed(place, seen, key) {
        retained := retained[key := RetainedId(place, seen, key)];
      } else if key !in missing {
        missing := missing + [key];
      }
    }
    assert keys[..|keys|] == keys;
  }

  /** Numbering the missing keys in order, beside the retained ones. */
  method NumberMissing(retained: map<string, int>, missing: seq<string>, next: int) returns (result: map<string, int>)
    requires Distinct(missing) && forall k :: k in missing ==> k !in retained
    ensures forall k :: k in result <==> k in retained || k in missing
    ensures forall k :: k in result ==> result[k] == if k in missing then next + Position(missing, k) else retained[k]
  {
    result := retained;
    hide Position;
    for i := 0 to |missing|
      invariant forall k :: k in result <==> k in retained || k in missing[..i]
      invariant forall k :: k in retained ==> result[k] == retained[k]
      invariant forall j :: 0 <= j < i ==> missing[j] in result && result[missing[j]] == next + j
    {
      assert missing[..i + 1] == missing[..i] + [missing[i]];
      result := result[missing[i] := next + i];
    }
    assert missing[..|missing|] == missing;
  }

  /** The results of a call and the number of identifiers it must reserve. */
  method AssignIds(place: string -> string, keys: seq<string>, seen: map<string, ClaimShard>, next: int)
    returns (result: map<string, int>, missing: seq<string>)
    ensures missing == Missing(place, keys, seen) && result == Results(place, keys, seen, next)
  {
    var retained, unclaimed := SplitKeys(place, keys, seen);
    missing := Sort(unclaimed, Self);
    assert missing == Missing(place, keys, seen);
    hide Claimed, RetainedId, Position, Missing, Unclaimed, Sort;
    result := NumberMissing(retained, missing, next);
    var expected := Results(place, keys, seen, next);
    assert forall k :: k in result <==> k in expected;
    assert forall k :: k in result ==> result[k] == expected[k];
  }

  // ---- An undisturbed call ----

  /** A call that has read everything there is, none of which has moved since. */
  ghost predicate UpToDate(s: System, id: nat, keys: seq<string>, q: Sequence) {
    && PhaseOf(s, id) == Ready(keys, s.store.shards, q)
    && s.store.sequence == Some(q)
  }

  lemma SequenceAlone(place: string -> string, s: System, id: nat, keys: seq<string>)
    requires Sound(place, s) && Calm(s) && PhaseOf(s, id) == AnchorRead(keys, s.store.shards, s.store.anchor)
    ensures var t := Next(place, s, GetSequence(id));
      && t.store == s.store
      && (if s.store.sequence.None? then PhaseOf(t, id) == Creating(keys, s.store.shards) && s.store.anchor.None?
          else if s.store.anchor.None? then PhaseOf(t, id) == Anchoring(keys, s.store.shards, s.store.sequence.value)
          else PhaseOf(t, id) == Settled(place, keys, s.store.shards, s.store.sequence.value))
  {
    hide AnyAtLeast, Settled, SeenSound;
    SequenceReadCalm(place, s, id);
    assert CallSound(place, s.store, s.issued, PhaseOf(s, id));
    RetainedMeansAnchored(place, s.store, s.issued, s.store.shards, 1);
    if s.store.sequence.Some? {
      RetainedMeansAnchored(place, s.store, s.issued, s.store.shards, s.store.sequence.value.next);
    }
  }

  lemma CreateAlone(place: string -> string, s: System, id: nat, keys: seq<string>)
    requires Sound(place, s) && Calm(s) && PhaseOf(s, id) == Creating(keys, s.store.shards) && s.store.sequence.None?
    ensures var t := Next(place, s, CreateSequence(id));
      && t.store.shards == s.store.shards && t.store.sequence.Some? && t.store.sequence.value.next == 1 && t.store.anchor.None?
      && PhaseOf(t, id) == Anchoring(keys, t.store.shards, t.store.sequence.value)
  {
    hide AnyAtLeast, Settled, SeenSound;
    assert CallSound(place, s.store, s.issued, PhaseOf(s, id));
    RetainedMeansAnchored(place, s.store, s.issued, s.store.shards, 1);
  }

  /** The identifiers a call needs, and the first one it would be given. */
  ghost predicate Fits(place: string -> string, store: Store, keys: seq<string>) {
    NextOf(store) + |Missing(place, keys, store.shards)| <= MAX_ID + 1
  }

  function NextOf(store: Store): (next: int) {
    if store.sequence.Some? then store.sequence.value.next else 1
  }

  class Registry {
    var sys: System

    /** One call with nothing else running: every key is answered with a recorded identifier unless too few are left. */
    method NetworkIDs(place: string -> string, id: nat, keys: seq<string>) returns (result: Result<map<string, int>, Failure>)
      requires Sound(place, sys) && Calm(sys) && id !in sys.calls && "" !in keys
      modifies this
      ensures Sound(place, sys) && Calm(sys)
      ensures result.Ok? <==> Fits(place, old(sys).store, keys) || Missing(place, keys, old(sys).store.shards) == []
      ensures result.Err? ==> result.error == Exhausted
      ensures result.Ok? ==> result.value.Keys == set k | k in keys
      ensures result.Ok? ==> forall k :: k in result.value ==> Recorded(place, sys.store, k, result.value[k])
      ensures result.Ok? ==> result.value == Results(place, keys, old(sys).store.shards, NextOf(old(sys).store))
    {
      hide Sound, Calm, Missing, Results, Settled, Checked, ShardsOf, Recorded, Next;
      var q := ReadAll(place, id, keys);
      SettledKind(place, keys, sys.store.shards, q);
      if PhaseOf(sys, id).Ready? {
        FinishReady(place, id, keys, q);
      }
      var p := PhaseOf(sys, id);
      if p.Failed? {
        return Err(p.why);
      }
      DoneRecorded(place, sys, id);
      return Ok(p.result);
    }

    /** The claims, the anchor and then the sequence, creating the last two when there are none. */
    method ReadAll(place: string -> string, id: nat, keys: seq<string>) returns (q: Sequence)
      requires Sound(place, sys) && Calm(sys) && id !in sys.calls && "" !in keys
      modifies this
      ensures Sound(place, sys) && Calm(sys) && sys.store.shards == old(sys).store.shards && sys.store.sequence == Some(q)
      ensures q.next == NextOf(old(sys).store)
      ensures PhaseOf(sys, id) == Settled(place, keys, sys.store.shards, q)
    {
      hide Sound, Calm, Settled, Checked, Missing, AllGood, NoDuplicate, AnyAtLeast, ShardsOf, InShard, Results, Fresh, Range;
      ReadClaimsAndAnchor(place, id, keys);
      SequenceAlone(place, sys, id, keys);
      Advance(place, GetSequence(id));
      if sys.store.sequence.None? {
        CreateAlone(place, sys, id, keys);
        Advance(place, CreateSequence(id));
      }
      if sys.store.anchor.None? {
        Advance(place, CreateAnchor(id));
      }
      q := sys.store.sequence.value;
    }

    method ReadClaimsAndAnchor(place: string -> string, id: nat, keys: seq<string>)
      requires Sound(place, sys) && Calm(sys) && id !in sys.calls && "" !in keys
      modifies this
      ensures Sound(place, sys) && Calm(sys) && sys.store == old(sys).store
      ensures PhaseOf(sys, id) == AnchorRead(keys, sys.store.shards, sys.store.anchor)
    {
      hide Sound, Calm, Settled, Checked, Missing, AllGood, NoDuplicate, AnyAtLeast, ShardsOf, InShard, Results, Fresh, Range;
      Advance(place, Call(id, keys));
      ReadClaims(place, id, keys);
      Advance(place, List(id));
      Advance(place, GetAnchor(id));
    }

    method Advance(place: string -> string, event: Event)
      requires Sound(place, sys) && Calm(sys) && !event.DeleteSequence?
      modifies this
      ensures sys == Next(place, old(sys), event) && Sound(place, sys) && Calm(sys)
    {
      hide Next, Sound, Calm;
      NextSound(place, sys, event);
      NextCalm(place, sys, event);
      sys := Next(place, sys, event);
    }

    lemma ReadClaims(place: string -> string, id: nat, keys: seq<string>)
      requires Sound(place, sys) && PhaseOf(sys, id) == Started(keys)
      ensures var t := Next(place, sys, List(id)); t.store == sys.store && PhaseOf(t, id) == Listed(keys, sys.store.shards)
    {
      ListSound(place, sys.store, sys.issued);
      hide AllGood, NoDuplicate;
    }

    /** Creating the shards that do not exist, reserving, and recording shard by shard. */
    method FinishReady(place: string -> string, id: nat, keys: seq<string>, q: Sequence)
      requires Sound(place, sys) && Calm(sys) && UpToDate(sys, id, keys, q) && Missing(place, keys, sys.store.shards) != []
      modifies this
      ensures Sound(place, sys) && Calm(sys) && PhaseOf(sys, id).Done? && PhaseOf(sys, id).keys == keys
      ensures PhaseOf(sys, id).result == Results(place, keys, old(sys).store.shards, q.next)
    {
      hide Sound, Calm, Missing, Results, ShardsOf, InShard, Range, Fresh;
      var todo := ShardsOf(place, keys) - sys.store.shards.Keys;
      while todo != {}
        invariant Sound(place, sys) && Calm(sys) && UpToDate(sys, id, keys, q) && Missing(place, keys, sys.store.shards) != []
        invariant Results(place, keys, sys.store.shards, q.next) == Results(place, keys, old(sys).store.shards, q.next)
        invariant todo == ShardsOf(place, keys) - sys.store.shards.Keys
      {
        var shard :| shard in todo;
        MissingStays(place, keys, sys.store.shards, shard, ClaimShard(sys.store.clock, map[]));
        ResultsStay(place, keys, sys.store.shards, shard, ClaimShard(sys.store.clock, map[]), q.next);
        Advance(place, CreateShard(id, shard));
        todo := todo - {shard};
      }
      assert forall shard :: shard in ShardsOf(place, keys) ==> shard !in todo ==> shard in sys.store.shards.Keys;
      ReserveAlone(place, sys, id, keys, q);
      Advance(place, Reserve(id));
      RecordAll(place, id, keys);
    }

    method RecordAll(place: string -> string, id: nat, keys: seq<string>)
      requires Sound(place, sys) && Calm(sys) && PhaseOf(sys, id).Reserved? && PhaseOf(sys, id).keys == keys
      requires PhaseOf(sys, id).todo != {} && Unmoved(sys, PhaseOf(sys, id).seen, PhaseOf(sys, id).todo)
      modifies this
      ensures Sound(place, sys) && Calm(sys) && PhaseOf(sys, id).Done? && PhaseOf(sys, id).keys == keys
      ensures PhaseOf(sys, id).result == PhaseOf(old(sys), id).result
    {
      hide Sound, Calm, InShard, Fresh;
      while PhaseOf(sys, id).Reserved?
        invariant Sound(place, sys) && Calm(sys)
        invariant PhaseOf(sys, id).Done? || PhaseOf(sys, id).Reserved?
        invariant PhaseOf(sys, id).keys == keys && PhaseOf(sys, id).result == PhaseOf(old(sys), id).result
        invariant PhaseOf(sys, id).Reserved? ==> PhaseOf(sys, id).todo != {} && Unmoved(sys, PhaseOf(sys, id).seen, PhaseOf(sys, id).todo)
        decreases if PhaseOf(sys, id).Reserved? then PhaseOf(sys, id).todo else {}
      {
        var shard :| shard in PhaseOf(sys, id).todo;
        Advance(place, Record(id, shard));
      }
    }
  }

  lemma ReserveAlone(place: string -> string, s: System, id: nat, keys: seq<string>, q: Sequence)
    requires UpToDate(s, id, keys, q) && Missing(place, keys, s.store.shards) != [] && ShardsOf(place, keys) <= s.store.shards.Keys
    ensures var t := Next(place, s, Reserve(id)); var p := PhaseOf(t, id);
      p.Reserved? && p.keys == keys && p.todo != {} && Unmoved(t, p.seen, p.todo) && p.result == Results(place, keys, s.store.shards, q.next)
  {
    hide Missing, Results, Range;
    var missing := Missing(place, keys, s.store.shards);
    assert missing[0] in missing && place(missing[0]) in ShardsOf(place, missing);
    assert ShardsOf(place, missing) <= ShardsOf(place, keys);
  }

  /** The shards still to be written are as they were read. */
  ghost predicate Unmoved(s: System, seen: map<string, ClaimShard>, todo: set<string>) {
    forall shard :: shard in todo ==> shard in seen && shard in s.store.shards && s.store.shards[shard] == seen[shard]
  }

  lemma SettledKind(place: string -> string, keys: seq<string>, seen: map<string, ClaimShard>, q: Sequence)
    ensures var p := Settled(place, keys, seen, q); var m := Missing(place, keys, seen);
      if m == [] then p.Done? && p.keys == keys && p.result == Results(place, keys, seen, q.next)
      else if q.next + |m| > MAX_ID + 1 then p == Failed(Exhausted) else p == Ready(keys, seen, q)
  {
  }

  lemma DoneRecorded(place: string -> string, s: System, id: nat)
    requires Sound(place, s) && PhaseOf(s, id).Done?
    ensures var p := PhaseOf(s, id);
      p.result.Keys == (set k | k in p.keys) && forall k :: k in p.result ==> Recorded(place, s.store, k, p.result[k])
  {
    assert CallSound(place, s.store, s.issued, PhaseOf(s, id));
  }
}
