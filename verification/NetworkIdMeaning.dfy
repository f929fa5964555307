/** What the identifier allocator answers and writes, in its records themselves (internal/platformcontroller/networkid.go). */
module NetworkIdMeaning {
  import opened Wrappers
  import opened Ordering
  import opened NetworkIds

  // ---- What is asked for ----

  /** The identifier is retained for the key, in the key's own shard. */
  ghost predicate Held(place: string -> string, seen: map<string, ClaimShard>, k: string, id: int) {
    place(k) in seen && k in seen[place(k)].claims && seen[place(k)].claims[k] == id
  }

  /** The keys without a retained identifier. */
  ghost function Lacking(place: string -> string, keys: seq<string>, seen: map<string, ClaimShard>): (s: set<string>) {
    set k | k in keys && !exists id :: Held(place, seen, k, id)
  }

  lemma HeldMeans(place: string -> string, seen: map<string, ClaimShard>, k: string)
    ensures Claimed(place, seen, k) <==> exists id :: Held(place, seen, k, id)
    ensures forall id :: Held(place, seen, k, id) ==> RetainedId(place, seen, k) == id
  {
    if Claimed(place, seen, k) {
      assert Held(place, seen, k, seen[place(k)].claims[k]);
    }
  }

  lemma {:induction false} DistinctCount(s: seq<string>, members: set<string>)
    requires Distinct(s) && forall x :: x in s <==> x in members
    ensures |s| == |members|
  {
    if s == [] {
      assert members == {};
    } else {
      var front, last := s[..|s| - 1], s[|s| - 1];
      assert s == front + [last];
      DistinctCount(front, members - {last});
    }
  }

  lemma LackingMeans(place: string -> string, keys: seq<string>, seen: map<string, ClaimShard>)
    ensures |Missing(place, keys, seen)| == |Lacking(place, keys, seen)|
    ensures forall k :: k in Missing(place, keys, seen) <==> k in Lacking(place, keys, seen)
    ensures Missing(place, keys, seen) == [] <==> Lacking(place, keys, seen) == {}
  {
    var m := Missing(place, keys, seen);
    forall k ensures k in m <==> k in Lacking(place, keys, seen) {
      HeldMeans(place, seen, k);
    }
    DistinctCount(m, Lacking(place, keys, seen));
  }

  // ---- What is answered ----

  lemma InPlace(m: seq<string>)
    requires SortedBy(m, Self)
    ensures forall i, j :: 0 <= i < j < |m| ==> !Below(m[j], m[i])
  {
    hide Below;
    forall i, j | 0 <= i < j < |m| ensures !Below(m[j], m[i]) {
      assert !Below(Self(m[j]), Self(m[i]));
    }
  }

  lemma PositionsOrdered(m: seq<string>, k: string, l: string)
    requires SortedBy(m, Self) && k in m && l in m
    ensures Position(m, l) <= Position(m, k) ==> !Below(k, l)
  {
    hide Below, Position;
    InPlace(m);
    BelowTotal(k, l);
  }

  lemma InKeys(place: string -> string, keys: seq<string>, seen: map<string, ClaimShard>)
    ensures forall k :: k in Lacking(place, keys, seen) ==> k in keys
    ensures forall k, id :: Held(place, seen, k, id) ==> k !in Lacking(place, keys, seen)
  {
  }

  /** Retained identifiers stay; the keys without one get the next identifiers, one each, in the order of their names. */
  lemma ResultsMean(place: string -> string, keys: seq<string>, seen: map<string, ClaimShard>, next: int)
    ensures var r := Results(place, keys, seen, next); var lacking := Lacking(place, keys, seen);
      && (forall k :: k in r <==> k in keys)
      && (forall k, id :: k in keys && Held(place, seen, k, id) ==> r[k] == id)
      && (forall k :: k in lacking ==> k in r && next <= r[k] < next + |lacking|)
      && (forall k, l :: k in lacking && l in lacking && Below(k, l) ==> r[k] < r[l])
  {
    var r, m := Results(place, keys, seen, next), Missing(place, keys, seen);
    assert SortedBy(m, Self);
    hide Missing, Lacking, Held, Below, Position, Claimed, RetainedId;
    LackingMeans(place, keys, seen);
    InKeys(place, keys, seen);
    forall k, id | k in keys && Held(place, seen, k, id) ensures r[k] == id {
      HeldMeans(place, seen, k);
    }
    forall k, l | k in m && l in m ensures Position(m, l) <= Position(m, k) ==> !Below(k, l) {
      PositionsOrdered(m, k, l);
    }
  }

  /** With nothing else running a call succeeds exactly when every key is retained already or enough of the 16777215
      identifiers are left. */
  lemma FitsMeans(place: string -> string, store: Store, keys: seq<string>)
    ensures Fits(place, store, keys) <==>
            (if store.sequence.Some? then store.sequence.value.next else 1) + |Lacking(place, keys, store.shards)| <= 16777216
  {
    hide Missing, Lacking;
    LackingMeans(place, keys, store.shards);
  }

  // ---- What the readings find ----

  /** Kept in its key's own shard, within the range. */
  predicate Proper(place: string -> string, shard: string, key: string, id: int) {
    key != "" && place(key) == shard && 1 <= id <= 16777215
  }

  ghost predicate Retained(seen: map<string, ClaimShard>, shard: string, key: string, id: int) {
    shard in seen && key in seen[shard].claims && seen[shard].claims[key] == id
  }

  /** Some retained identifier is not below n. */
  ghost predicate Reaches(seen: map<string, ClaimShard>, n: int) {
    exists s, k, id :: Retained(seen, s, k, id) && id >= n
  }

  lemma ReachesMeans(seen: map<string, ClaimShard>, n: int)
    ensures AnyAtLeast(seen, n) <==> Reaches(seen, n)
  {
    if AnyAtLeast(seen, n) {
      var s, k :| s in seen && k in seen[s].claims && seen[s].claims[k] >= n;
      assert Retained(seen, s, k, seen[s].claims[k]);
    }
  }

  lemma StartMeans(place: string -> string, store: Store, id: nat, keys: seq<string>)
    ensures Request(place, store, Idle, Call(id, keys)) == if "" in keys then None else Some((store, Started(keys)))
  {
  }

  /** The listing is taken as it is when every retained identifier is proper and none is retained twice. */
  lemma ListMeans(place: string -> string, store: Store, id: nat, keys: seq<string>)
    ensures var proper := forall s, k, i :: Retained(store.shards, s, k, i) ==> Proper(place, s, k, i);
      var single := forall s, k, t, l, i :: Retained(store.shards, s, k, i) && Retained(store.shards, t, l, i) ==> s == t && k == l;
      Request(place, store, Started(keys), List(id)) ==
        Some((store, if !proper then Failed(DamagedClaim) else if !single then Failed(DuplicateId) else Listed(keys, store.shards)))
  {
    forall s, k | s in store.shards && k in store.shards[s].claims ensures Retained(store.shards, s, k, store.shards[s].claims[k]) {
    }
  }

  lemma AnchorMeans(place: string -> string, store: Store, id: nat, keys: seq<string>, seen: map<string, ClaimShard>)
    ensures Request(place, store, Listed(keys, seen), GetAnchor(id)) == Some((store, AnchorRead(keys, seen, store.anchor)))
  {
  }

  /** Where a call stands once its sequence is the anchored one. */
  predicate Stands(keys: seq<string>, seen: map<string, ClaimShard>, q: Sequence, lacking: int, p: Phase) {
    && (p.Done? <==> lacking == 0) && (p.Done? ==> p.keys == keys)
    && (p == Failed(Exhausted) <==> lacking > 0 && q.next + lacking > 16777216)
    && (p == Ready(keys, seen, q) <==> lacking > 0 && q.next + lacking <= 16777216)
  }

  lemma SettledMeans(place: string -> string, keys: seq<string>, seen: map<string, ClaimShard>, q: Sequence)
    ensures Stands(keys, seen, q, |Lacking(place, keys, seen)|, Settled(place, keys, seen, q))
  {
    hide Missing, Lacking, Results;
    LackingMeans(place, keys, seen);
  }

  /** A sequence that is read: in range, above every retained identifier, and the anchored one; without an anchor it must
      be unused. */
  lemma SequenceMeans(place: string -> string, store: Store, id: nat, keys: seq<string>, seen: map<string, ClaimShard>, anchor: Option<nat>)
    ensures var r := Request(place, store, AnchorRead(keys, seen, anchor), GetSequence(id)); var q := store.sequence;
      && r.Some? && r.value.0 == store
      && var p := r.value.1;
      && (p == Failed(SequenceMissing) <==> q.None? && (anchor.Some? || Reaches(seen, 1)))
      && (p == Creating(keys, seen) <==> q.None? && anchor.None? && !Reaches(seen, 1))
      && (p == Failed(SequenceInvalid) <==> q.Some? && (q.value.next < 1 || q.value.next > 16777216))
      && (p == Failed(SequenceRegressed) <==> q.Some? && 1 <= q.value.next <= 16777216 && Reaches(seen, q.value.next))
      && var sane := q.Some? && 1 <= q.value.next <= 16777216 && !Reaches(seen, q.value.next);
      && (p == Failed(AnchorMissing) <==> sane && anchor.None? && (q.value.next != 1 || Reaches(seen, 1)))
      && (sane && anchor.None? && q.value.next == 1 && !Reaches(seen, 1) ==> p == Anchoring(keys, seen, q.value))
      && (p == Failed(IdentityChanged) <==> sane && anchor.Some? && anchor.value != q.value.uid)
      && (sane && anchor.Some? && anchor.value == q.value.uid ==> Stands(keys, seen, q.value, |Lacking(place, keys, seen)|, p))
  {
    hide Missing, Lacking, Results, AnyAtLeast, Reaches, Settled, Stands;
    ReachesMeans(seen, 1);
    if store.sequence.Some? {
      ReachesMeans(seen, store.sequence.value.next);
      SettledMeans(place, keys, seen, store.sequence.value);
      StandsNowhereElse(keys, seen, store.sequence.value, |Lacking(place, keys, seen)|, Settled(place, keys, seen, store.sequence.value));
    }
  }

  lemma StandsNowhereElse(keys: seq<string>, seen: map<string, ClaimShard>, q: Sequence, lacking: nat, p: Phase)
    requires Stands(keys, seen, q, lacking, p)
    ensures p.Done? || p.Ready? || p == Failed(Exhausted)
  {
  }

  // ---- What the writings do ----

  /** A sequence is created only where there is none: fresh, and starting at 1. */
  lemma CreateSequenceMeans(place: string -> string, store: Store, id: nat, keys: seq<string>, seen: map<string, ClaimShard>)
    ensures var r := Request(place, store, Creating(keys, seen), CreateSequence(id));
      && r.Some?
      && if store.sequence.Some? then r.value == (store, Failed(WriteRefused))
         else
           var q := Sequence(store.clock, store.clock, 1);
           && r.value.0 == store.(sequence := Some(q), clock := store.clock + 1)
           && r.value.1 == if Reaches(seen, 1) then Failed(SequenceRegressed) else Anchoring(keys, seen, q)
  {
    hide AnyAtLeast, Reaches;
    ReachesMeans(seen, 1);
  }

  /** An anchor is created only where there is none, and names the sequence just read. */
  lemma CreateAnchorMeans(place: string -> string, store: Store, id: nat, keys: seq<string>, seen: map<string, ClaimShard>, q: Sequence)
    ensures var r := Request(place, store, Anchoring(keys, seen, q), CreateAnchor(id));
      && r.Some?
      && if store.anchor.Some? then r.value == (store, Failed(WriteRefused))
         else r.value.0 == store.(anchor := Some(q.uid)) && Stands(keys, seen, q, |Lacking(place, keys, seen)|, r.value.1)
  {
    hide Settled, Stands, Lacking;
    SettledMeans(place, keys, seen, q);
  }

  lemma ShardMeans(place: string -> string, store: Store, id: nat, keys: seq<string>, seen: map<string, ClaimShard>, q: Sequence, shard: string)
    ensures var r := Request(place, store, Ready(keys, seen, q), CreateShard(id, shard));
      && (r.Some? <==> shard !in seen && exists k :: k in keys && place(k) == shard)
      && (r.Some? && shard in store.shards ==> r.value == (store, Failed(WriteRefused)))
      && (r.Some? && shard !in store.shards ==>
            && r.value.0 == store.(shards := store.shards[shard := ClaimShard(store.clock, map[])], clock := store.clock + 1)
            && r.value.1 == Ready(keys, seen[shard := ClaimShard(store.clock, map[])], q))
  {
  }

  /** A reservation waits for all shards and is a compare-and-swap on the sequence: the number of keys without an identifier
      is taken off the front of what is left. */
  lemma ReserveMeans(place: string -> string, store: Store, id: nat, keys: seq<string>, seen: map<string, ClaimShard>, q: Sequence)
    ensures var r := Request(place, store, Ready(keys, seen, q), Reserve(id)); var lacking := Lacking(place, keys, seen);
      var current := store.sequence.Some? && store.sequence.value.uid == q.uid && store.sequence.value.version == q.version;
      && (r.Some? <==> forall k :: k in keys ==> place(k) in seen)
      && (r.Some? && !current ==> r.value == (store, Failed(WriteRefused)))
      && (r.Some? && current ==>
            && r.value.0 == store.(sequence := Some(Sequence(q.uid, store.clock, q.next + |lacking|)), clock := store.clock + 1)
            && r.value.1 == Reserved(keys, seen, Results(place, keys, seen, q.next), set k | k in lacking :: place(k)))
  {
    hide Missing, Lacking, Results;
    LackingMeans(place, keys, seen);
    assert ShardsOf(place, Missing(place, keys, seen)) == set k | k in Lacking(place, keys, seen) :: place(k);
    assert ShardsOf(place, keys) <= seen.Keys <==> forall k :: k in keys ==> place(k) in seen;
  }

  /** Recording is a compare-and-swap on one shard: what it held stays, and the results that belong there are added. */
  lemma RecordMeans(place: string -> string, store: Store, id: nat, keys: seq<string>, seen: map<string, ClaimShard>, result: map<string, int>,
                    todo: set<string>, shard: string)
    ensures var r := Request(place, store, Reserved(keys, seen, result, todo), Record(id, shard));
      && (r.Some? <==> shard in todo && shard in seen)
      && (r.Some? && (shard !in store.shards || store.shards[shard].version != seen[shard].version) ==> r.value == (store, Failed(WriteRefused)))
      && (r.Some? && shard in store.shards && store.shards[shard].version == seen[shard].version ==>
            && shard in r.value.0.shards && r.value.0 == store.(shards := store.shards[shard := r.value.0.shards[shard]], clock := store.clock + 1)
            && r.value.0.shards[shard].version == store.clock
            && (forall k, i :: Retained(r.value.0.shards, shard, k, i) <==>
                  if k in result && place(k) == shard then result[k] == i else Retained(seen, shard, k, i))
            && r.value.1 == if todo - {shard} == {} then Done(keys, result) else Reserved(keys, seen, result, todo - {shard}))
  {
  }

  /** Every other request at another point of a call does not apply, except that any call can stop. */
  lemma OtherwiseMeans(place: string -> string, store: Store, p: Phase, event: Event)
    ensures var r := Request(place, store, p, event);
      && (event.Stop? ==> r == Some((store, Failed(Stopped))))
      && (event.DeleteSequence? ==> r.None?)
      && (r.Some? ==> match event
           case Call(_, _) => p.Idle?
           case List(_) => p.Started?
           case GetAnchor(_) => p.Listed?
           case GetSequence(_) => p.AnchorRead?
           case CreateSequence(_) => p.Creating?
           case CreateAnchor(_) => p.Anchoring?
           case CreateShard(_, _) => p.Ready?
           case Reserve(_) => p.Ready?
           case Record(_, _) => p.Reserved?
           case Stop(_) => true
           case DeleteSequence => false)
  {
    hide Checked, Settled, Missing, Results, AllGood, NoDuplicate, AnyAtLeast;
  }

  /** An event moves its own call only; deleting the sequence moves none. */
  lemma EventMeans(place: string -> string, s: System, event: Event)
    ensures var t := Next(place, s, event);
      if event.DeleteSequence? then t.store == s.store.(sequence := None) && t.calls == s.calls && t.issued == s.issued
      else
        var r := Request(place, s.store, if event.id in s.calls then s.calls[event.id] else Idle, event);
        && (r.None? ==> t == s)
        && (r.Some? ==> t.store == r.value.0 && event.id in t.calls && t.calls[event.id] == r.value.1)
        && forall c :: c != event.id ==> (c in t.calls <==> c in s.calls) && (c in t.calls ==> t.calls[c] == s.calls[c])
  {
    hide Request, Fresh;
  }
}
