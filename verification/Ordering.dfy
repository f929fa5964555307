/** Lexical order on text and sorting by a text key, as Go's sort package does it. */
module Ordering {

  /** Lexical order: the order Go compares strings in. */
  predicate Below(a: string, b: string) {
    if b == [] then false
    else if a == [] then true
    else if a[0] != b[0] then a[0] < b[0]
    else Below(a[1..], b[1..])
  }

  lemma {:induction false} BelowTotal(a: string, b: string)
    ensures a == b || Below(a, b) || Below(b, a)
    ensures !(Below(a, b) && Below(b, a)) && !Below(a, a)
  {
    if a != [] && b != [] && a[0] == b[0] {
      BelowTotal(a[1..], b[1..]);
      assert a == [a[0]] + a[1..] && b == [b[0]] + b[1..];
    }
    if a != [] {
      BelowTotal(a[1..], a[1..]);
    }
  }

  /** A text is below its extensions, and otherwise the first difference decides. */
  lemma {:induction false} Lexical(common: string, c: char, d: char, x: string, y: string)
    ensures Below(common, common + ([c] + x))
    ensures Below(common + ([c] + x), common + ([d] + y)) <==> c < d || (c == d && Below(x, y))
  {
    var s, t := common + ([c] + x), common + ([d] + y);
    if common == [] {
      assert s == [c] + x && t == [d] + y && s[1..] == x && t[1..] == y;
    } else {
      Lexical(common[1..], c, d, x, y);
      assert s[1..] == common[1..] + ([c] + x) && t[1..] == common[1..] + ([d] + y);
    }
  }

  lemma {:induction false} BelowTransitive(a: string, b: string, c: string)
    requires Below(a, b) && Below(b, c)
    ensures Below(a, c)
  {
    if a != [] && a[0] == b[0] && b[0] == c[0] {
      BelowTransitive(a[1..], b[1..], c[1..]);
    }
  }

  function Self(s: string): (r: string) {
    s
  }

  ghost predicate SortedBy<T>(s: seq<T>, key: T -> string) {
    forall i, j :: 0 <= i < j < |s| ==> !Below(key(s[j]), key(s[i]))
  }

  ghost predicate Distinct<T>(s: seq<T>) {
    forall i, j :: 0 <= i < j < |s| ==> s[i] != s[j]
  }

  lemma BelowHead<T>(x: T, s: seq<T>, key: T -> string)
    requires SortedBy(s, key) && s != [] && !Below(key(s[0]), key(x))
    ensures forall y :: y in s ==> !Below(key(y), key(x))
  {
    forall i | 0 <= i < |s| && Below(key(s[i]), key(x))
      ensures i == 0
    {
      BelowTotal(key(s[0]), key(s[i]));
      if key(s[0]) != key(s[i]) && 0 < i {
        BelowTransitive(key(s[0]), key(s[i]), key(x));
      }
    }
  }

  lemma PrependSorted<T>(x: T, s: seq<T>, key: T -> string)
    requires SortedBy(s, key) && forall y :: y in s ==> !Below(key(y), key(x))
    ensures SortedBy([x] + s, key)
  {
  }

  function Insert<T>(x: T, s: seq<T>, key: T -> string): (r: seq<T>)
    requires SortedBy(s, key)
    ensures SortedBy(r, key) && |r| == |s| + 1
    ensures forall i :: 0 <= i < |r| ==> r[i] == x || r[i] in s
  {
    if s == [] then [x]
    else if !Below(key(s[0]), key(x)) then
      BelowHead(x, s, key);
      PrependSorted(x, s, key);
      [x] + s
    else
      var rest := Insert(x, s[1..], key);
      BelowTotal(key(s[0]), key(x));
      PrependSorted(s[0], rest, key);
      [s[0]] + rest
  }

  lemma {:induction false} InsertKeepsAll<T>(x: T, s: seq<T>, key: T -> string)
    requires SortedBy(s, key)
    ensures multiset(Insert(x, s, key)) == multiset([x]) + multiset(s)
  {
    if s != [] && Below(key(s[0]), key(x)) {
      InsertKeepsAll(x, s[1..], key);
      assert s == [s[0]] + s[1..];
    }
  }

  function Sort<T>(s: seq<T>, key: T -> string): (r: seq<T>)
    ensures SortedBy(r, key) && multiset(r) == multiset(s) && |r| == |s|
  {
    if s == [] then []
    else
      assert s == [s[0]] + s[1..];
      InsertKeepsAll(s[0], Sort(s[1..], key), key);
      Insert(s[0], Sort(s[1..], key), key)
  }

  lemma SortedHeads<T>(a: seq<T>, b: seq<T>, key: T -> string)
    requires SortedBy(a, key) && SortedBy(b, key) && multiset(a) == multiset(b) && a != [] && b != []
    requires forall x, y :: x in a && y in a && key(x) == key(y) ==> x == y
    ensures a[0] == b[0]
  {
    assert a[0] in multiset(b) && b[0] in multiset(a);
    var i :| 0 <= i < |b| && b[i] == a[0];
    var j :| 0 <= j < |a| && a[j] == b[0];
    BelowTotal(key(a[0]), key(b[0]));
  }

  lemma TailMultiset<T>(a: seq<T>)
    requires a != []
    ensures multiset(a[1..]) == multiset(a) - multiset{a[0]}
  {
    assert a == [a[0]] + a[1..];
  }

  /** A sorted arrangement is unique when keys identify elements. */
  lemma {:induction false} SortedUnique<T>(a: seq<T>, b: seq<T>, key: T -> string)
    requires SortedBy(a, key) && SortedBy(b, key) && multiset(a) == multiset(b)
    requires forall x, y :: x in a && y in a && key(x) == key(y) ==> x == y
    ensures a == b
  {
    assert |multiset(a)| == |a| && |multiset(b)| == |b|;
    if a != [] {
      SortedHeads(a, b, key);
      TailMultiset(a);
      TailMultiset(b);
      SortedUnique(a[1..], b[1..], key);
      assert a == [a[0]] + a[1..] && b == [b[0]] + b[1..];
    }
  }

  /** Sorting forgets the order of its input. */
  lemma SortForgetsOrder<T>(a: seq<T>, b: seq<T>, key: T -> string)
    requires multiset(a) == multiset(b)
    requires forall x, y :: x in a && y in a && key(x) == key(y) ==> x == y
    ensures Sort(a, key) == Sort(b, key)
  {
    var s := Sort(a, key);
    forall x | x in s ensures x in a {
      assert x in multiset(s);
    }
    SortedUnique(s, Sort(b, key), key);
  }

  /** No repetition means every member has multiplicity one. */
  lemma {:induction false} DistinctMultiplicity<T>(s: seq<T>)
    ensures Distinct(s) <==> forall v :: v in s ==> multiset(s)[v] == 1
  {
    if s != [] {
      var head, rest := s[0], s[1..];
      assert s == [head] + rest;
      DistinctMultiplicity(rest);
      assert Distinct(s) <==> head !in rest && Distinct(rest) by {
        assert forall i :: 0 <= i < |rest| ==> rest[i] == s[i + 1];
        assert forall j :: 0 < j < |s| ==> s[j] == rest[j - 1];
      }
      assert forall v :: multiset(s)[v] == multiset(rest)[v] + if v == head then 1 else 0;
      if head in rest {
        assert multiset(s)[head] > 1 && head in s;
      } else {
        assert forall v :: v in s <==> v == head || v in rest;
      }
    }
  }

  /** A relation between every two positions of a list. */
  ghost predicate Pairwise<T>(s: seq<T>, rel: (T, T) -> bool) {
    forall i, j :: 0 <= i < j < |s| ==> rel(s[i], s[j])
  }

  /** A symmetric relation nothing has with itself. */
  ghost predicate Separating<T(!new)>(rel: (T, T) -> bool) {
    && (forall x, y :: rel(x, y) ==> rel(y, x))
    && forall x :: !rel(x, x)
  }

  lemma PairwiseAsSet<T(!new)>(s: seq<T>, rel: (T, T) -> bool)
    requires Separating(rel)
    ensures Pairwise(s, rel) <==> Distinct(s) && forall x, y :: x in s && y in s && x != y ==> rel(x, y)
  {
  }

  lemma SameMembers<T(!new)>(a: seq<T>, b: seq<T>)
    requires multiset(a) == multiset(b)
    ensures |a| == |b| && (Distinct(a) <==> Distinct(b)) && forall x :: x in a <==> x in b
  {
    DistinctMultiplicity(a);
    DistinctMultiplicity(b);
    assert |multiset(a)| == |a| && |multiset(b)| == |b|;
    assert forall x :: x in a <==> x in multiset(a);
    assert forall x :: x in b <==> x in multiset(b);
  }

  /** A separating relation holds pairwise whatever the order. */
  lemma PairwiseForgetsOrder<T(!new)>(a: seq<T>, b: seq<T>, rel: (T, T) -> bool)
    requires Separating(rel) && multiset(a) == multiset(b)
    ensures Pairwise(a, rel) <==> Pairwise(b, rel)
  {
    SameMembers(a, b);
    PairwiseAsSet(a, rel);
    PairwiseAsSet(b, rel);
  }

  /** The members of a set in order, each once. */
  ghost predicate Listing<T(!new)>(s: seq<T>, members: set<T>, key: T -> string) {
    SortedBy(s, key) && Distinct(s) && forall x :: x in s <==> x in members
  }

  /** Keys tell members apart. */
  ghost predicate Keyed<T(!new)>(members: set<T>, key: T -> string) {
    forall x, y :: x in members && y in members && key(x) == key(y) ==> x == y
  }

  /** A set has one listing only. */
  lemma ListingUnique<T(!new)>(a: seq<T>, b: seq<T>, members: set<T>, key: T -> string)
    requires Listing(a, members, key) && Listing(b, members, key) && Keyed(members, key)
    ensures a == b
  {
    DistinctMultiplicity(a);
    DistinctMultiplicity(b);
    assert multiset(a) == multiset(b) by {
      forall x ensures multiset(a)[x] == multiset(b)[x] {
        assert x in a <==> x in multiset(a);
        assert x in b <==> x in multiset(b);
      }
    }
    SortedUnique(a, b, key);
  }

  /** Sorting a list without repetition lists its members. */
  lemma SortLists<T(!new)>(s: seq<T>, members: set<T>, key: T -> string)
    requires Distinct(s) && forall x :: x in s <==> x in members
    ensures Listing(Sort(s, key), members, key)
  {
    SameMembers(Sort(s, key), s);
  }

  /** Two arrangements of the same elements: the last of one somewhere in the other, and the same elements beside it. */
  lemma TakeOut<T(!new)>(x: seq<T>, y: seq<T>) returns (i: nat)
    requires multiset(x) == multiset(y) && x != []
    ensures i < |y| && y[i] == x[|x| - 1] && y == y[..i] + [y[i]] + y[i + 1..]
    ensures multiset(x[..|x| - 1]) == multiset(y[..i] + y[i + 1..])
  {
    var front, last := x[..|x| - 1], x[|x| - 1];
    assert x == front + [last];
    assert last in multiset(y);
    i :| 0 <= i < |y| && y[i] == last;
    assert y == y[..i] + [last] + y[i + 1..];
    assert multiset(y) == multiset(y[..i]) + multiset{last} + multiset(y[i + 1..]);
    assert multiset(x) == multiset(front) + multiset{last};
    var rest := y[..i] + y[i + 1..];
    assert multiset(rest) == multiset(y[..i]) + multiset(y[i + 1..]);
    forall e ensures multiset(front)[e] == multiset(rest)[e] {
      assert multiset(x)[e] == multiset(y)[e];
    }
    assert multiset(front) == multiset(rest);
  }

  /** Sorted map keys, as collected before iterating over a map in order. */
  method SortedNames(names: set<string>) returns (s: seq<string>)
    ensures Listing(s, names, Self)
  {
    var todo := names;
    s := [];
    while todo != {}
      invariant todo <= names && Distinct(s) && forall x :: x in s <==> x in names && x !in todo
    {
      var n :| n in todo;
      s, todo := s + [n], todo - {n};
    }
    SortLists(s, names, Self);
    s := Sort(s, Self);
  }
}
