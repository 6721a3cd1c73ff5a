/** Sequence operations behind `Array.prototype.filter`, `Array.from(new Set(...))` and a
    stable `Array.prototype.sort` with a comparator that orders by a key, descending. */
module Seqs {
  import opened Wrappers

  /** `findOne` on a collection, `Array.prototype.findIndex`: the position of the first
      element that satisfies `p`, if any. */
  function FirstIndex<T>(s: seq<T>, p: T -> bool): (r: Option<nat>)
    ensures r.Some? ==> r.value < |s| && p(s[r.value])
    ensures r.Some? ==> forall j :: 0 <= j < r.value ==> !p(s[j])
    ensures r.None? ==> forall j :: 0 <= j < |s| ==> !p(s[j])
  {
    if s == [] then None
    else if p(s[0]) then Some(0)
    else match FirstIndex(s[1..], p)
      case None => None
      case Some(k) => Some(k + 1)
  }

  /** Replacing the element found by one that still satisfies `p` keeps it found. */
  lemma FirstIndexUpdated<T>(s: seq<T>, p: T -> bool, k: nat, x: T)
    requires FirstIndex(s, p) == Some(k) && p(x)
    ensures FirstIndex(s[k := x], p) == Some(k)
  {
    var t := s[k := x];
    assert t[k] == x && p(t[k]);
    assert forall j :: 0 <= j < k ==> t[j] == s[j] && !p(t[j]);
  }

  /** `s.filter(p)`: the elements that satisfy `p`, each as often as in `s`, in order. */
  function Filter<T(!new)>(s: seq<T>, p: T -> bool): (r: seq<T>)
    ensures |r| <= |s|
    ensures forall x :: x in r <==> x in s && p(x)
    ensures forall x :: multiset(r)[x] == if p(x) then multiset(s)[x] else 0
  {
    if s == [] then []
    else
      assert s == [s[0]] + s[1..];
      (if p(s[0]) then [s[0]] else []) + Filter(s[1..], p)
  }

  /** A filter whose predicate holds everywhere returns its input. */
  lemma {:induction false} FilterAll<T(!new)>(s: seq<T>, p: T -> bool)
    requires forall x :: x in s ==> p(x)
    ensures Filter(s, p) == s
  {
    if s != [] {
      FilterAll(s[1..], p);
    }
  }

  predicate NoDuplicates<T(==)>(s: seq<T>) {
    forall i, j :: 0 <= i < j < |s| ==> s[i] != s[j]
  }

  /** `Array.from(new Set(s))`: the distinct elements of `s` in order of first occurrence. */
  function Dedup<T(==,!new)>(s: seq<T>): (r: seq<T>)
    ensures NoDuplicates(r)
    ensures forall x :: x in r <==> x in s
    ensures |r| <= |s|
  {
    if s == [] then []
    else
      var d := Dedup(s[..|s| - 1]);
      var x := s[|s| - 1];
      assert s == s[..|s| - 1] + [x];
      if x in d then d else d + [x]
  }

  /** Extending the input only appends to the de-duplicated list: what was there keeps its
      place and order. */
  lemma {:induction false} DedupPrefix<T(!new)>(a: seq<T>, b: seq<T>)
    ensures |Dedup(a)| <= |Dedup(a + b)| && Dedup(a + b)[..|Dedup(a)|] == Dedup(a)
  {
    if b != [] {
      var b' := b[..|b| - 1];
      assert (a + b)[..|a + b| - 1] == a + b';
      DedupPrefix(a, b');
    } else {
      assert a + b == a;
    }
  }

  /** A list without duplicates is its own de-duplication. */
  lemma {:induction false} DedupOfDistinct<T(!new)>(s: seq<T>)
    requires NoDuplicates(s)
    ensures Dedup(s) == s
  {
    if s != [] {
      var s' := s[..|s| - 1];
      DedupOfDistinct(s');
      assert s[|s| - 1] !in s';
    }
  }

  /** The number of occurrences of `x` in `s`. */
  function Count<T(==)>(s: seq<T>, x: T): nat {
    multiset(s)[x]
  }

  /** `s.filter((_, i) => i !== k)`. */
  function RemoveAt<T>(s: seq<T>, k: nat): (r: seq<T>)
    ensures k < |s| ==> |r| == |s| - 1
    ensures k < |s| ==> forall i :: 0 <= i < k ==> r[i] == s[i]
    ensures k < |s| ==> forall i :: k <= i < |r| ==> r[i] == s[i + 1]
    ensures k >= |s| ==> r == s
  {
    if k < |s| then s[..k] + s[k + 1..] else s
  }

  /** A two-level sort key; the comparators of the model order by it, larger first. */
  datatype Rank = Rank(major: int, minor: int)

  /** `a` strictly precedes `b`: the comparator returns a negative number. */
  predicate Outranks(a: Rank, b: Rank) {
    a.major > b.major || (a.major == b.major && a.minor > b.minor)
  }

  lemma OutranksIsStrictOrder(a: Rank, b: Rank, c: Rank)
    ensures !Outranks(a, a)
    ensures Outranks(a, b) && Outranks(b, c) ==> Outranks(a, c)
    ensures !Outranks(a, b) && !Outranks(b, c) ==> !Outranks(a, c)
  {
  }

  /** No element is strictly preceded by a later one. */
  ghost predicate SortedByRank<T>(s: seq<T>, rank: T -> Rank) {
    forall i, j :: 0 <= i < j < |s| ==> !Outranks(rank(s[j]), rank(s[i]))
  }

  /** No element of `s` strictly outranks `top`. */
  ghost predicate NoneAbove<T>(s: seq<T>, rank: T -> Rank, top: Rank) {
    forall j :: 0 <= j < |s| ==> !Outranks(rank(s[j]), top)
  }

  /** `NoneAbove` depends only on the elements, not on their order. */
  lemma NoneAboveOfPermutation<T>(a: seq<T>, b: seq<T>, rank: T -> Rank, top: Rank)
    requires multiset(a) == multiset(b) && NoneAbove(b, rank, top)
    ensures NoneAbove(a, rank, top)
  {
    forall j | 0 <= j < |a| ensures !Outranks(rank(a[j]), top) {
      assert a[j] in multiset(b);
      var k :| 0 <= k < |b| && b[k] == a[j];
    }
  }

  /** A sorted list stays sorted behind an element nothing in it outranks. */
  lemma SortedCons<T>(h: T, s: seq<T>, rank: T -> Rank)
    requires SortedByRank(s, rank) && NoneAbove(s, rank, rank(h))
    ensures SortedByRank([h] + s, rank)
  {
    var r := [h] + s;
    forall i, j | 0 <= i < j < |r| ensures !Outranks(rank(r[j]), rank(r[i])) {
      assert r[j] == s[j - 1];
      if i > 0 {
        assert r[i] == s[i - 1];
      }
    }
  }

  /** Inserts `x` in front of the first element it strictly outranks, that is after every
      element ranked at least as high: an element inserted later stays behind its equals. */
  function Insert<T(!new)>(t: seq<T>, x: T, rank: T -> Rank): (r: seq<T>)
    requires SortedByRank(t, rank)
    ensures SortedByRank(r, rank)
    ensures multiset(r) == multiset(t) + multiset{x}
    ensures |r| == |t| + 1
  {
    if t == [] then [x]
    else if Outranks(rank(x), rank(t[0])) then
      assert NoneAbove(t, rank, rank(x)) by {
        forall j | 0 <= j < |t| ensures !Outranks(rank(t[j]), rank(x)) {
          OutranksIsStrictOrder(rank(t[j]), rank(x), rank(t[0]));
        }
      }
      SortedCons(x, t, rank);
      [x] + t
    else
      var rest := t[1..];
      var r' := Insert(rest, x, rank);
      assert t == [t[0]] + rest;
      assert NoneAbove(rest + [x], rank, rank(t[0])) by {
        forall j | 0 <= j < |rest| + 1 ensures !Outranks(rank((rest + [x])[j]), rank(t[0])) {
          if j < |rest| {
            assert (rest + [x])[j] == t[j + 1];
          }
        }
      }
      NoneAboveOfPermutation(r', rest + [x], rank, rank(t[0]));
      SortedCons(t[0], r', rank);
      [t[0]] + r'
  }

  /** A stable sort, larger rank first: the sorted result is a permutation of the input. */
  function SortByRank<T(!new)>(s: seq<T>, rank: T -> Rank): (r: seq<T>)
    ensures SortedByRank(r, rank)
    ensures multiset(r) == multiset(s)
    ensures |r| == |s|
  {
    if s == [] then []
    else
      assert s == s[..|s| - 1] + [s[|s| - 1]];
      Insert(SortByRank(s[..|s| - 1], rank), s[|s| - 1], rank)
  }

  lemma SortSingleton<T(!new)>(x: T, rank: T -> Rank)
    ensures SortByRank([x], rank) == [x]
  {
    assert [x][..0] == [];
  }

  /** The elements of rank `k`, in order. */
  function OfRank<T>(s: seq<T>, rank: T -> Rank, k: Rank): seq<T> {
    if s == [] then [] else (if rank(s[0]) == k then [s[0]] else []) + OfRank(s[1..], rank, k)
  }

  lemma {:induction false} OfRankAppend<T>(a: seq<T>, b: seq<T>, rank: T -> Rank, k: Rank)
    ensures OfRank(a + b, rank, k) == OfRank(a, rank, k) + OfRank(b, rank, k)
  {
    if a == [] {
      assert a + b == b;
    } else {
      assert (a + b)[0] == a[0] && (a + b)[1..] == a[1..] + b;
      OfRankAppend(a[1..], b, rank, k);
    }
  }

  /** No element of a list that `x` outranks throughout has the rank of `x`. */
  lemma {:induction false} OfRankBelow<T>(t: seq<T>, x: T, rank: T -> Rank)
    requires forall j :: 0 <= j < |t| ==> Outranks(rank(x), rank(t[j]))
    ensures OfRank(t, rank, rank(x)) == []
  {
    if t != [] {
      OutranksIsStrictOrder(rank(x), rank(t[0]), rank(t[0]));
      OfRankBelow(t[1..], x, rank);
    }
  }

  lemma OfRankCons<T>(h: T, s: seq<T>, rank: T -> Rank, k: Rank)
    ensures OfRank([h] + s, rank, k) == (if rank(h) == k then [h] else []) + OfRank(s, rank, k)
  {
    assert ([h] + s)[0] == h && ([h] + s)[1..] == s;
  }

  /** Insertion puts `x` behind every element of its own rank. */
  lemma {:induction false} InsertKeepsOrderOfRank<T(!new)>(t: seq<T>, x: T, rank: T -> Rank, k: Rank)
    requires SortedByRank(t, rank)
    ensures OfRank(Insert(t, x, rank), rank, k) == OfRank(t, rank, k) + (if rank(x) == k then [x] else [])
    decreases |t|
  {
    var mine := if rank(x) == k then [x] else [];
    if t == [] {
      assert Insert(t, x, rank) == [x] + t;
      OfRankCons(x, t, rank, k);
    } else if Outranks(rank(x), rank(t[0])) {
      assert Insert(t, x, rank) == [x] + t;
      OfRankCons(x, t, rank, k);
      if rank(x) == k {
        forall j | 0 <= j < |t| ensures Outranks(rank(x), rank(t[j])) {
          OutranksIsStrictOrder(rank(x), rank(t[j]), rank(t[0]));
        }
        OfRankBelow(t, x, rank);
      }
    } else {
      var r' := Insert(t[1..], x, rank);
      assert Insert(t, x, rank) == [t[0]] + r';
      InsertKeepsOrderOfRank(t[1..], x, rank, k);
      OfRankCons(t[0], r', rank, k);
      assert t == [t[0]] + t[1..];
      OfRankCons(t[0], t[1..], rank, k);
    }
  }

  /** The sort is stable: the elements of any one rank come out in the order they went
      in. */
  lemma {:induction false} SortByRankIsStable<T(!new)>(s: seq<T>, rank: T -> Rank, k: Rank)
    ensures OfRank(SortByRank(s, rank), rank, k) == OfRank(s, rank, k)
  {
    if s != [] {
      var init, x := s[..|s| - 1], s[|s| - 1];
      assert s == init + [x];
      var sorted := SortByRank(init, rank);
      assert SortByRank(s, rank) == Insert(sorted, x, rank);
      SortByRankIsStable(init, rank, k);
      InsertKeepsOrderOfRank(sorted, x, rank, k);
      OfRankAppend(init, [x], rank, k);
      OfRankCons(x, [], rank, k);
      assert [x] + [] == [x];
    }
  }

  /** A repeated element is counted at least twice. */
  lemma RepeatCountsTwice<T>(s: seq<T>, i: nat, j: nat)
    requires i < j < |s| && s[i] == s[j]
    ensures multiset(s)[s[i]] >= 2
  {
    assert s == s[..j] + [s[j]] + s[j + 1..];
    assert s[i] in s[..j];
  }

  /** Without repeats, every element is counted at most once. */
  lemma {:induction false} DistinctCountsOnce<T>(s: seq<T>)
    requires NoDuplicates(s)
    ensures forall x :: multiset(s)[x] <= 1
  {
    if s != [] {
      DistinctCountsOnce(s[1..]);
      assert s == [s[0]] + s[1..];
      assert s[0] !in s[1..];
    }
  }

  /** Reordering a list without repeats gives a list without repeats. */
  lemma PermutationKeepsDistinct<T>(a: seq<T>, b: seq<T>)
    requires NoDuplicates(a) && multiset(a) == multiset(b)
    ensures NoDuplicates(b)
  {
    DistinctCountsOnce(a);
    forall i, j | 0 <= i < j < |b| ensures b[i] != b[j] {
      if b[i] == b[j] {
        RepeatCountsTwice(b, i, j);
      }
    }
  }

  /** Reordering keeps the same elements. */
  lemma PermutationKeepsMembers<T>(a: seq<T>, b: seq<T>)
    requires multiset(a) == multiset(b)
    ensures forall x :: x in a <==> x in b
  {
    forall x ensures x in a <==> x in b {
      assert x in a <==> x in multiset(a);
      assert x in b <==> x in multiset(b);
    }
  }

  /** Filtering a list without repeats leaves a list without repeats. */
  lemma FilterKeepsDistinct<T(!new)>(s: seq<T>, p: T -> bool)
    requires NoDuplicates(s)
    ensures NoDuplicates(Filter(s, p))
  {
    var r := Filter(s, p);
    DistinctCountsOnce(s);
    forall i, j | 0 <= i < j < |r| ensures r[i] != r[j] {
      if r[i] == r[j] {
        RepeatCountsTwice(r, i, j);
      }
    }
  }
}
