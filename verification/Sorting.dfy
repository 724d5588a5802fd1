/** Sorting by an integer key, and what does not depend on the order a list was collected in. */
module Sorting {
  function Insert<T>(sorted: seq<T>, x: T, key: T -> int): seq<T> {
    if sorted == [] || key(x) < key(sorted[0]) then [x] + sorted else [sorted[0]] + Insert(sorted[1..], x, key)
  }

  function Sort<T>(items: seq<T>, key: T -> int): seq<T> {
    if items == [] then [] else Insert(Sort(items[..|items| - 1], key), items[|items| - 1], key)
  }

  predicate Ascending<T>(items: seq<T>, key: T -> int) {
    forall i, j | 0 <= i < j < |items| :: key(items[i]) <= key(items[j])
  }

  predicate Distinct<T>(items: seq<T>, key: T -> int) {
    forall i, j | 0 <= i < j < |items| :: key(items[i]) != key(items[j])
  }

  function Sum<T>(items: seq<T>, weight: T -> int): int {
    if items == [] then 0 else weight(items[0]) + Sum(items[1..], weight)
  }

  lemma {:induction false} SumSnoc<T>(items: seq<T>, x: T, weight: T -> int)
    ensures Sum(items + [x], weight) == Sum(items, weight) + weight(x)
  {
    if items != [] {
      SumSnoc(items[1..], x, weight);
      assert (items + [x])[1..] == items[1..] + [x];
    }
  }

  lemma {:induction false} InsertSum<T>(sorted: seq<T>, x: T, key: T -> int, weight: T -> int)
    ensures Sum(Insert(sorted, x, key), weight) == Sum(sorted, weight) + weight(x)
  {
    if sorted != [] && key(x) >= key(sorted[0]) {
      InsertSum(sorted[1..], x, key, weight);
      assert ([sorted[0]] + Insert(sorted[1..], x, key))[1..] == Insert(sorted[1..], x, key);
    } else {
      assert ([x] + sorted)[1..] == sorted;
    }
  }

  lemma {:induction false} InsertKeeps<T>(sorted: seq<T>, x: T, key: T -> int)
    ensures multiset(Insert(sorted, x, key)) == multiset(sorted) + multiset{x}
  {
    if sorted != [] && key(x) >= key(sorted[0]) {
      InsertKeeps(sorted[1..], x, key);
      assert sorted == [sorted[0]] + sorted[1..];
    }
  }

  lemma {:induction false} InsertSorts<T>(sorted: seq<T>, x: T, key: T -> int)
    requires Ascending(sorted, key)
    ensures Ascending(Insert(sorted, x, key), key)
  {
    if sorted != [] && key(x) >= key(sorted[0]) {
      var rest := Insert(sorted[1..], x, key);
      InsertSorts(sorted[1..], x, key);
      InsertKeeps(sorted[1..], x, key);
      forall i | 0 <= i < |rest| ensures key(sorted[0]) <= key(rest[i]) {
        assert rest[i] in multiset(rest);
        assert rest[i] in sorted[1..] || rest[i] == x;
      }
    }
  }

  /** Sorting permutes, and the result ascends. */
  lemma {:induction false} SortSorts<T>(items: seq<T>, key: T -> int)
    ensures Ascending(Sort(items, key), key) && multiset(Sort(items, key)) == multiset(items)
  {
    if items != [] {
      var n := |items| - 1;
      SortSorts(items[..n], key);
      InsertSorts(Sort(items[..n], key), items[n], key);
      InsertKeeps(Sort(items[..n], key), items[n], key);
      assert items == items[..n] + [items[n]];
      hide Insert, Ascending;
    }
  }

  lemma {:induction false} SortSum<T>(items: seq<T>, key: T -> int, weight: T -> int)
    ensures Sum(Sort(items, key), weight) == Sum(items, weight)
  {
    if items != [] {
      var n := |items| - 1;
      SortSum(items[..n], key, weight);
      InsertSum(Sort(items[..n], key), items[n], key, weight);
      assert items == items[..n] + [items[n]];
      SumSnoc(items[..n], items[n], weight);
    }
  }

  lemma DistinctSurvives<T>(a: seq<T>, b: seq<T>, key: T -> int)
    requires multiset(a) == multiset(b) && Distinct(a, key)
    ensures Distinct(b, key)
  {
    forall i, j | 0 <= i < j < |b| ensures key(b[i]) != key(b[j]) {
      Twice(b, i, j);
      assert b[i] in multiset(a) && b[j] in multiset(a);
      var p: nat :| p < |a| && a[p] == b[i];
      var q: nat :| q < |a| && a[q] == b[j];
      if key(b[i]) == key(b[j]) {
        assert p == q;
        Once(a, p, key);
      }
    }
  }

  lemma Twice<T>(s: seq<T>, i: nat, j: nat)
    requires i < j < |s|
    ensures s[i] == s[j] ==> multiset(s)[s[i]] >= 2
  {
    assert s == s[..i] + [s[i]] + s[i + 1..j] + [s[j]] + s[j + 1..];
  }

  lemma Once<T>(s: seq<T>, i: nat, key: T -> int)
    requires i < |s| && Distinct(s, key)
    ensures multiset(s)[s[i]] == 1
  {
    var a, b := s[..i], s[i + 1..];
    assert s == a + [s[i]] + b;
    assert s[i] !in a && s[i] !in b;
  }

  lemma SameFirst<T>(a: seq<T>, b: seq<T>, key: T -> int)
    requires Ascending(a, key) && Ascending(b, key) && multiset(a) == multiset(b) && Distinct(a, key) && a != [] && b != []
    ensures a[0] == b[0]
  {
    assert a[0] in multiset(b) && b[0] in multiset(a);
    var p: nat :| p < |b| && b[p] == a[0];
    var q: nat :| q < |a| && a[q] == b[0];
    assert key(b[0]) <= key(b[p]) && key(a[0]) <= key(a[q]);
    assert q == 0;
  }

  lemma RestOf<T>(a: seq<T>)
    requires a != []
    ensures multiset(a[1..]) == multiset(a) - multiset{a[0]}
  {
    assert a == [a[0]] + a[1..];
  }

  lemma TailsAgree<T>(a: seq<T>, b: seq<T>)
    requires a != [] && b != [] && a[0] == b[0] && multiset(a) == multiset(b)
    ensures multiset(a[1..]) == multiset(b[1..])
  {
    RestOf(a);
    RestOf(b);
  }

  lemma RestKeeps<T>(a: seq<T>, key: T -> int)
    requires a != []
    ensures Ascending(a, key) ==> Ascending(a[1..], key)
    ensures Distinct(a, key) ==> Distinct(a[1..], key)
  {
  }

  /** With distinct keys there is only one ascending order. */
  lemma {:induction false} AscendingIsUnique<T>(a: seq<T>, b: seq<T>, key: T -> int)
    requires Ascending(a, key) && Ascending(b, key) && multiset(a) == multiset(b) && Distinct(a, key)
    ensures a == b
    decreases |a|
  {
    hide Ascending, Distinct;
    assert |a| == |multiset(a)| == |multiset(b)| == |b|;
    if a != [] {
      SameFirst(a, b, key);
      TailsAgree(a, b);
      RestKeeps(a, key);
      RestKeeps(b, key);
      AscendingIsUnique(a[1..], b[1..], key);
      assert a == [a[0]] + a[1..] && b == [b[0]] + b[1..];
    }
  }

  /** So the order of collection is irrelevant. */
  lemma SortIsCanonical<T>(a: seq<T>, b: seq<T>, key: T -> int)
    requires multiset(a) == multiset(b) && Distinct(a, key)
    ensures Sort(a, key) == Sort(b, key)
  {
    SortSorts(a, key);
    SortSorts(b, key);
    DistinctSurvives(a, Sort(a, key), key);
    AscendingIsUnique(Sort(a, key), Sort(b, key), key);
  }

  function Map<T, U>(items: seq<T>, f: T -> U): (r: seq<U>)
    ensures |r| == |items| && forall i | 0 <= i < |r| :: r[i] == f(items[i])
  {
    seq(|items|, i requires 0 <= i < |items| => f(items[i]))
  }

  /** Where an item of one list is in a permutation of it. */
  lemma Occurs<T>(a: seq<T>, b: seq<T>) returns (p: nat)
    requires a != [] && multiset(a) == multiset(b)
    ensures p < |b| && b[p] == a[0] && multiset(a[1..]) == multiset(b[..p] + b[p + 1..])
  {
    assert a[0] in multiset(b);
    p :| p < |b| && b[p] == a[0];
    RestOf(a);
    assert b == b[..p] + [b[p]] + b[p + 1..];
  }

  /** Equal multisets stay equal under a function... */
  lemma {:induction false} MapPermutes<T, U>(a: seq<T>, b: seq<T>, f: T -> U)
    requires multiset(a) == multiset(b)
    ensures multiset(Map(a, f)) == multiset(Map(b, f))
    decreases |a|
  {
    assert |a| == |multiset(a)| == |multiset(b)| == |b|;
    if a != [] {
      var p := Occurs(a, b);
      MapPermutes(a[1..], b[..p] + b[p + 1..], f);
      assert Map(a, f) == [f(a[0])] + Map(a[1..], f);
      assert Map(b[..p] + b[p + 1..], f) == Map(b[..p], f) + Map(b[p + 1..], f);
      assert Map(b, f) == Map(b[..p], f) + [f(b[p])] + Map(b[p + 1..], f);
    }
  }

  lemma {:induction false} SumConcat<T>(a: seq<T>, b: seq<T>, weight: T -> int)
    ensures Sum(a + b, weight) == Sum(a, weight) + Sum(b, weight)
  {
    if a == [] {
      assert a + b == b;
    } else {
      assert (a + b)[1..] == a[1..] + b;
      SumConcat(a[1..], b, weight);
    }
  }

  /** ...and have equal sums. */
  lemma {:induction false} SumPermutes<T>(a: seq<T>, b: seq<T>, weight: T -> int)
    requires multiset(a) == multiset(b)
    ensures Sum(a, weight) == Sum(b, weight)
    decreases |a|
  {
    assert |a| == |multiset(a)| == |multiset(b)| == |b|;
    if a != [] {
      var p := Occurs(a, b);
      SumPermutes(a[1..], b[..p] + b[p + 1..], weight);
      SumConcat(b[..p], b[p + 1..], weight);
      SumConcat(b[..p], [b[p]] + b[p + 1..], weight);
      assert b == b[..p] + ([b[p]] + b[p + 1..]) && ([b[p]] + b[p + 1..])[1..] == b[p + 1..];
    }
  }
}
