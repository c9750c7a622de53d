/** Sorting by a key, and the order of strings by code points. */
module TextOrder {

  ghost predicate TotalOrder<T(!new)>(leq: (T, T) -> bool) {
    && (forall x :: leq(x, x))
    && (forall x, y :: leq(x, y) || leq(y, x))
    && (forall x, y :: leq(x, y) && leq(y, x) ==> x == y)
    && (forall x, y, z :: leq(x, y) && leq(y, z) ==> leq(x, z))
  }

  ghost predicate SortedBy<T>(leq: (T, T) -> bool, xs: seq<T>) {
    forall i, j :: 0 <= i < j < |xs| ==> leq(xs[i], xs[j])
  }

  function Insert<T>(leq: (T, T) -> bool, x: T, xs: seq<T>): seq<T> {
    if xs == [] || leq(x, xs[0]) then [x] + xs else [xs[0]] + Insert(leq, x, xs[1..])
  }

  function Sort<T>(leq: (T, T) -> bool, xs: seq<T>): seq<T> {
    if xs == [] then [] else Insert(leq, xs[0], Sort(leq, xs[1..]))
  }

  lemma {:induction false} InsertContents<T>(leq: (T, T) -> bool, x: T, xs: seq<T>)
    ensures multiset(Insert(leq, x, xs)) == multiset{x} + multiset(xs)
    ensures |Insert(leq, x, xs)| == |xs| + 1
  {
    if xs != [] && !leq(x, xs[0]) {
      InsertContents(leq, x, xs[1..]);
      assert xs == [xs[0]] + xs[1..];
    }
  }

  lemma {:induction false} InsertSorted<T(!new)>(leq: (T, T) -> bool, x: T, xs: seq<T>)
    requires TotalOrder(leq) && SortedBy(leq, xs)
    ensures SortedBy(leq, Insert(leq, x, xs))
  {
    if xs != [] && !leq(x, xs[0]) {
      InsertSorted(leq, x, xs[1..]);
      InsertContents(leq, x, xs[1..]);
      var rest := Insert(leq, x, xs[1..]);
      forall y | y in rest ensures leq(xs[0], y) {
        assert y in multiset(rest);
        assert y == x || y in xs[1..];
      }
    }
  }

  /** Sorting is a sorted permutation. */
  lemma {:induction false} SortCorrect<T(!new)>(leq: (T, T) -> bool, xs: seq<T>)
    requires TotalOrder(leq)
    ensures SortedBy(leq, Sort(leq, xs))
    ensures multiset(Sort(leq, xs)) == multiset(xs) && |Sort(leq, xs)| == |xs|
  {
    if xs != [] {
      SortCorrect(leq, xs[1..]);
      InsertSorted(leq, xs[0], Sort(leq, xs[1..]));
      InsertContents(leq, xs[0], Sort(leq, xs[1..]));
      assert xs == [xs[0]] + xs[1..];
    }
  }

  lemma {:induction false} SortMembers<T(!new)>(leq: (T, T) -> bool, xs: seq<T>)
    requires TotalOrder(leq)
    ensures forall x :: x in Sort(leq, xs) <==> x in xs
  {
    SortCorrect(leq, xs);
    forall x ensures x in Sort(leq, xs) <==> x in xs {
      assert x in Sort(leq, xs) <==> x in multiset(Sort(leq, xs));
      assert x in xs <==> x in multiset(xs);
    }
  }

  ghost predicate NoDuplicates<T>(xs: seq<T>) {
    forall i, j :: 0 <= i < j < |xs| ==> xs[i] != xs[j]
  }

  lemma {:induction false} DistinctByMultiset<T>(xs: seq<T>)
    ensures NoDuplicates(xs) <==> forall x :: multiset(xs)[x] <= 1
  {
    if xs != [] {
      var rest := xs[1..];
      assert xs == [xs[0]] + rest;
      DistinctByMultiset(rest);
      assert NoDuplicates(xs) <==> NoDuplicates(rest) && xs[0] !in rest by {
        if NoDuplicates(rest) && xs[0] !in rest {
          forall i, j | 0 <= i < j < |xs| ensures xs[i] != xs[j] {
            if i > 0 { assert xs[i] == rest[i - 1] && xs[j] == rest[j - 1]; } else { assert xs[j] == rest[j - 1]; }
          }
        }
        if NoDuplicates(xs) {
          forall i, j | 0 <= i < j < |rest| ensures rest[i] != rest[j] {
            assert xs[i + 1] != xs[j + 1];
          }
        }
      }
      assert multiset(xs) == multiset{xs[0]} + multiset(rest);
      assert xs[0] in rest <==> multiset(rest)[xs[0]] >= 1;
      assert forall x :: multiset(xs)[x] == multiset(rest)[x] + if x == xs[0] then 1 else 0;
      if forall x :: multiset(xs)[x] <= 1 {
        assert multiset(xs)[xs[0]] <= 1;
        assert forall x :: multiset(rest)[x] <= multiset(xs)[x];
      }
    }
  }

  lemma {:induction false} SortKeepsDistinct<T(!new)>(leq: (T, T) -> bool, xs: seq<T>)
    requires TotalOrder(leq) && NoDuplicates(xs)
    ensures NoDuplicates(Sort(leq, xs))
  {
    SortCorrect(leq, xs);
    DistinctByMultiset(xs);
    DistinctByMultiset(Sort(leq, xs));
  }

  /** Lexicographic order by code point, as strings are compared. */
  predicate TextLeq(a: string, b: string) {
    a == [] || (b != [] && (a[0] < b[0] || (a[0] == b[0] && TextLeq(a[1..], b[1..]))))
  }

  lemma {:induction false} TextReflexive(a: string)
    ensures TextLeq(a, a)
  {
    if a != [] { TextReflexive(a[1..]); }
  }

  lemma {:induction false} TextTotal(a: string, b: string)
    ensures TextLeq(a, b) || TextLeq(b, a)
    ensures TextLeq(a, b) && TextLeq(b, a) ==> a == b
  {
    if a != [] && b != [] {
      TextTotal(a[1..], b[1..]);
      assert a == [a[0]] + a[1..] && b == [b[0]] + b[1..];
    }
  }

  lemma {:induction false} TextTransitive(a: string, b: string, c: string)
    requires TextLeq(a, b) && TextLeq(b, c)
    ensures TextLeq(a, c)
  {
    if a != [] && a[0] == b[0] == c[0] { TextTransitive(a[1..], b[1..], c[1..]); }
  }

  lemma {:induction false} TextLeqIsTotalOrder()
    ensures TotalOrder(TextLeq)
  {
    forall a: string ensures TextLeq(a, a) { TextReflexive(a); }
    forall a: string, b: string ensures TextLeq(a, b) || TextLeq(b, a)
      ensures TextLeq(a, b) && TextLeq(b, a) ==> a == b
    {
      TextTotal(a, b);
    }
    forall a: string, b: string, c: string | TextLeq(a, b) && TextLeq(b, c)
      ensures TextLeq(a, c)
    {
      TextTransitive(a, b, c);
    }
  }

  /** Texts are compared at their first difference, by code point. */
  lemma {:induction false} DifferenceDecides(a: string, b: string, k: nat)
    requires k < |a| && k < |b| && a[..k] == b[..k] && a[k] != b[k]
    ensures TextLeq(a, b) <==> a[k] < b[k]
  {
    if k > 0 {
      assert a[0] == a[..k][0] == b[..k][0] == b[0];
      assert a[1..][..k - 1] == a[..k][1..] == b[..k][1..] == b[1..][..k - 1];
      DifferenceDecides(a[1..], b[1..], k - 1);
    }
  }

  /** A beginning comes before the whole. */
  lemma {:induction false} BeginningFirst(a: string, b: string)
    requires a < b
    ensures TextLeq(a, b) && !TextLeq(b, a)
  {
    if a != [] { BeginningFirst(a[1..], b[1..]); }
  }
}
