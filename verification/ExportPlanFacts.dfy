/** What the Tier B rows are: soundness, distinctness, and the exact plan of a fully collected tier. */
module ExportPlanFacts {
  import opened TextOrder
  import opened ExportPlan

  lemma {:induction false} PairWithAt(x: string, ys: seq<string>)
    ensures |PairWith(x, ys)| == |ys|
    ensures forall i :: 0 <= i < |ys| ==> PairWith(x, ys)[i] == (x, ys[i])
  {
    if ys != [] { PairWithAt(x, ys[1..]); }
  }

  lemma {:induction false} RowsAt(pairs: seq<(string, string)>, kind: Sameness)
    ensures |Rows(pairs, kind)| == |pairs|
    ensures forall i :: 0 <= i < |pairs| ==> Rows(pairs, kind)[i] == Row(pairs[i].0, pairs[i].1, kind)
  {
    if pairs != [] { RowsAt(pairs[1..], kind); }
  }

  /** The first two combinations pair the first file with the second and the third. */
  lemma {:induction false} FirstCombinations(xs: seq<string>)
    ensures First(Combinations(xs), 2) ==
      if |xs| < 2 then [] else if |xs| == 2 then [(xs[0], xs[1])] else [(xs[0], xs[1]), (xs[0], xs[2])]
  {
    if xs != [] {
      PairWithAt(xs[0], xs[1..]);
      if |xs| == 1 {
        assert Combinations(xs[1..]) == [];
      } else if |xs| == 2 {
        PairWithAt(xs[1], xs[2..]);
        assert Combinations(xs[1..]) == PairWith(xs[1], xs[2..]) + Combinations(xs[2..]);
      }
    }
  }

  lemma {:induction false} FirstCross(xs: seq<string>, ys: seq<string>)
    ensures First(Cross(xs, ys), 2) ==
      if xs == [] || ys == [] then []
      else if |ys| >= 2 then [(xs[0], ys[0]), (xs[0], ys[1])]
      else if |xs| >= 2 then [(xs[0], ys[0]), (xs[1], ys[0])]
      else [(xs[0], ys[0])]
  {
    if ys == [] {
      CrossEmpty(xs);
    } else if xs != [] {
      PairWithAt(xs[0], ys);
      if |xs| >= 2 {
        PairWithAt(xs[1], ys);
        assert Cross(xs[1..], ys) == PairWith(xs[1], ys) + Cross(xs[2..], ys);
      }
    }
  }

  lemma {:induction false} CrossEmpty(xs: seq<string>)
    ensures Cross(xs, []) == []
  {
    if xs != [] { CrossEmpty(xs[1..]); }
  }

  /** The rows of one side: its first file against the next two, in sorted order. */
  lemma {:induction false} SideRowsAre(files: seq<string>)
    ensures var s := Sort(TextLeq, files);
      SideRows(files) == if |s| < 2 then [] else if |s| == 2 then [Row(s[0], s[1], Same)]
                         else [Row(s[0], s[1], Same), Row(s[0], s[2], Same)]
  {
    FirstCombinations(Sort(TextLeq, files));
    RowsAt(First(Combinations(Sort(TextLeq, files)), 2), Same);
  }

  lemma {:induction false} CrossRowsAre(p: TierBInput)
    ensures var a, b := Sort(TextLeq, p.aFiles), Sort(TextLeq, p.bFiles);
      CrossRows(p) ==
        if a == [] || b == [] then []
        else if |b| >= 2 then [Row(a[0], b[0], Different), Row(a[0], b[1], Different)]
        else if |a| >= 2 then [Row(a[0], b[0], Different), Row(a[1], b[0], Different)]
        else [Row(a[0], b[0], Different)]
  {
    FirstCross(Sort(TextLeq, p.aFiles), Sort(TextLeq, p.bFiles));
    RowsAt(First(Cross(Sort(TextLeq, p.aFiles), Sort(TextLeq, p.bFiles)), 2), Different);
  }

  predicate AcrossSides(r: Row, p: TierBInput) {
    r.kind == Different && r.fileA in p.aFiles && r.fileB in p.bFiles
  }

  lemma {:induction false} SideRowsSound(files: seq<string>)
    ensures forall r :: r in SideRows(files) ==> r.kind == Same && r.fileA in files && r.fileB in files
    ensures NoDuplicates(files) ==> forall r :: r in SideRows(files) ==> r.fileA != r.fileB
    ensures NoDuplicates(files) ==> NoDuplicates(SideRows(files))
  {
    TextLeqIsTotalOrder();
    SideRowsAre(files);
    SortMembers(TextLeq, files);
    if NoDuplicates(files) { SortKeepsDistinct(TextLeq, files); }
  }

  lemma {:induction false} CrossRowsSound(p: TierBInput)
    ensures forall r :: r in CrossRows(p) ==> AcrossSides(r, p)
    ensures NoDuplicates(p.aFiles) && NoDuplicates(p.bFiles) ==> NoDuplicates(CrossRows(p))
  {
    TextLeqIsTotalOrder();
    CrossRowsAre(p);
    SortMembers(TextLeq, p.aFiles);
    SortMembers(TextLeq, p.bFiles);
    if NoDuplicates(p.aFiles) { SortKeepsDistinct(TextLeq, p.aFiles); }
    if NoDuplicates(p.bFiles) { SortKeepsDistinct(TextLeq, p.bFiles); }
  }

  function FilesOf(p: TierBInput): set<string> {
    (set f | f in p.aFiles) + (set f | f in p.bFiles)
  }

  ghost predicate DistinctSides(p: TierBInput) {
    NoDuplicates(p.aFiles) && NoDuplicates(p.bFiles) && forall f :: f in p.aFiles ==> f !in p.bFiles
  }

  /** No filename occurs twice anywhere in the input. */
  ghost predicate DistinctFiles(pairs: seq<TierBInput>) {
    && (forall p :: p in pairs ==> DistinctSides(p))
    && (forall i, j :: 0 <= i < j < |pairs| ==> FilesOf(pairs[i]) !! FilesOf(pairs[j]))
  }

  predicate OneSide(r: Row, p: TierBInput) {
    (r.fileA in p.aFiles && r.fileB in p.aFiles) || (r.fileA in p.bFiles && r.fileB in p.bFiles)
  }

  /** A sound same row compares two files of one side of one pair. */
  ghost predicate SameFrom(r: Row, pairs: seq<TierBInput>) {
    r.kind == Same && exists p :: p in pairs && OneSide(r, p)
  }

  ghost predicate DiffFrom(r: Row, pairs: seq<TierBInput>) {
    exists p :: p in pairs && AcrossSides(r, p)
  }

  lemma {:induction false} PoolsSound(pairs: seq<TierBInput>)
    ensures forall r :: r in SamePool(pairs) ==> SameFrom(r, pairs)
    ensures forall r :: r in DiffPool(pairs) ==> DiffFrom(r, pairs)
    ensures DistinctFiles(pairs) ==> forall r :: r in SamePool(pairs) ==> r.fileA != r.fileB
  {
    if pairs != [] {
      var init, last := pairs[..|pairs| - 1], pairs[|pairs| - 1];
      assert pairs == init + [last];
      PoolsSound(init);
      SideRowsSound(last.aFiles);
      SideRowsSound(last.bFiles);
      CrossRowsSound(last);
      if DistinctFiles(pairs) { InitDistinct(pairs); }
      assert last in pairs;
      assert forall r :: SameFrom(r, init) ==> SameFrom(r, pairs);
      assert forall r :: DiffFrom(r, init) ==> DiffFrom(r, pairs);
    }
  }

  lemma {:induction false} InitDistinct(pairs: seq<TierBInput>)
    requires pairs != [] && DistinctFiles(pairs)
    ensures DistinctFiles(pairs[..|pairs| - 1])
    ensures forall p :: p in pairs[..|pairs| - 1] ==> FilesOf(p) !! FilesOf(pairs[|pairs| - 1])
  {}

  lemma {:induction false} ConcatDistinct<T>(xs: seq<T>, ys: seq<T>)
    requires NoDuplicates(xs) && NoDuplicates(ys) && forall x :: x in xs ==> x !in ys
    ensures NoDuplicates(xs + ys)
  {
    forall i, j | 0 <= i < j < |xs + ys| ensures (xs + ys)[i] != (xs + ys)[j] {
      if i < |xs| <= j {
        assert xs[i] in xs && ys[j - |xs|] in ys;
      }
    }
  }

  lemma {:induction false} PoolsDistinct(pairs: seq<TierBInput>)
    requires DistinctFiles(pairs)
    ensures NoDuplicates(SamePool(pairs)) && NoDuplicates(DiffPool(pairs))
  {
    if pairs != [] {
      var init, last := pairs[..|pairs| - 1], pairs[|pairs| - 1];
      InitDistinct(pairs);
      PoolsDistinct(init);
      PoolsSound(init);
      SideRowsSound(last.aFiles);
      SideRowsSound(last.bFiles);
      CrossRowsSound(last);
      assert last in pairs;
      forall r | r in SamePool(init) ensures r.fileA !in FilesOf(last) {
        var p :| p in init && OneSide(r, p);
        assert r.fileA in FilesOf(p);
      }
      forall r | r in DiffPool(init) ensures r.fileA !in FilesOf(last) {
        var p :| p in init && AcrossSides(r, p);
        assert r.fileA in FilesOf(p);
      }
      assert forall f :: f in last.aFiles || f in last.bFiles ==> f in FilesOf(last);
      ConcatDistinct(SamePool(init), SideRows(last.aFiles));
      ConcatDistinct(SamePool(init) + SideRows(last.aFiles), SideRows(last.bFiles));
      ConcatDistinct(DiffPool(init), CrossRows(last));
    }
  }

  lemma {:induction false} StrideMembers<T>(items: seq<T>, n: nat)
    requires n <= |items|
    ensures forall x :: x in Stride(items, n) ==> x in items
    ensures NoDuplicates(items) ==> NoDuplicates(Stride(items, n))
  {
    StrideTakes(items, n);
  }

  /**
    The rows of a plan: an equal number of same and different rows in turn, each from one pair; with
    distinct filenames no row compares a file with itself and no row is repeated.
  */
  lemma {:induction false} PlanSound(pairs: seq<TierBInput>, rows: seq<Row>)
    requires Alternates(rows, Stride(SamePool(pairs), Balance(pairs)), Stride(DiffPool(pairs), Balance(pairs)))
    ensures |rows| == 2 * Balance(pairs)
    ensures forall i :: 0 <= i < Balance(pairs) ==> SameFrom(rows[2 * i], pairs) && DiffFrom(rows[2 * i + 1], pairs)
    ensures DistinctFiles(pairs) ==> NoDuplicates(rows)
    ensures DistinctFiles(pairs) ==>
      forall i :: 0 <= i < Balance(pairs) ==> rows[2 * i].fileA != rows[2 * i].fileB
  {
    var n := Balance(pairs);
    var same, diff := Stride(SamePool(pairs), n), Stride(DiffPool(pairs), n);
    StrideTakes(SamePool(pairs), n);
    StrideMembers(SamePool(pairs), n);
    StrideMembers(DiffPool(pairs), n);
    PoolsSound(pairs);
    forall i | 0 <= i < n ensures SameFrom(rows[2 * i], pairs) && DiffFrom(rows[2 * i + 1], pairs) {
      assert same[i] in same && diff[i] in diff;
    }
    if DistinctFiles(pairs) {
      PoolsDistinct(pairs);
      AlternationDistinct(rows, same, diff);
      forall i | 0 <= i < n ensures rows[2 * i].fileA != rows[2 * i].fileB {
        assert same[i] in same;
      }
    }
  }

  lemma {:induction false} AlternationDistinct(rows: seq<Row>, same: seq<Row>, diff: seq<Row>)
    requires Alternates(rows, same, diff) && NoDuplicates(same) && NoDuplicates(diff)
    requires forall r, s :: r in same && s in diff ==> r.kind != s.kind
    ensures NoDuplicates(rows)
  {
    forall i, j | 0 <= i < j < |rows| ensures rows[i] != rows[j] {
      var k, l := i / 2, j / 2;
      assert rows[i] == if i % 2 == 0 then same[k] else diff[k];
      assert rows[j] == if j % 2 == 0 then same[l] else diff[l];
      if i % 2 == j % 2 {
        assert k < l;
      } else if i % 2 == 0 {
        assert same[k] in same && diff[l] in diff;
      } else {
        assert same[l] in same && diff[k] in diff;
      }
    }
  }

  // ---- A fully collected tier --------------------------------------------------------------

  predicate Collected(p: TierBInput) {
    |p.aFiles| >= 3 && |p.bFiles| >= 3
  }

  /** The four rows a collected pair contributes. */
  ghost predicate FourRows(p: TierBInput, rows: seq<Row>) {
    var a, b := Sort(TextLeq, p.aFiles), Sort(TextLeq, p.bFiles);
    && |a| >= 3 && |b| >= 3
    && rows == [Row(a[0], a[1], Same), Row(a[0], b[0], Different), Row(b[0], b[1], Same), Row(a[0], b[1], Different)]
  }

  /** `p` pairs have `4p` rows, four from each pair in turn. */
  ghost predicate FullPlan(pairs: seq<TierBInput>, rows: seq<Row>) {
    |rows| == 4 * |pairs| && forall k :: 0 <= k < |pairs| ==> FourRows(pairs[k], rows[4 * k..4 * k + 4])
  }

  ghost predicate PoolsOfCollected(pairs: seq<TierBInput>, same: seq<Row>, diff: seq<Row>) {
    && |same| == 4 * |pairs| && |diff| == 2 * |pairs|
    && forall k :: 0 <= k < |pairs| ==> FourRows(pairs[k], [same[4 * k], diff[2 * k], same[4 * k + 2], diff[2 * k + 1]])
  }

  /** What one collected pair adds to the pools: four same rows and two different ones. */
  lemma {:induction false} OneCollected(p: TierBInput)
    requires Collected(p)
    ensures var same, diff := SideRows(p.aFiles) + SideRows(p.bFiles), CrossRows(p);
      |same| == 4 && |diff| == 2 && FourRows(p, [same[0], diff[0], same[2], diff[1]])
  {
    TextLeqIsTotalOrder();
    SortCorrect(TextLeq, p.aFiles);
    SortCorrect(TextLeq, p.bFiles);
    SideRowsAre(p.aFiles);
    SideRowsAre(p.bFiles);
    CrossRowsAre(p);
  }

  /** Pools of collected pairs stay so when one more pair adds its rows. */
  lemma {:induction false} PoolsGrow(pairs: seq<TierBInput>, same: seq<Row>, diff: seq<Row>, p: TierBInput,
                                     s: seq<Row>, d: seq<Row>)
    requires PoolsOfCollected(pairs, same, diff)
    requires |s| == 4 && |d| == 2 && FourRows(p, [s[0], d[0], s[2], d[1]])
    ensures PoolsOfCollected(pairs + [p], same + s, diff + d)
  {
    var all, same', diff' := pairs + [p], same + s, diff + d;
    forall k | 0 <= k < |all|
      ensures FourRows(all[k], [same'[4 * k], diff'[2 * k], same'[4 * k + 2], diff'[2 * k + 1]])
    {
      if k == |pairs| {
        assert same'[4 * k] == s[0] && same'[4 * k + 2] == s[2] && diff'[2 * k] == d[0] && diff'[2 * k + 1] == d[1];
      } else {
        assert FourRows(pairs[k], [same[4 * k], diff[2 * k], same[4 * k + 2], diff[2 * k + 1]]);
      }
    }
  }

  /** One more collected pair keeps the pools as they should be. */
  lemma {:induction false} OneMoreCollected(init: seq<TierBInput>, last: TierBInput)
    requires PoolsOfCollected(init, SamePool(init), DiffPool(init)) && Collected(last)
    ensures PoolsOfCollected(init + [last], SamePool(init + [last]), DiffPool(init + [last]))
  {
    var s, d := SideRows(last.aFiles) + SideRows(last.bFiles), CrossRows(last);
    OneCollected(last);
    PoolsGrow(init, SamePool(init), DiffPool(init), last, s, d);
    PoolsSplit(init, last);
  }

  lemma {:induction false} CollectedPools(pairs: seq<TierBInput>)
    requires forall p :: p in pairs ==> Collected(p)
    ensures PoolsOfCollected(pairs, SamePool(pairs), DiffPool(pairs))
  {
    if pairs != [] {
      var init, last := pairs[..|pairs| - 1], pairs[|pairs| - 1];
      assert last in pairs && pairs == init + [last];
      CollectedPools(init);
      OneMoreCollected(init, last);
    }
  }

  lemma {:induction false} PoolsSplit(init: seq<TierBInput>, last: TierBInput)
    ensures SamePool(init + [last]) == SamePool(init) + (SideRows(last.aFiles) + SideRows(last.bFiles))
    ensures DiffPool(init + [last]) == DiffPool(init) + CrossRows(last)
  {
    assert (init + [last])[..|init|] == init;
  }

  /** When every pair is collected, the plan is full. */
  lemma {:induction false} CollectedPlan(pairs: seq<TierBInput>, rows: seq<Row>)
    requires forall p :: p in pairs ==> Collected(p)
    requires Alternates(rows, Stride(SamePool(pairs), Balance(pairs)), Stride(DiffPool(pairs), Balance(pairs)))
    ensures FullPlan(pairs, rows)
  {
    CollectedPools(pairs);
    SampledPools(pairs, SamePool(pairs), DiffPool(pairs), rows);
  }

  /** Sampling half of the same rows takes the first one of every side. */
  lemma {:induction false} SampledPools(pairs: seq<TierBInput>, same: seq<Row>, diff: seq<Row>, rows: seq<Row>)
    requires PoolsOfCollected(pairs, same, diff)
    requires Alternates(rows, Stride(same, 2 * |pairs|), Stride(diff, 2 * |pairs|))
    ensures FullPlan(pairs, rows)
  {
    StrideTakes(same, 2 * |pairs|);
    StrideTakes(diff, 2 * |pairs|);
    forall k | 0 <= k < |pairs| ensures FourRows(pairs[k], rows[4 * k..4 * k + 4]) {
      EverySecond(2 * k, |pairs|);
      EverySecond(2 * k + 1, |pairs|);
      assert rows[2 * (2 * k)] == same[4 * k] && rows[2 * (2 * k) + 1] == diff[2 * k];
      assert rows[2 * (2 * k + 1)] == same[4 * k + 2] && rows[2 * (2 * k + 1) + 1] == diff[2 * k + 1];
      assert rows[4 * k..4 * k + 4] == [same[4 * k], diff[2 * k], same[4 * k + 2], diff[2 * k + 1]];
    }
  }

  lemma {:induction false} EverySecond(i: nat, p: nat)
    requires i < 2 * p
    ensures StridePosition(i, 2 * p, 4 * p) == 2 * i
  {
    assert i * (4 * p) == (2 * i) * (2 * p);
    MultipleDivides(2 * i, 2 * p);
  }

  lemma {:induction false} MultipleDivides(q: nat, n: nat)
    requires n > 0
    ensures q * n / n == q
  {
    DivFloor(q * n, n);
    var d := q * n / n;
    if d < q { AtMost(d + 1, q, n); }
    if d > q { AtMost(q + 1, d, n); }
  }
}
