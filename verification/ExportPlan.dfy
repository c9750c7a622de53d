/** The export planner: which recordings become CSV rows, and in which order. */
module ExportPlan {
  import opened TextOrder

  datatype TierAInput = TierAInput(file: string, word: string, speaker: string)
  datatype TierBInput = TierBInput(number: int, aFiles: seq<string>, bFiles: seq<string>)

  datatype Sameness = Same | Different
  datatype Row = Row(fileA: string, fileB: string, kind: Sameness)

  const MIN_INSTANCES_PER_WORD := 5
  const SAME_PER_SIDE_PER_PAIR := 2
  const DIFF_PER_PAIR := 2

  // ---- Sampling ----------------------------------------------------------------------------

  /** The position of the `i`-th of `n` samples from `size` items, in exact arithmetic. */
  function StridePosition(i: nat, n: nat, size: nat): nat
    requires n > 0
  {
    i * size / n
  }

  lemma {:induction false} Distribute(a: int, b: int, c: int)
    ensures (a - b) * c == a * c - b * c
  {}

  lemma {:induction false} AtLeastOnce(a: int, c: nat)
    requires a >= 1
    ensures a * c >= c
  {}

  lemma {:induction false} DivMono(x: nat, y: nat, n: nat)
    requires n > 0 && x + n <= y
    ensures x / n < y / n
  {
    if y / n <= x / n {
      AtMost(y / n, x / n, n);
      DivFloor(x, n);
      DivFloor(y, n);
      assert false;
    }
  }

  lemma {:induction false} DivFloor(x: nat, n: nat)
    requires n > 0
    ensures n * (x / n) <= x < n * (x / n) + n
  {}

  lemma {:induction false} AtMost(a: int, b: int, n: nat)
    requires a <= b
    ensures n * a <= n * b
  {}

  lemma {:induction false} StrideInRange(i: nat, n: nat, size: nat)
    requires i < n
    ensures StridePosition(i, n, size) <= size
    ensures size > 0 ==> StridePosition(i, n, size) < size
  {
    Distribute(n, i, size);
    AtLeastOnce(n - i, size);
    var x := i * size;
    assert x + size <= n * size;
    DivFloor(x, n);
    if x / n >= size && size > 0 {
      AtMost(size, x / n, n);
      assert false;
    }
  }

  lemma {:induction false} StrideIncreases(i: nat, j: nat, n: nat, size: nat)
    requires i < j < n <= size
    ensures StridePosition(i, n, size) < StridePosition(j, n, size)
  {
    Distribute(j, i, size);
    AtLeastOnce(j - i, size);
    DivMono(i * size, j * size, n);
  }

  function Stride<T>(items: seq<T>, n: int): seq<T> {
    if n >= |items| then items
    else if n <= 0 then []
    else
      seq(n, i requires 0 <= i < n => StrideInRange(i, n, |items|); items[StridePosition(i, n, |items|)])
  }

  /** Which item the `i`-th sample is. */
  function Picked(i: nat, n: nat, size: nat): nat
    requires n > 0
  {
    if n >= size then i else StridePosition(i, n, size)
  }

  /** A sample of `n` out of at least `n` items takes them at strictly increasing positions. */
  lemma {:induction false} StrideTakes<T>(items: seq<T>, n: nat)
    requires n <= |items|
    ensures |Stride(items, n)| == n
    ensures forall i :: 0 <= i < n ==>
      Picked(i, n, |items|) < |items| && Stride(items, n)[i] == items[Picked(i, n, |items|)]
    ensures forall i, j :: 0 <= i < j < n ==> Picked(i, n, |items|) < Picked(j, n, |items|)
  {
    forall i | 0 <= i < n ensures Picked(i, n, |items|) < |items| { StrideInRange(i, n, |items|); }
    forall i, j | 0 <= i < j < n
      ensures Picked(i, n, |items|) < Picked(j, n, |items|)
    {
      StrideIncreases(i, j, n, |items|);
    }
  }

  /** `at` is the whole part of the share `i / n` of `size`. */
  predicate IsShare(at: nat, i: nat, n: nat, size: nat) {
    n * at <= i * size < n * (at + 1)
  }

  lemma {:induction false} PickedIsShare(i: nat, n: nat, size: nat)
    requires i < n <= size
    ensures IsShare(Picked(i, n, size), i, n, size)
    ensures i == 0 ==> Picked(i, n, size) == 0
  {
    if n < size { DivFloor(i * size, n); }
  }

  /**
    The sample is spread evenly over the list, from its first item on: the `i`-th of the `n` samples
    is the item at `i / n` of the list, rounded down.
  */
  lemma {:induction false} StrideSamples<T>(items: seq<T>, n: nat) returns (at: seq<nat>)
    requires n <= |items|
    ensures |at| == n == |Stride(items, n)|
    ensures forall i :: 0 <= i < n ==> at[i] < |items| && Stride(items, n)[i] == items[at[i]]
    ensures forall i :: 0 <= i < n ==> IsShare(at[i], i, n, |items|)
    ensures forall i, j :: 0 <= i < j < n ==> at[i] < at[j]
    ensures n > 0 ==> at[0] == 0
  {
    StrideTakes(items, n);
    at := seq(n, i requires 0 <= i < n => Picked(i, n, |items|));
    forall i | 0 <= i < n
      ensures IsShare(at[i], i, n, |items|) && (i == 0 ==> at[i] == 0)
    {
      PickedIsShare(i, n, |items|);
    }
  }

  // ---- Tier A ------------------------------------------------------------------------------

  function Instances(recs: seq<TierAInput>, word: string): nat {
    if recs == [] then 0 else (if recs[0].word == word then 1 else 0) + Instances(recs[1..], word)
  }

  function Words(recs: seq<TierAInput>): set<string> {
    set r | r in recs :: r.word
  }

  function Kept(recs: seq<TierAInput>): set<string> {
    set w | w in Words(recs) && Instances(recs, w) >= MIN_INSTANCES_PER_WORD
  }

  function Only(recs: seq<TierAInput>, words: set<string>): seq<TierAInput> {
    if recs == [] then [] else (if recs[0].word in words then [recs[0]] else []) + Only(recs[1..], words)
  }

  /** Rows are ordered by word, then speaker, then file. */
  predicate RowLeq(a: TierAInput, b: TierAInput) {
    if a.word != b.word then TextLeq(a.word, b.word)
    else if a.speaker != b.speaker then TextLeq(a.speaker, b.speaker)
    else TextLeq(a.file, b.file)
  }

  lemma {:induction false} RowLeqIsTotalOrder()
    ensures TotalOrder(RowLeq)
  {
    TextLeqIsTotalOrder();
  }

  datatype TierAPlan = TierAPlan(rows: seq<TierAInput>, included: set<string>,
                                 wordsTotal: nat, wordsKept: nat, wordsDropped: int, recordings: nat, speakers: nat)

  function PlanTierA(recs: seq<TierAInput>): TierAPlan {
    var rows := Sort(RowLeq, Only(recs, Kept(recs)));
    TierAPlan(rows, set r | r in rows :: r.file,
              |Words(recs)|, |Kept(recs)|, |Words(recs)| - |Kept(recs)|, |rows|, |set r | r in rows :: r.speaker|)
  }

  /** How often an input occurs among the kept ones: as often as before, or never. */
  lemma {:induction false} OnlyCounts(recs: seq<TierAInput>, words: set<string>, r: TierAInput)
    ensures multiset(Only(recs, words))[r] == if r.word in words then multiset(recs)[r] else 0
  {
    if recs != [] {
      OnlyCounts(recs[1..], words, r);
      assert recs == [recs[0]] + recs[1..];
    }
  }

  lemma {:induction false} InstancesPositive(recs: seq<TierAInput>, r: TierAInput)
    requires r in recs
    ensures Instances(recs, r.word) > 0
  {
    if recs[0] != r {
      assert r in recs[1..];
      InstancesPositive(recs[1..], r);
    }
  }

  /** How many rows an input should get. */
  function Expected(recs: seq<TierAInput>, r: TierAInput): nat {
    if Instances(recs, r.word) >= MIN_INSTANCES_PER_WORD then multiset(recs)[r] else 0
  }

  /**
    The rows are, in order, exactly the recordings whose word has at least five of them, each as
    often as it was given; the dropped words are the others.
  */
  lemma {:induction false} TierARows(recs: seq<TierAInput>)
    ensures SortedBy(RowLeq, PlanTierA(recs).rows)
    ensures forall r: TierAInput :: multiset(PlanTierA(recs).rows)[r] == Expected(recs, r)
    ensures forall r :: r in PlanTierA(recs).rows <==> r in recs && Instances(recs, r.word) >= MIN_INSTANCES_PER_WORD
    ensures PlanTierA(recs).wordsDropped == |Rare(recs)|
  {
    RowLeqIsTotalOrder();
    var rows := PlanTierA(recs).rows;
    SortCorrect(RowLeq, Only(recs, Kept(recs)));
    forall r: TierAInput
      ensures multiset(rows)[r] == Expected(recs, r)
      ensures r in rows <==> r in recs && Instances(recs, r.word) >= MIN_INSTANCES_PER_WORD
    {
      RowCount(recs, r);
      assert r in rows <==> r in multiset(rows);
    }
    DroppedWords(recs);
  }

  lemma {:induction false} RowCount(recs: seq<TierAInput>, r: TierAInput)
    ensures multiset(Only(recs, Kept(recs)))[r] == Expected(recs, r)
    ensures Expected(recs, r) > 0 <==> r in recs && Instances(recs, r.word) >= MIN_INSTANCES_PER_WORD
  {
    OnlyCounts(recs, Kept(recs), r);
    assert r in recs <==> multiset(recs)[r] > 0;
    if r in recs { assert r.word in Words(recs); }
  }

  function Rare(recs: seq<TierAInput>): set<string> {
    set w | w in Words(recs) && Instances(recs, w) < MIN_INSTANCES_PER_WORD
  }

  lemma {:induction false} DroppedWords(recs: seq<TierAInput>)
    ensures |Words(recs)| - |Kept(recs)| == |Rare(recs)|
  {
    assert Words(recs) == Kept(recs) + Rare(recs) && Kept(recs) !! Rare(recs);
    assert |Words(recs)| == |Kept(recs)| + |Rare(recs)|;
  }

  /** The rows are ordered by word, then by speaker, then by file. */
  lemma {:induction false} TierAOrder(recs: seq<TierAInput>, i: nat, j: nat)
    requires i < j < |PlanTierA(recs).rows|
    ensures var a, b := PlanTierA(recs).rows[i], PlanTierA(recs).rows[j];
      && TextLeq(a.word, b.word)
      && (a.word == b.word ==> TextLeq(a.speaker, b.speaker))
      && (a.word == b.word && a.speaker == b.speaker ==> TextLeq(a.file, b.file))
  {
    TierARows(recs);
    TextLeqIsTotalOrder();
    assert RowLeq(PlanTierA(recs).rows[i], PlanTierA(recs).rows[j]);
  }

  /** Has a word at least five recordings? */
  predicate Frequent(recs: seq<TierAInput>, word: string) {
    Instances(recs, word) >= 5
  }

  /** The files of the plan are those of the recordings whose word has at least five. */
  lemma {:induction false} TierAFiles(recs: seq<TierAInput>, f: string)
    ensures f in PlanTierA(recs).included <==> exists r :: r in recs && r.file == f && Frequent(recs, r.word)
  {
    TierARows(recs);
    if r :| r in recs && r.file == f && Frequent(recs, r.word) { assert r in PlanTierA(recs).rows; }
  }

  lemma {:induction false} TierAWords(recs: seq<TierAInput>)
    ensures var plan := PlanTierA(recs);
      && plan.wordsTotal == |set r | r in recs :: r.word|
      && plan.wordsKept == |set r | r in recs && Frequent(recs, r.word) :: r.word|
      && plan.wordsKept + plan.wordsDropped == plan.wordsTotal
  {
    assert Kept(recs) == set r | r in recs && Frequent(recs, r.word) :: r.word;
  }

  lemma {:induction false} TierASpeakers(recs: seq<TierAInput>)
    ensures PlanTierA(recs).speakers == |set r | r in recs && Frequent(recs, r.word) :: r.speaker|
    ensures PlanTierA(recs).recordings == |PlanTierA(recs).rows|
  {
    TierARows(recs);
    var rows := PlanTierA(recs).rows;
    var kept := set r | r in recs && Frequent(recs, r.word) :: r.speaker;
    forall x ensures x in (set r | r in rows :: r.speaker) <==> x in kept {
      if x in kept {
        var r :| r in recs && Frequent(recs, r.word) && r.speaker == x;
        assert r in rows;
      }
    }
    assert (set r | r in rows :: r.speaker) == kept;
  }

  // ---- Tier B ------------------------------------------------------------------------------

  function PairWith(x: string, ys: seq<string>): seq<(string, string)> {
    if ys == [] then [] else [(x, ys[0])] + PairWith(x, ys[1..])
  }

  /** All pairs of an earlier with a later element, in the order of `itertools.combinations`. */
  function Combinations(xs: seq<string>): seq<(string, string)> {
    if xs == [] then [] else PairWith(xs[0], xs[1..]) + Combinations(xs[1..])
  }

  function Cross(xs: seq<string>, ys: seq<string>): seq<(string, string)> {
    if xs == [] then [] else PairWith(xs[0], ys) + Cross(xs[1..], ys)
  }

  function First<T>(xs: seq<T>, n: nat): seq<T> {
    if |xs| <= n then xs else xs[..n]
  }

  function Rows(pairs: seq<(string, string)>, kind: Sameness): seq<Row> {
    if pairs == [] then [] else [Row(pairs[0].0, pairs[0].1, kind)] + Rows(pairs[1..], kind)
  }

  function SideRows(files: seq<string>): seq<Row> {
    Rows(First(Combinations(Sort(TextLeq, files)), SAME_PER_SIDE_PER_PAIR), Same)
  }

  function CrossRows(p: TierBInput): seq<Row> {
    Rows(First(Cross(Sort(TextLeq, p.aFiles), Sort(TextLeq, p.bFiles)), DIFF_PER_PAIR), Different)
  }

  function SamePool(pairs: seq<TierBInput>): seq<Row> {
    if pairs == [] then []
    else SamePool(pairs[..|pairs| - 1]) + SideRows(pairs[|pairs| - 1].aFiles) + SideRows(pairs[|pairs| - 1].bFiles)
  }

  function DiffPool(pairs: seq<TierBInput>): seq<Row> {
    if pairs == [] then [] else DiffPool(pairs[..|pairs| - 1]) + CrossRows(pairs[|pairs| - 1])
  }

  function Balance(pairs: seq<TierBInput>): nat {
    if |SamePool(pairs)| < |DiffPool(pairs)| then |SamePool(pairs)| else |DiffPool(pairs)|
  }

  datatype TierBPlan = TierBPlan(rows: seq<Row>, included: set<string>,
                                 pairs: nat, sameRows: nat, diffRows: nat, triplets: nat)

  /** The rows alternate between the two samples, starting with `same`. */
  ghost predicate Alternates(rows: seq<Row>, same: seq<Row>, diff: seq<Row>) {
    && |rows| == 2 * |same| == 2 * |diff|
    && forall i :: 0 <= i < |same| ==> rows[2 * i] == same[i] && rows[2 * i + 1] == diff[i]
  }

  lemma {:induction false} StrideLength<T>(items: seq<T>, n: nat)
    requires n <= |items|
    ensures |Stride(items, n)| == n
  {
    StrideTakes(items, n);
  }

  /** How many comparisons the rows allow. */
  function Triplets(same: nat, diff: nat): nat {
    same * diff
  }

  method PlanTierB(pairs: seq<TierBInput>) returns (plan: TierBPlan)
    ensures var n := Balance(pairs);
      && Alternates(plan.rows, Stride(SamePool(pairs), n), Stride(DiffPool(pairs), n))
      && plan.pairs == |pairs| && plan.sameRows == plan.diffRows == n && plan.triplets == Triplets(n, n)
    ensures plan.included == Files(plan.rows)
  {
    var same, diff := Pools(pairs);
    var rows, n := BalancedRows(same, diff);
    var included := Files(rows);
    plan := TierBPlan(rows, included, |pairs|, n, n, Triplets(n, n));
  }

  /** Both pools cut to the size of the smaller one, and alternated. */
  method BalancedRows(same: seq<Row>, diff: seq<Row>) returns (rows: seq<Row>, n: nat)
    ensures n == if |same| < |diff| then |same| else |diff|
    ensures Alternates(rows, Stride(same, n), Stride(diff, n))
  {
    n := if |same| < |diff| then |same| else |diff|;
    StrideLength(same, n);
    StrideLength(diff, n);
    var sameBalanced, diffBalanced := Stride(same, n), Stride(diff, n);
    rows := Interleave(sameBalanced, diffBalanced);
  }

  function Files(rows: seq<Row>): set<string> {
    (set r | r in rows :: r.fileA) + (set r | r in rows :: r.fileB)
  }

  /** The files of the rows are those on either side of a row. */
  lemma {:induction false} FilesOfRows(rows: seq<Row>, f: string)
    ensures f in Files(rows) <==> exists r :: r in rows && (r.fileA == f || r.fileB == f)
  {}

  /** One more same row allows one more comparison for each different row. */
  lemma {:induction false} TripletsGrow(same: nat, diff: nat)
    ensures Triplets(0, diff) == 0 && Triplets(same + 1, diff) == Triplets(same, diff) + diff
  {}

  /** All same-side and all cross rows, pair by pair. */
  method Pools(pairs: seq<TierBInput>) returns (same: seq<Row>, diff: seq<Row>)
    ensures same == SamePool(pairs) && diff == DiffPool(pairs)
  {
    same, diff := [], [];
    for i := 0 to |pairs|
      invariant same == SamePool(pairs[..i]) && diff == DiffPool(pairs[..i])
    {
      assert pairs[..i + 1][..i] == pairs[..i];
      same := AppendSides(same, pairs[i]);
      var cross := Cross(Sort(TextLeq, pairs[i].aFiles), Sort(TextLeq, pairs[i].bFiles));
      diff := AppendRows(diff, First(cross, DIFF_PER_PAIR), Different);
    }
    assert pairs[..|pairs|] == pairs;
  }

  method Interleave(same: seq<Row>, diff: seq<Row>) returns (rows: seq<Row>)
    requires |same| == |diff|
    ensures Alternates(rows, same, diff)
  {
    rows := [];
    for i := 0 to |same|
      invariant |rows| == 2 * i
      invariant forall k :: 0 <= k < i ==> rows[2 * k] == same[k] && rows[2 * k + 1] == diff[k]
    {
      rows := rows + [same[i]];
      rows := rows + [diff[i]];
    }
  }

  method AppendSides(same: seq<Row>, pair: TierBInput) returns (r: seq<Row>)
    ensures r == same + SideRows(pair.aFiles) + SideRows(pair.bFiles)
  {
    r := same;
    var sides := [pair.aFiles, pair.bFiles];
    for side := 0 to 2
      invariant r == same + (if side > 0 then SideRows(pair.aFiles) else [])
                     + (if side > 1 then SideRows(pair.bFiles) else [])
    {
      r := AppendRows(r, First(Combinations(Sort(TextLeq, sides[side])), SAME_PER_SIDE_PER_PAIR), Same);
    }
  }

  method AppendRows(rows: seq<Row>, pairs: seq<(string, string)>, kind: Sameness) returns (r: seq<Row>)
    ensures r == rows + Rows(pairs, kind)
  {
    r := rows;
    for i := 0 to |pairs|
      invariant r + Rows(pairs[i..], kind) == rows + Rows(pairs, kind)
    {
      r := r + [Row(pairs[i].0, pairs[i].1, kind)];
    }
  }
}
