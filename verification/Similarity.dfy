/** The similarity score of two strings: the share of the longer one that both have in common. */
module Similarity {

  /** `t` can be obtained from `s` by deleting characters. */
  predicate Subsequence(t: string, s: string)
    decreases |s|
  {
    t == [] ||
    (s != [] &&
     (Subsequence(t, Init(s)) || (Last(t) == Last(s) && Subsequence(Init(t), Init(s)))))
  }

  function Init(s: string): string
    requires s != []
  {
    s[..|s| - 1]
  }

  function Last(s: string): char
    requires s != []
  {
    s[|s| - 1]
  }

  predicate Common(t: string, a: string, b: string) {
    Subsequence(t, a) && Subsequence(t, b)
  }

  /** The recurrence that the table follows. */
  function Lcs(a: string, b: string): nat
    decreases |a| + |b|
  {
    if a == [] || b == [] then 0
    else if Last(a) == Last(b) then Lcs(Init(a), Init(b)) + 1
    else Max(Lcs(Init(a), b), Lcs(a, Init(b)))
  }

  function Max(x: int, y: int): int {
    if x > y then x else y
  }

  lemma {:induction false} DropLast(t: string, s: string)
    requires t != [] && Subsequence(t, s)
    ensures s != [] && Subsequence(Init(t), Init(s))
    decreases |s|
  {
    if Subsequence(t, Init(s)) {
      DropLast(t, Init(s));
      Longer(Init(t), Init(Init(s)), Init(s));
    }
  }

  lemma {:induction false} Longer(t: string, small: string, s: string)
    requires s != [] && small == Init(s) && Subsequence(t, small)
    ensures Subsequence(t, s)
  {}

  /** No common subsequence is longer than the recurrence says. */
  lemma {:induction false} LcsIsUpperBound(t: string, a: string, b: string)
    requires Common(t, a, b)
    ensures |t| <= Lcs(a, b)
    decreases |a| + |b|
  {
    if t != [] {
      if Last(a) == Last(b) {
        DropLast(t, a);
        DropLast(t, b);
        LcsIsUpperBound(Init(t), Init(a), Init(b));
      } else if Subsequence(t, Init(a)) {
        LcsIsUpperBound(t, Init(a), b);
      } else {
        LcsIsUpperBound(t, a, Init(b));
      }
    }
  }

  /** A common subsequence of that length exists. */
  lemma {:induction false} LcsIsReached(a: string, b: string) returns (t: string)
    ensures Common(t, a, b) && |t| == Lcs(a, b)
    decreases |a| + |b|
  {
    if a == [] || b == [] {
      t := [];
    } else if Last(a) == Last(b) {
      var u := LcsIsReached(Init(a), Init(b));
      t := u + [Last(a)];
      assert Init(t) == u;
    } else if Lcs(Init(a), b) > Lcs(a, Init(b)) {
      t := LcsIsReached(Init(a), b);
      Longer(t, Init(a), a);
    } else {
      t := LcsIsReached(a, Init(b));
      Longer(t, Init(b), b);
    }
  }

  lemma {:induction false} SubsequenceLength(t: string, s: string)
    requires Subsequence(t, s)
    ensures |t| <= |s|
    ensures |t| == |s| ==> t == s
    decreases |s|
  {
    if t != [] {
      DropLast(t, s);
      SubsequenceLength(Init(t), Init(s));
      if Subsequence(t, Init(s)) { SubsequenceLength(t, Init(s)); }
      assert t == Init(t) + [Last(t)] && s == Init(s) + [Last(s)];
    }
  }

  lemma {:induction false} LcsSymmetric(a: string, b: string)
    ensures Lcs(a, b) == Lcs(b, a)
  {
    var t := LcsIsReached(a, b);
    LcsIsUpperBound(t, b, a);
    var u := LcsIsReached(b, a);
    LcsIsUpperBound(u, a, b);
  }

  lemma {:induction false} LcsBounds(a: string, b: string)
    ensures Lcs(a, b) <= |a| && Lcs(a, b) <= |b|
    ensures Lcs(a, b) == |a| == |b| ==> a == b
  {
    var t := LcsIsReached(a, b);
    SubsequenceLength(t, a);
    SubsequenceLength(t, b);
  }

  lemma {:induction false} SubsequenceOfSelf(s: string)
    ensures Subsequence(s, s)
    decreases |s|
  {
    if s != [] { SubsequenceOfSelf(Init(s)); }
  }

  lemma {:induction false} SubsequenceExtends(t: string, s: string, tail: string)
    requires Subsequence(t, s)
    ensures Subsequence(t + tail, s + tail)
    decreases |tail|
  {
    if tail == [] {
      assert t + tail == t && s + tail == s;
    } else {
      SubsequenceExtends(t, s, Init(tail));
      assert Init(t + tail) == t + Init(tail) && Init(s + tail) == s + Init(tail);
    }
  }

  lemma {:induction false} SubsequenceMembers(t: string, s: string, c: char)
    requires Subsequence(t, s) && c in t
    ensures c in s
    decreases |s|
  {
    if Subsequence(t, Init(s)) {
      SubsequenceMembers(t, Init(s), c);
    } else if c != Last(t) {
      assert t == Init(t) + [Last(t)];
      SubsequenceMembers(Init(t), Init(s), c);
    }
  }

  /** A subsequence gets nothing from places whose characters it does not have. */
  lemma {:induction false} SubsequenceLacks(t: string, s: string, lacked: set<nat>)
    requires Subsequence(t, s) && forall i :: i in lacked ==> i < |s| && s[i] !in t
    ensures |t| + |lacked| <= |s|
    decreases |s|
  {
    if s == [] {
      assert lacked == {};
    } else {
      var n := |s| - 1;
      var rest := lacked - {n};
      if t != [] && !Subsequence(t, Init(s)) {
        assert Last(t) in t && n !in lacked;
        assert forall c :: c in Init(t) ==> c in t;
        SubsequenceLacks(Init(t), Init(s), rest);
        assert rest == lacked;
      } else {
        SubsequenceLacks(t, Init(s), rest);
        assert |lacked| <= |rest| + 1;
      }
    }
  }

  lemma {:induction false} LcsLacks(a: string, b: string, lacked: set<nat>)
    requires forall i :: i in lacked ==> i < |a| && a[i] !in b
    ensures Lcs(a, b) + |lacked| <= |a|
  {
    var t := LcsIsReached(a, b);
    forall i | i in lacked ensures a[i] !in t {
      if a[i] in t { SubsequenceMembers(t, b, a[i]); }
    }
    SubsequenceLacks(t, a, lacked);
  }

  /** The score of the table's last cell; equal and empty strings are decided beforehand. */
  function Score(a: string, b: string): real {
    if a == [] || b == [] then 0.0
    else if a == b then 1.0
    else Lcs(a, b) as real / Max(|a|, |b|) as real
  }

  /** The score is symmetric, lies between 0 and 1, and is 1 exactly for equal non-empty strings. */
  lemma {:induction false} ScoreProperties(a: string, b: string)
    ensures Score(a, b) == Score(b, a)
    ensures 0.0 <= Score(a, b) <= 1.0
    ensures Score(a, b) == 1.0 <==> a == b && a != []
  {
    LcsSymmetric(a, b);
    LcsBounds(a, b);
    if a != [] && b != [] && a != b {
      var n, m := Lcs(a, b), Max(|a|, |b|);
      assert n < m;
      RatioBelowOne(n, m);
    }
  }

  /** A common subsequence that no other one exceeds. */
  ghost predicate Longest(t: string, a: string, b: string) {
    Common(t, a, b) && forall u :: Common(u, a, b) ==> |u| <= |t|
  }

  function LongerLength(a: string, b: string): nat {
    if |a| < |b| then |b| else |a|
  }

  /** The score is the length of a longest common subsequence as a share of the longer text. */
  lemma {:induction false} ScoreIsShare(a: string, b: string) returns (t: string)
    requires a != [] && b != []
    ensures Longest(t, a, b)
    ensures Score(a, b) == |t| as real / LongerLength(a, b) as real
  {
    t := LcsIsReached(a, b);
    forall u | Common(u, a, b) ensures |u| <= |t| { LcsIsUpperBound(u, a, b); }
    if a == b {
      LcsOfSelf(a);
      Whole(|a| as real);
    }
  }

  lemma {:induction false} Whole(m: real)
    requires m > 0.0
    ensures m / m == 1.0
  {}

  lemma {:induction false} LcsOfSelf(a: string)
    ensures Lcs(a, a) == |a|
  {
    SubsequenceOfSelf(a);
    LcsIsUpperBound(a, a, a);
    LcsBounds(a, a);
  }

  lemma {:induction false} RatioBelowOne(n: nat, m: nat)
    requires n < m
    ensures 0.0 <= n as real / m as real < 1.0
  {
    var q := n as real / m as real;
    assert q * m as real == n as real;
    if q >= 1.0 { AtLeastOnce(q, m as real); }
  }

  lemma {:induction false} AtLeastOnce(q: real, m: real)
    requires q >= 1.0 && m >= 0.0
    ensures q * m >= m
  {}

  /** Filling the table row by row. */
  method LcsSimilarity(s1: string, s2: string) returns (score: real)
    ensures score == Score(s1, s2)
  {
    if s1 == [] || s2 == [] { return 0.0; }
    if s1 == s2 { return 1.0; }
    var n1, n2 := |s1|, |s2|;
    var dp := new nat[n1 + 1, n2 + 1]((i, j) => 0);
    for i := 1 to n1 + 1
      invariant forall x, y :: 0 <= x < i && 0 <= y <= n2 ==> dp[x, y] == Lcs(s1[..x], s2[..y])
      invariant forall x :: i <= x <= n1 ==> dp[x, 0] == 0
    {
      for j := 1 to n2 + 1
        invariant forall x, y :: 0 <= x < i && 0 <= y <= n2 ==> dp[x, y] == Lcs(s1[..x], s2[..y])
        invariant forall x :: i <= x <= n1 ==> dp[x, 0] == 0
        invariant forall y :: 0 <= y < j ==> dp[i, y] == Lcs(s1[..i], s2[..y])
      {
        Step(s1, s2, i, j);
        if s1[i - 1] == s2[j - 1] {
          dp[i, j] := dp[i - 1, j - 1] + 1;
        } else {
          dp[i, j] := Max(dp[i - 1, j], dp[i, j - 1]);
        }
      }
    }
    assert s1[..n1] == s1 && s2[..n2] == s2;
    return dp[n1, n2] as real / Max(n1, n2) as real;
  }

  lemma {:induction false} Step(s1: string, s2: string, i: nat, j: nat)
    requires 0 < i <= |s1| && 0 < j <= |s2|
    ensures Lcs(s1[..i], s2[..j]) ==
      if s1[i - 1] == s2[j - 1] then Lcs(s1[..i - 1], s2[..j - 1]) + 1
      else Max(Lcs(s1[..i - 1], s2[..j]), Lcs(s1[..i], s2[..j - 1]))
  {
    assert Init(s1[..i]) == s1[..i - 1] && Init(s2[..j]) == s2[..j - 1];
  }
}
