/** Finding the corpus name of a Bible book from what a reader wrote. */
module BookNames {
  import opened Options
  import opened Similarity
  import Text

  const SIMILARITY_THRESHOLD: real := 0.7

  /** The table entry of a key, as a dictionary lookup finds it. */
  function Lookup(table: seq<(string, string)>, key: string): Option<string> {
    if table == [] then None
    else if table[0].0 == key then Some(table[0].1)
    else Lookup(table[1..], key)
  }

  /** The candidate among the first `n` entries that the scan has settled on. */
  function BestUpTo(table: seq<(string, string)>, key: string, n: nat): Option<nat>
    requires n <= |table|
    ensures BestUpTo(table, key, n).Some? ==> BestUpTo(table, key, n).value < n
  {
    if n == 0 then None
    else
      var best := BestUpTo(table, key, n - 1);
      var score := Score(key, table[n - 1].0);
      if score > ScoreOf(table, key, best) && score >= SIMILARITY_THRESHOLD then Some(n - 1) else best
  }

  function ScoreOf(table: seq<(string, string)>, key: string, best: Option<nat>): real
    requires best.Some? ==> best.value < |table|
  {
    if best.Some? then Score(key, table[best.value].0) else 0.0
  }

  /** The best candidate: similar enough, none more similar, and the first of its score. */
  ghost predicate FirstBest(table: seq<(string, string)>, key: string, n: nat, best: Option<nat>)
    requires n <= |table|
  {
    match best
    case None => forall j :: 0 <= j < n ==> Score(key, table[j].0) < 0.7
    case Some(i) =>
      && i < n && Score(key, table[i].0) >= 0.7
      && (forall j :: 0 <= j < n ==> Score(key, table[j].0) <= Score(key, table[i].0))
      && (forall j :: 0 <= j < i ==> Score(key, table[j].0) < Score(key, table[i].0))
  }

  lemma {:induction false} ScanFindsFirstBest(table: seq<(string, string)>, key: string, n: nat)
    requires n <= |table|
    ensures FirstBest(table, key, n, BestUpTo(table, key, n))
  {
    if n > 0 { ScanFindsFirstBest(table, key, n - 1); }
  }

  /** `lower` is the lower-casing of strings. */
  function Key(lower: string -> string, book: string): string {
    Text.Strip(lower(book))
  }

  function Normalize(table: seq<(string, string)>, lower: string -> string, book: string): string {
    var key := Key(lower, book);
    var exact := Lookup(table, key);
    if exact.Some? then exact.value
    else
      var best := BestUpTo(table, key, |table|);
      if best.Some? && table[best.value].1 != [] then table[best.value].1 else book
  }

  method NormalizeBookName(table: seq<(string, string)>, lower: string -> string, book: string) returns (name: string)
    ensures name == Normalize(table, lower, book)
  {
    var key := Key(lower, book);
    var exact := Lookup(table, key);
    if exact.Some? { return exact.value; }

    var bestMatch: Option<string> := None;
    var bestScore := 0.0;
    for n := 0 to |table|
      invariant var best := BestUpTo(table, key, n);
        bestScore == ScoreOf(table, key, best) && bestMatch == if best.Some? then Some(table[best.value].1) else None
    {
      var score := LcsSimilarity(key, table[n].0);
      if score > bestScore && score >= SIMILARITY_THRESHOLD {
        bestScore := score;
        bestMatch := Some(table[n].1);
      }
    }
    if bestMatch.Some? && bestMatch.value != [] { return bestMatch.value; }
    return book;
  }

  /**
    The name is the table's for an exact key; otherwise that of the first entry with the highest
    score of at least the threshold; otherwise what was written.
  */
  lemma {:induction false} NormalizeChooses(table: seq<(string, string)>, lower: string -> string, book: string)
    requires forall i :: 0 <= i < |table| ==> table[i].1 != []
    ensures var key, name := Text.Strip(lower(book)), Normalize(table, lower, book);
      || (exists i :: 0 <= i < |table| && table[i].0 == key && (forall j :: 0 <= j < i ==> table[j].0 != key)
           && name == table[i].1)
      || ((forall i :: 0 <= i < |table| ==> table[i].0 != key)
          && exists best: Option<nat> ::
               FirstBest(table, key, |table|, best) && name == if best.Some? then table[best.value].1 else book)
  {
    var key := Key(lower, book);
    LookupFinds(table, key);
    ScanFindsFirstBest(table, key, |table|);
    var best := BestUpTo(table, key, |table|);
    assert FirstBest(table, key, |table|, best);
  }

  lemma {:induction false} LookupFinds(table: seq<(string, string)>, key: string)
    ensures match Lookup(table, key)
      case Some(v) =>
        exists i ::
          0 <= i < |table| && table[i].0 == key && (forall j :: 0 <= j < i ==> table[j].0 != key) && v == table[i].1
      case None => forall i :: 0 <= i < |table| ==> table[i].0 != key
  {
    if table != [] && table[0].0 != key {
      LookupFinds(table[1..], key);
      if Lookup(table, key).Some? {
        var i :| 0 <= i < |table[1..]| && table[1..][i].0 == key && (forall j :: 0 <= j < i ==> table[1..][j].0 != key)
          && Lookup(table, key).value == table[1..][i].1;
        forall j | 0 <= j < i + 1 ensures table[j].0 != key { if j > 0 { assert table[j] == table[1..][j - 1]; } }
        assert table[i + 1] == table[1..][i];
      } else {
        forall i | 0 <= i < |table| ensures table[i].0 != key { if i > 0 { assert table[i] == table[1..][i - 1]; } }
      }
    }
  }
}
