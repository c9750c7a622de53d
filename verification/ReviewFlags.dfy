/** The keyset-paginated backfill of review flags. */
module ReviewFlags {
  import opened Options

  datatype Code = MissingClassification | InsufficientDescription | MissingStoryteller | OtherCode(text: string)

  datatype Origin = System | OtherOrigin(text: string)

  datatype Flag = Flag(code: Code, origin: Origin)

  /** The columns the backfill reads and writes; `others` stands for all the rest of the row. */
  datatype Recording = Recording(
    id: string,
    genre: Option<string>,
    register: Option<string>,
    description: Option<string>,
    storyteller: Option<string>,
    flags: seq<Flag>,
    others: string)

  datatype Report = Report(scanned: nat, changed: nat)

  const UNCLASSIFIED_GENRE_ID := "unclassified"

  function SystemFlag(code: Code): Flag {
    Flag(code, System)
  }

  predicate Unclassified(r: Recording) {
    r.genre == Some(UNCLASSIFIED_GENRE_ID) || r.register == None || r.register == Some("")
  }

  /** `sufficient` is the rule for descriptions. */
  function FlagsOf(sufficient: Option<string> -> bool, r: Recording): seq<Flag> {
    (if Unclassified(r) then [SystemFlag(MissingClassification)] else [])
    + (if !sufficient(r.description) then [SystemFlag(InsufficientDescription)] else [])
    + (if r.storyteller == None then [SystemFlag(MissingStoryteller)] else [])
  }

  /** A row with the flags it should hold, and nothing else changed. */
  function Own(sufficient: Option<string> -> bool, r: Recording): Recording {
    r.(flags := FlagsOf(sufficient, r))
  }

  /** The table after a complete backfill: every row holds its own flags, nothing else changed. */
  function Flagged(sufficient: Option<string> -> bool, rows: seq<Recording>): seq<Recording> {
    seq(|rows|, i requires 0 <= i < |rows| => Own(sufficient, rows[i]))
  }

  /** How many of the first `n` rows are not the same in both tables. */
  function Changes(before: seq<Recording>, after: seq<Recording>, n: nat): nat
    requires n <= |before| == |after|
  {
    if n == 0 then 0
    else Changes(before, after, n - 1) + if before[n - 1] == after[n - 1] then 0 else 1
  }

  ghost predicate Asymmetric(before: (string, string) -> bool) {
    forall x, y :: before(x, y) ==> !before(y, x)
  }

  /** The rows as the primary key's index keeps them. */
  ghost predicate InKeyOrder(before: (string, string) -> bool, rows: seq<Recording>) {
    forall i, j :: 0 <= i < j < |rows| ==> before(rows[i].id, rows[j].id)
  }

  ghost predicate DistinctKeys(rows: seq<Recording>) {
    forall i, j :: 0 <= i < j < |rows| ==> rows[i].id != rows[j].id
  }

  // ---- Queries -----------------------------------------------------------------------------

  function Behind(before: (string, string) -> bool, rows: seq<Recording>, last: Option<string>): seq<Recording> {
    if rows == [] then []
    else (if last.None? || before(last.value, rows[0].id) then [rows[0]] else []) + Behind(before, rows[1..], last)
  }

  /** One page: at most `limit` rows in key order, behind the last key when one is given. */
  function Page(before: (string, string) -> bool, rows: seq<Recording>, last: Option<string>,
                limit: nat): seq<Recording> {
    var all := Behind(before, rows, last);
    if |all| <= limit then all else all[..limit]
  }

  function PageSize(left: nat, limit: nat): nat {
    if left <= limit then left else limit
  }

  function SetFlags(rows: seq<Recording>, id: string, flags: seq<Flag>): seq<Recording> {
    seq(|rows|, i requires 0 <= i < |rows| => if rows[i].id == id then rows[i].(flags := flags) else rows[i])
  }

  lemma {:induction false} BehindAll(before: (string, string) -> bool, rows: seq<Recording>)
    ensures Behind(before, rows, None) == rows
  {
    if rows != [] { BehindAll(before, rows[1..]); }
  }

  lemma {:induction false} BehindKey(before: (string, string) -> bool, rows: seq<Recording>, n: nat, last: string)
    requires n <= |rows|
    requires forall i :: 0 <= i < |rows| ==> (before(last, rows[i].id) <==> i >= n)
    ensures Behind(before, rows, Some(last)) == rows[n..]
  {
    if rows != [] {
      if n > 0 {
        BehindKey(before, rows[1..], n - 1, last);
      } else {
        BehindKey(before, rows[1..], 0, last);
      }
    }
  }

  /** The page behind the `n`-th row is the next stretch of the table. */
  lemma {:induction false} NextPage(before: (string, string) -> bool, rows: seq<Recording>, n: nat, limit: nat)
    requires Asymmetric(before) && InKeyOrder(before, rows) && n <= |rows|
    ensures var last := if n == 0 then None else Some(rows[n - 1].id);
      Page(before, rows, last, limit) == rows[n..n + PageSize(|rows| - n, limit)]
  {
    if n == 0 {
      BehindAll(before, rows);
    } else {
      forall i | 0 <= i < |rows| ensures before(rows[n - 1].id, rows[i].id) <==> i >= n {
        if i < n - 1 { assert before(rows[i].id, rows[n - 1].id); }
      }
      BehindKey(before, rows, n, rows[n - 1].id);
    }
  }

  // ---- Part-way through --------------------------------------------------------------------

  /** The table on its way from `start` to `goal`, when its first `n` rows have been visited. */
  ghost predicate PartWay(start: seq<Recording>, goal: seq<Recording>, n: nat, rows: seq<Recording>) {
    && n <= |start| == |goal| == |rows|
    && forall i :: 0 <= i < |rows| ==> rows[i] == if i < n then goal[i] else start[i]
  }

  /** The key the next query starts behind. */
  function LastKey(start: seq<Recording>, n: nat): Option<string>
    requires n <= |start|
  {
    if n == 0 then None else Some(start[n - 1].id)
  }

  ghost predicate IsGoal(sufficient: Option<string> -> bool, start: seq<Recording>, goal: seq<Recording>) {
    && |goal| == |start|
    && (forall i {:trigger Own(sufficient, start[i])} :: 0 <= i < |start| ==> goal[i] == Own(sufficient, start[i]))
    && forall i :: 0 <= i < |start| ==> goal[i].id == start[i].id
  }

  lemma {:induction false} FlaggedIsGoal(sufficient: Option<string> -> bool, start: seq<Recording>)
    ensures IsGoal(sufficient, start, Flagged(sufficient, start))
  {}

  /** Part-way through, the next page is the next stretch of the original table. */
  lemma {:induction false} PageIsNext(before: (string, string) -> bool, start: seq<Recording>, goal: seq<Recording>,
                                      n: nat, rows: seq<Recording>, limit: nat)
    requires |goal| == |start| && forall i :: 0 <= i < |start| ==> goal[i].id == start[i].id
    requires Asymmetric(before) && InKeyOrder(before, start) && PartWay(start, goal, n, rows)
    ensures var page := Page(before, rows, LastKey(start, n), limit);
      |page| == PageSize(|start| - n, limit) && page == start[n..n + |page|]
  {
    assert forall i :: 0 <= i < |start| ==> rows[i].id == start[i].id;
    NextPage(before, rows, n, limit);
    var size := PageSize(|start| - n, limit);
    assert rows[n..n + size] == start[n..n + size];
  }

  lemma {:induction false} KeysDistinct(before: (string, string) -> bool, rows: seq<Recording>)
    requires Asymmetric(before) && InKeyOrder(before, rows)
    ensures DistinctKeys(rows)
  {
    forall i, j | 0 <= i < j < |rows| ensures rows[i].id != rows[j].id {
      assert before(rows[i].id, rows[j].id);
    }
  }

  /** Updating the row with the next key brings the table one row further. */
  lemma {:induction false} OneMore(sufficient: Option<string> -> bool, start: seq<Recording>, goal: seq<Recording>,
                                   n: nat, rows: seq<Recording>)
    requires IsGoal(sufficient, start, goal) && DistinctKeys(start) && n < |start| && PartWay(start, goal, n, rows)
    ensures PartWay(start, goal, n + 1, SetFlags(rows, start[n].id, FlagsOf(sufficient, start[n])))
    ensures FlagsOf(sufficient, start[n]) == start[n].flags ==> PartWay(start, goal, n + 1, rows)
    ensures FlagsOf(sufficient, start[n]) == start[n].flags <==> start[n] == goal[n]
  {
    assert goal[n] == Own(sufficient, start[n]);
    forall i | 0 <= i < |start| ensures start[i].id == start[n].id <==> i == n {}
  }

  lemma {:induction false} PageRead(start: seq<Recording>, n: nat, page: seq<Recording>)
    requires page != [] && n + |page| <= |start| && page == start[n..n + |page|]
    ensures start[..n] + page == start[..n + |page|]
    ensures LastKey(start, n + |page|) == Some(page[|page| - 1].id)
  {}

  // ---- The backfill ------------------------------------------------------------------------

  class Table {
    var present: bool
    var hasFlags: bool
    var rows: seq<Recording>

    constructor (rows: seq<Recording>)
      ensures this.rows == rows && present && hasFlags
    {
      this.rows, present, hasFlags := rows, true, true;
    }

    method FlagsFor(sufficient: Option<string> -> bool, r: Recording) returns (flags: seq<Flag>)
      ensures flags == FlagsOf(sufficient, r)
    {
      flags := [];
      if r.genre == Some(UNCLASSIFIED_GENRE_ID) || r.register == None || r.register == Some("") {
        flags := flags + [SystemFlag(MissingClassification)];
      }
      if !sufficient(r.description) {
        flags := flags + [SystemFlag(InsufficientDescription)];
      }
      if r.storyteller == None {
        flags := flags + [SystemFlag(MissingStoryteller)];
      }
    }

    /** `visited` lists the rows looked at, in order. */
    method Backfill(before: (string, string) -> bool, sufficient: Option<string> -> bool, batchSize: nat)
      returns (report: Report, ghost visited: seq<Recording>)
      requires Asymmetric(before) && InKeyOrder(before, rows)
      modifies `rows
      ensures if present && hasFlags && batchSize > 0
        then rows == Flagged(sufficient, old(rows)) && visited == old(rows)
             && report == Report(|old(rows)|, Changes(old(rows), rows, |rows|))
        else rows == old(rows) && visited == [] && report == Report(0, 0)
    {
      report, visited := Report(0, 0), [];
      if !present { return; }
      if !hasFlags { return; }
      FlaggedIsGoal(sufficient, rows);
      report, visited := Pages(before, sufficient, batchSize, rows, Flagged(sufficient, rows));
    }

    method Pages(before: (string, string) -> bool, sufficient: Option<string> -> bool, batchSize: nat,
                 ghost start: seq<Recording>, ghost goal: seq<Recording>)
      returns (report: Report, ghost visited: seq<Recording>)
      requires start == rows && IsGoal(sufficient, start, goal)
      requires Asymmetric(before) && InKeyOrder(before, start)
      modifies `rows
      ensures if batchSize > 0
        then rows == goal && visited == start && report == Report(|start|, Changes(start, goal, |start|))
        else rows == start && visited == [] && report == Report(0, 0)
    {
      report, visited := Report(0, 0), [];
      var last: Option<string> := None;
      ghost var n := 0;
      while true
        invariant PartWay(start, goal, n, rows)
        invariant last == LastKey(start, n)
        invariant visited == start[..n]
        invariant report == Report(n, Changes(start, goal, n))
        invariant batchSize == 0 ==> n == 0
        decreases |start| - n
      {
        var page := NextRows(before, last, batchSize, start, goal, n);
        if page == [] { break; }
        report := FlagPage(before, sufficient, page, report, start, goal, n);
        visited := visited + page;
        last := Some(page[|page| - 1].id);
        n := n + |page|;
      }
      assert rows == if batchSize > 0 then goal else start;
      assert start[..|start|] == start;
    }

    /** The query for one page; it returns the next rows exactly as they were at the start. */
    method NextRows(before: (string, string) -> bool, last: Option<string>, limit: nat,
                    ghost start: seq<Recording>, ghost goal: seq<Recording>, ghost n: nat)
      returns (page: seq<Recording>)
      requires Asymmetric(before) && InKeyOrder(before, start)
      requires |goal| == |start| && forall i :: 0 <= i < |start| ==> goal[i].id == start[i].id
      requires PartWay(start, goal, n, rows) && last == LastKey(start, n)
      ensures |page| == PageSize(|start| - n, limit) && page == start[n..n + |page|]
      ensures start[..n] + page == start[..n + |page|]
      ensures page != [] ==> LastKey(start, n + |page|) == Some(page[|page| - 1].id)
    {
      PageIsNext(before, start, goal, n, rows, limit);
      page := Page(before, rows, last, limit);
      if page != [] { PageRead(start, n, page); }
    }

    method FlagPage(ghost before: (string, string) -> bool, sufficient: Option<string> -> bool, page: seq<Recording>,
                    counts: Report, ghost start: seq<Recording>, ghost goal: seq<Recording>, ghost n: nat)
      returns (report: Report)
      requires IsGoal(sufficient, start, goal)
      requires Asymmetric(before) && InKeyOrder(before, start) && PartWay(start, goal, n, rows)
      requires n + |page| <= |start| && page == start[n..n + |page|]
      requires counts == Report(n, Changes(start, goal, n))
      modifies `rows
      ensures PartWay(start, goal, n + |page|, rows)
      ensures report == Report(n + |page|, Changes(start, goal, n + |page|))
    {
      report := counts;
      for i := 0 to |page|
        invariant PartWay(start, goal, n + i, rows)
        invariant report == Report(n + i, Changes(start, goal, n + i))
      {
        assert page[i] == start[n + i];
        report := FlagRow(before, sufficient, page[i], report, start, goal, n + i);
      }
    }

    method FlagRow(ghost before: (string, string) -> bool, sufficient: Option<string> -> bool, row: Recording,
                   counts: Report, ghost start: seq<Recording>, ghost goal: seq<Recording>, ghost n: nat)
      returns (report: Report)
      requires IsGoal(sufficient, start, goal)
      requires Asymmetric(before) && InKeyOrder(before, start) && PartWay(start, goal, n, rows)
      requires n < |start| && row == start[n]
      requires counts == Report(n, Changes(start, goal, n))
      modifies `rows
      ensures PartWay(start, goal, n + 1, rows)
      ensures report == Report(n + 1, Changes(start, goal, n + 1))
    {
      KeysDistinct(before, start);
      OneMore(sufficient, start, goal, n, rows);
      var flags := FlagsFor(sufficient, row);
      report := counts.(scanned := counts.scanned + 1);
      if flags != row.flags {
        rows := SetFlags(rows, row.id, flags);
        report := report.(changed := report.changed + 1);
      }
    }
  }

  // ---- Afterwards --------------------------------------------------------------------------

  /** A complete backfill can be run again: the second run finds nothing to change. */
  lemma {:induction false} SecondRunChangesNothing(before: (string, string) -> bool,
                                                   sufficient: Option<string> -> bool, rows: seq<Recording>)
    requires InKeyOrder(before, rows)
    ensures var once := Flagged(sufficient, rows);
      InKeyOrder(before, once) && Flagged(sufficient, once) == once
        && Changes(once, Flagged(sufficient, once), |once|) == 0
  {
    var once := Flagged(sufficient, rows);
    forall i | 0 <= i < |rows| ensures FlagsOf(sufficient, once[i]) == FlagsOf(sufficient, rows[i]) {}
    assert Flagged(sufficient, once) == once;
    NoChanges(once, |once|);
  }

  lemma {:induction false} NoChanges(rows: seq<Recording>, n: nat)
    requires n <= |rows|
    ensures Changes(rows, rows, n) == 0
  {
    if n > 0 { NoChanges(rows, n - 1); }
  }

  /** The count of changes is exactly the number of rows whose stored flags were not their own. */
  lemma {:induction false} ChangesCountStaleRows(sufficient: Option<string> -> bool, rows: seq<Recording>)
    ensures Changes(rows, Flagged(sufficient, rows), |rows|) ==
      |set i | 0 <= i < |rows| && Own(sufficient, rows[i]) != rows[i]|
  {
    FlaggedIsGoal(sufficient, rows);
    ChangesCountDifferences(rows, Flagged(sufficient, rows), |rows|);
    var differing := set i | 0 <= i < |rows| && Flagged(sufficient, rows)[i] != rows[i];
    assert differing == set i | 0 <= i < |rows| && Own(sufficient, rows[i]) != rows[i];
  }

  lemma {:induction false} ChangesCountDifferences(before: seq<Recording>, after: seq<Recording>, n: nat)
    requires n <= |before| == |after|
    ensures Changes(before, after, n) == |set i | 0 <= i < n && after[i] != before[i]|
  {
    var differing := set i | 0 <= i < n && after[i] != before[i];
    if n == 0 {
      assert differing == {};
    } else {
      ChangesCountDifferences(before, after, n - 1);
      var earlier := set i | 0 <= i < n - 1 && after[i] != before[i];
      assert differing == earlier + if after[n - 1] != before[n - 1] then {n - 1} else {};
    }
  }

  /** The place of a code in the fixed order of flags. */
  function Rank(code: Code): nat {
    match code
    case MissingClassification => 0
    case InsufficientDescription => 1
    case MissingStoryteller => 2
    case OtherCode(text) => 3
  }

  /** No genre but the placeholder, or no register worth the name. */
  predicate NotClassified(r: Recording) {
    r.genre == Some("unclassified") || r.register == None || r.register == Some("")
  }

  /** The flags of a row say what is missing from it: the system's flags, each once, in fixed order. */
  lemma {:induction false} FlagsSayWhatIsMissing(sufficient: Option<string> -> bool, r: Recording)
    ensures var flags := FlagsOf(sufficient, r);
      && (Flag(MissingClassification, System) in flags <==> NotClassified(r))
      && (Flag(InsufficientDescription, System) in flags <==> !sufficient(r.description))
      && (Flag(MissingStoryteller, System) in flags <==> r.storyteller == None)
      && (forall f :: f in flags ==> f.origin == System && Rank(f.code) < 3)
      && (forall i, j :: 0 <= i < j < |flags| ==> Rank(flags[i].code) < Rank(flags[j].code))
      && (flags == [] <==> !NotClassified(r) && sufficient(r.description) && r.storyteller.Some?)
  {}

  /** What a complete backfill leaves of each row: its own flags, and every other column. */
  lemma {:induction false} FlaggedKeepsColumns(sufficient: Option<string> -> bool, rows: seq<Recording>, i: nat)
    requires i < |rows|
    ensures |Flagged(sufficient, rows)| == |rows|
    ensures var old', new' := rows[i], Flagged(sufficient, rows)[i];
      && new'.flags == FlagsOf(sufficient, old')
      && new'.id == old'.id && new'.genre == old'.genre && new'.register == old'.register
      && new'.description == old'.description && new'.storyteller == old'.storyteller && new'.others == old'.others
  {}
}
