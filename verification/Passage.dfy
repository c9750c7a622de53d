/** Extracting a passage: its clauses numbered, with their place in the narrative chain. */
module Passage {
  import opened Options
  import opened Reference
  import opened BookNames

  const MAINLINE_TYPES: set<string> := {"Way0", "WayX"}

  datatype Position = Initial | Continuation | Break

  datatype Clause = Clause(id: nat, verse: nat, kind: string, mainline: bool, position: Position)

  predicate IsMainline(kind: string) {
    kind in MAINLINE_TYPES
  }

  /** `prev` is the type of the clause before, if any. */
  function ChainPosition(kind: string, prev: Option<string>): Position {
    if kind in MAINLINE_TYPES then
      (if prev.None? || prev.value !in MAINLINE_TYPES then Initial else Continuation)
    else if prev.Some? && prev.value in MAINLINE_TYPES then Break
    else Continuation
  }

  /** The corpus: for each verse it knows, the types of its clauses in order. */
  type Corpus = (string, nat, nat) -> Option<seq<string>>

  /** The passage's clause types: all clauses of the verses from `first` to `last`, in order. */
  function Kinds(corpus: Corpus, book: string, chapter: nat, first: nat, count: nat): seq<string> {
    if count == 0 then []
    else
      var here := corpus(book, chapter, first + count - 1);
      Kinds(corpus, book, chapter, first, count - 1) + if here.Some? then here.value else []
  }

  /** For each of those clauses, the verse it belongs to. */
  function Verses(corpus: Corpus, book: string, chapter: nat, first: nat, count: nat): seq<nat> {
    if count == 0 then []
    else
      var here := corpus(book, chapter, first + count - 1);
      Verses(corpus, book, chapter, first, count - 1)
        + if here.Some? then seq(|here.value|, _ => first + count - 1) else []
  }

  /** How many verses from `first` on the corpus has without a gap, at most `limit`. */
  function Present(corpus: Corpus, book: string, chapter: nat, first: nat, limit: nat): nat
    ensures Present(corpus, book, chapter, first, limit) <= limit
    decreases limit
  {
    if limit == 0 || corpus(book, chapter, first).None? then 0
    else 1 + Present(corpus, book, chapter, first + 1, limit - 1)
  }

  function Requested(first: nat, last: nat): nat {
    if first <= last then last - first + 1 else 0
  }

  function PositionAt(kinds: seq<string>, i: nat): Position
    requires i < |kinds|
  {
    ChainPosition(kinds[i], if i == 0 then None else Some(kinds[i - 1]))
  }

  datatype Extract = Extract(reference: string, clauses: seq<Clause>) | Missing(verse: nat)

  /**
    The passage of a reference: missing when its first verse is, else the verses found without a gap,
    their clauses numbered from 1 and each positioned by the one before it.
  */
  function Found(corpus: Corpus, r: Ref): Extract {
    if r.first <= r.last && corpus(r.book, r.chapter, r.first).None? then Missing(r.first)
    else
      var n := Present(corpus, r.book, r.chapter, r.first, Requested(r.first, r.last));
      Extract(Print(Ref(r.book, r.chapter, r.first, if n == 0 then r.first else r.first + n - 1)),
              ClausesOf(Kinds(corpus, r.book, r.chapter, r.first, n), Verses(corpus, r.book, r.chapter, r.first, n)))
  }

  function ClausesOf(kinds: seq<string>, verses: seq<nat>): seq<Clause> {
    if |kinds| != |verses| then []
    else
      seq(|kinds|, i requires 0 <= i < |kinds| =>
        Clause(i + 1, verses[i], kinds[i], IsMainline(kinds[i]), PositionAt(kinds, i)))
  }

  method ExtractVerses(corpus: Corpus, book: string, chapter: nat, first: nat, last: nat) returns (e: Extract)
    ensures e == Found(corpus, Ref(book, chapter, first, last))
  {
    var clauses: seq<Clause> := [];
    var clauseId := 1;
    var prev: Option<string> := None;
    var actualEnd := first;
    ghost var n := 0;
    ghost var limit := Requested(first, last);
    var verse := first;
    while verse <= last
      invariant first <= verse && (first <= last ==> verse <= last + 1) && n == verse - first && n <= limit
      invariant Gapless(corpus, book, chapter, first, n)
      invariant actualEnd == if n == 0 then first else verse - 1
      invariant Collected(corpus, book, chapter, first, n, clauses, clauseId, prev)
    {
      var node := corpus(book, chapter, verse);
      if node.None? {
        if verse == first { return Missing(verse); }
        break;
      }
      actualEnd := verse;
      GaplessMore(corpus, book, chapter, first, n);
      clauses, clauseId, prev := AddVerse(corpus, book, chapter, first, n, clauses, clauseId, prev, node.value, verse);
      n := n + 1;
      verse := verse + 1;
    }
    PresentIs(corpus, book, chapter, first, n, limit);
    CollectedIs(corpus, Ref(book, chapter, first, last), n, clauses, clauseId, prev);
    e := Extract(Print(Ref(book, chapter, first, actualEnd)), clauses);
  }

  /** The clauses, the next number and the last type when `n` verses from `first` on are done. */
  ghost predicate Collected(corpus: Corpus, book: string, chapter: nat, first: nat, n: nat, clauses: seq<Clause>,
                            clauseId: nat, prev: Option<string>)
  {
    && Chained(clauses, Kinds(corpus, book, chapter, first, n), Verses(corpus, book, chapter, first, n))
    && clauseId == |clauses| + 1
    && prev == if clauses == [] then None else Some(clauses[|clauses| - 1].kind)
  }

  method AddVerse(ghost corpus: Corpus, ghost book: string, ghost chapter: nat, ghost first: nat, ghost n: nat,
                  clauses: seq<Clause>, clauseId: nat, prev: Option<string>, nodes: seq<string>, verse: nat)
    returns (r: seq<Clause>, nextId: nat, kind: Option<string>)
    requires Collected(corpus, book, chapter, first, n, clauses, clauseId, prev)
    requires verse == first + n && corpus(book, chapter, verse) == Some(nodes)
    ensures Collected(corpus, book, chapter, first, n + 1, r, nextId, kind)
  {
    VerseMore(corpus, book, chapter, first, n, nodes);
    r, nextId, kind := AppendClauses(clauses, clauseId, prev, nodes, verse,
      Kinds(corpus, book, chapter, first, n), Verses(corpus, book, chapter, first, n));
  }

  lemma {:induction false} CollectedIs(corpus: Corpus, r: Ref, n: nat, clauses: seq<Clause>, clauseId: nat,
                                       prev: Option<string>)
    requires n == Present(corpus, r.book, r.chapter, r.first, Requested(r.first, r.last))
    requires r.first <= r.last ==> n > 0
    requires Collected(corpus, r.book, r.chapter, r.first, n, clauses, clauseId, prev)
    ensures Found(corpus, r) ==
      Extract(Print(Ref(r.book, r.chapter, r.first, if n == 0 then r.first else r.first + n - 1)), clauses)
  {
    FoundIs(corpus, r, n);
  }

  ghost predicate Gapless(corpus: Corpus, book: string, chapter: nat, first: nat, n: nat) {
    forall v :: first <= v < first + n ==> corpus(book, chapter, v).Some?
  }

  lemma {:induction false} GaplessMore(corpus: Corpus, book: string, chapter: nat, first: nat, n: nat)
    requires Gapless(corpus, book, chapter, first, n) && corpus(book, chapter, first + n).Some?
    ensures Gapless(corpus, book, chapter, first, n + 1)
  {}

  /** The gapless stretch from `first` is `n` verses long when these are there and the next one is not. */
  lemma {:induction false} PresentIs(corpus: Corpus, book: string, chapter: nat, first: nat, n: nat, limit: nat)
    requires n <= limit && Gapless(corpus, book, chapter, first, n)
    requires n < limit ==> corpus(book, chapter, first + n).None?
    ensures Present(corpus, book, chapter, first, limit) == n
    decreases n
  {
    if n > 0 { PresentIs(corpus, book, chapter, first + 1, n - 1, limit - 1); }
  }

  lemma {:induction false} VerseMore(corpus: Corpus, book: string, chapter: nat, first: nat, n: nat, nodes: seq<string>)
    requires corpus(book, chapter, first + n) == Some(nodes)
    ensures Kinds(corpus, book, chapter, first, n + 1) == Kinds(corpus, book, chapter, first, n) + nodes
    ensures Verses(corpus, book, chapter, first, n + 1) ==
      Verses(corpus, book, chapter, first, n) + seq(|nodes|, _ => first + n)
  {}

  lemma {:induction false} FoundIs(corpus: Corpus, r: Ref, n: nat)
    requires n == Present(corpus, r.book, r.chapter, r.first, Requested(r.first, r.last))
    requires r.first <= r.last ==> corpus(r.book, r.chapter, r.first).Some?
    ensures Found(corpus, r) ==
      Extract(Print(Ref(r.book, r.chapter, r.first, if n == 0 then r.first else r.first + n - 1)),
              ClausesOf(Kinds(corpus, r.book, r.chapter, r.first, n), Verses(corpus, r.book, r.chapter, r.first, n)))
  {}

  predicate Chained(clauses: seq<Clause>, kinds: seq<string>, verses: seq<nat>) {
    |kinds| == |verses| && clauses == ClausesOf(kinds, verses)
  }

  /** The clause of type `kind` that follows clauses of the types `kinds`. */
  function NextClause(kinds: seq<string>, kind: string, verse: nat): Clause {
    Clause(|kinds| + 1, verse, kind, IsMainline(kind),
           ChainPosition(kind, if kinds == [] then None else Some(kinds[|kinds| - 1])))
  }

  lemma {:induction false} ClausesMore(kinds: seq<string>, verses: seq<nat>, kind: string, verse: nat,
                                       moreKinds: seq<string>, moreVerses: seq<nat>)
    requires |kinds| == |verses| && moreKinds == kinds + [kind] && moreVerses == verses + [verse]
    ensures ClausesOf(moreKinds, moreVerses) == ClausesOf(kinds, verses) + [NextClause(kinds, kind, verse)]
  {}

  lemma {:induction false} ListsMore(kinds: seq<string>, verses: seq<nat>, nodes: seq<string>, i: nat, verse: nat)
    requires i < |nodes|
    ensures kinds + nodes[..i + 1] == kinds + nodes[..i] + [nodes[i]]
    ensures verses + seq(i + 1, _ => verse) == verses + seq(i, _ => verse) + [verse]
  {
    assert nodes[..i + 1] == nodes[..i] + [nodes[i]];
    assert seq(i + 1, _ => verse) == seq(i, _ => verse) + [verse];
  }

  /** The clauses of one verse, continuing the numbering and the chain. */
  method AppendClauses(clauses: seq<Clause>, clauseId: nat, prev: Option<string>, nodes: seq<string>, verse: nat,
                       ghost kinds: seq<string>, ghost verses: seq<nat>)
    returns (r: seq<Clause>, nextId: nat, last: Option<string>)
    requires Chained(clauses, kinds, verses) && clauseId == |clauses| + 1
    requires prev == if clauses == [] then None else Some(clauses[|clauses| - 1].kind)
    ensures Chained(r, kinds + nodes, verses + seq(|nodes|, _ => verse)) && nextId == |r| + 1
    ensures last == if r == [] then None else Some(r[|r| - 1].kind)
  {
    r, nextId, last := clauses, clauseId, prev;
    for i := 0 to |nodes|
      invariant Chained(r, kinds + nodes[..i], verses + seq(i, _ => verse)) && nextId == |r| + 1
      invariant last == if r == [] then None else Some(r[|r| - 1].kind)
    {
      var kind := nodes[i];
      ListsMore(kinds, verses, nodes, i, verse);
      ghost var ks, vs := kinds + nodes[..i], verses + seq(i, _ => verse);
      ClausesMore(ks, vs, kind, verse, kinds + nodes[..i + 1], verses + seq(i + 1, _ => verse));
      r := r + [Clause(nextId, verse, kind, IsMainline(kind), ChainPosition(kind, last))];
      nextId := nextId + 1;
      last := Some(kind);
    }
    assert nodes[..|nodes|] == nodes;
  }

  // ---- The chain encodes the mainline ------------------------------------------------------

  /** Replaying positions: initial switches on, break switches off, continuation keeps, from off. */
  function Replay(positions: seq<Position>): seq<bool> {
    if positions == [] then []
    else
      var before := Replay(positions[..|positions| - 1]);
      var state := before != [] && before[|before| - 1];
      var next := match positions[|positions| - 1] case Initial => true case Break => false case Continuation => state;
      before + [next]
  }

  function Positions(kinds: seq<string>): seq<Position> {
    seq(|kinds|, i requires 0 <= i < |kinds| => PositionAt(kinds, i))
  }

  function Flags(kinds: seq<string>): seq<bool> {
    seq(|kinds|, i requires 0 <= i < |kinds| => IsMainline(kinds[i]))
  }

  /** Replaying a passage's chain positions gives back its mainline flags. */
  lemma {:induction false} ReplayRecoversFlags(kinds: seq<string>)
    ensures Replay(Positions(kinds)) == Flags(kinds)
  {
    if kinds != [] {
      var init := kinds[..|kinds| - 1];
      assert Positions(kinds)[..|kinds| - 1] == Positions(init);
      ReplayRecoversFlags(init);
      assert Flags(kinds) == Flags(init) + [IsMainline(kinds[|kinds| - 1])];
    }
  }

  function Count<T(==)>(xs: seq<T>, x: T): nat {
    if xs == [] then 0 else Count(xs[..|xs| - 1], x) + if xs[|xs| - 1] == x then 1 else 0
  }

  /** The places where a maximal run of true flags starts. */
  function Starts(flags: seq<bool>): seq<bool> {
    seq(|flags|, i requires 0 <= i < |flags| => flags[i] && (i == 0 || !flags[i - 1]))
  }

  /** The places just behind a maximal run of true flags. */
  function Ends(flags: seq<bool>): seq<bool> {
    seq(|flags|, i requires 0 <= i < |flags| => !flags[i] && i > 0 && flags[i - 1])
  }

  lemma {:induction false} CountMore<T>(xs: seq<T>, x: T)
    requires xs != []
    ensures Count(xs, x) == Count(xs[..|xs| - 1], x) + if xs[|xs| - 1] == x then 1 else 0
  {}

  /** What one more clause adds to the positions, and to the starts and ends of the runs. */
  lemma {:induction false} PrefixLists(kinds: seq<string>)
    requires kinds != []
    ensures var init := kinds[..|kinds| - 1];
      && Positions(kinds)[..|kinds| - 1] == Positions(init)
      && Starts(Flags(kinds))[..|kinds| - 1] == Starts(Flags(init))
      && Ends(Flags(kinds))[..|kinds| - 1] == Ends(Flags(init))
  {}

  /** There are as many initials as maximal mainline runs, and a break behind each that ends. */
  lemma {:induction false} InitialsCountRuns(kinds: seq<string>)
    ensures Count(Positions(kinds), Initial) == Count(Starts(Flags(kinds)), true)
    ensures Count(Positions(kinds), Break) == Count(Ends(Flags(kinds)), true)
    ensures Count(Positions(kinds), Initial) ==
      Count(Positions(kinds), Break) + if kinds != [] && IsMainline(kinds[|kinds| - 1]) then 1 else 0
  {
    if kinds != [] {
      InitialsCountRuns(kinds[..|kinds| - 1]);
      PrefixLists(kinds);
      CountMore(Positions(kinds), Initial);
      CountMore(Positions(kinds), Break);
      CountMore(Starts(Flags(kinds)), true);
      CountMore(Ends(Flags(kinds)), true);
    }
  }

  // ---- The verses found --------------------------------------------------------------------

  /** The verses found are the longest gapless stretch from the first requested one. */
  lemma {:induction false} PresentIsPrefix(corpus: Corpus, book: string, chapter: nat, first: nat, limit: nat)
    ensures var n := Present(corpus, book, chapter, first, limit);
      && (forall v :: first <= v < first + n ==> corpus(book, chapter, v).Some?)
      && (n < limit ==> corpus(book, chapter, first + n).None?)
    decreases limit
  {
    if limit > 0 && corpus(book, chapter, first).Some? {
      PresentIsPrefix(corpus, book, chapter, first + 1, limit - 1);
    }
  }

  /** Asking for no more than the verses found finds the same ones. */
  lemma {:induction false} PresentAgain(corpus: Corpus, book: string, chapter: nat, first: nat, limit: nat)
    ensures Present(corpus, book, chapter, first, Present(corpus, book, chapter, first, limit)) ==
      Present(corpus, book, chapter, first, limit)
    decreases limit
  {
    if limit > 0 && corpus(book, chapter, first).Some? {
      PresentAgain(corpus, book, chapter, first + 1, limit - 1);
    }
  }

  lemma {:induction false} VersesInOrder(corpus: Corpus, book: string, chapter: nat, first: nat, n: nat)
    ensures var vs := Verses(corpus, book, chapter, first, n);
      && |vs| == |Kinds(corpus, book, chapter, first, n)|
      && (forall i :: 0 <= i < |vs| ==> first <= vs[i] < first + n)
      && (forall i, j :: 0 <= i < j < |vs| ==> vs[i] <= vs[j])
  {
    if n > 0 { VersesInOrder(corpus, book, chapter, first, n - 1); }
  }

  /**
    Every passage, however its clauses fall into verses: the clauses are numbered 1, 2, ... in verse
    order, and replaying their chain positions gives back their mainline flags.
  */
  lemma {:induction false} PassageChain(corpus: Corpus, r: Ref)
    requires Found(corpus, r).Extract?
    ensures var cs := Found(corpus, r).clauses;
      && Replay(seq(|cs|, i requires 0 <= i < |cs| => cs[i].position)) ==
          seq(|cs|, i requires 0 <= i < |cs| => cs[i].mainline)
      && (forall i :: 0 <= i < |cs| ==> cs[i].id == i + 1)
      && (forall i, j :: 0 <= i < j < |cs| ==> r.first <= cs[i].verse <= cs[j].verse)
  {
    var n := Present(corpus, r.book, r.chapter, r.first, Requested(r.first, r.last));
    var kinds := Kinds(corpus, r.book, r.chapter, r.first, n);
    var cs := Found(corpus, r).clauses;
    VersesInOrder(corpus, r.book, r.chapter, r.first, n);
    ReplayRecoversFlags(kinds);
    assert seq(|cs|, i requires 0 <= i < |cs| => cs[i].position) == Positions(kinds);
    assert seq(|cs|, i requires 0 <= i < |cs| => cs[i].mainline) == Flags(kinds);
  }

  datatype Extraction = Extracted(e: Extract) | Unparsed(text: string)

  method ExtractPassage(corpus: Corpus, table: seq<(string, string)>, lower: string -> string, text: string)
    returns (x: Extraction)
    ensures x == Passage(corpus, table, lower, text)
  {
    var parsed := Parse(table, lower, text);
    if parsed.Err? { return Unparsed(parsed.text); }
    var r := parsed.ref;
    var e := ExtractVerses(corpus, r.book, r.chapter, r.first, r.last);
    return Extracted(e);
  }

  function Passage(corpus: Corpus, table: seq<(string, string)>, lower: string -> string, text: string): Extraction {
    var parsed := Parse(table, lower, text);
    if parsed.Err? then Unparsed(parsed.text) else Extracted(Found(corpus, parsed.ref))
  }

  /** The verses reported for a passage: those found, or just the first one asked for. */
  function Reported(corpus: Corpus, r: Ref): Ref {
    var n := Present(corpus, r.book, r.chapter, r.first, Requested(r.first, r.last));
    Ref(r.book, r.chapter, r.first, if n == 0 then r.first else r.first + n - 1)
  }

  lemma {:induction false} FoundAgain(corpus: Corpus, r: Ref)
    requires r.first <= r.last && corpus(r.book, r.chapter, r.first).Some?
    ensures Found(corpus, r).Extract? && Found(corpus, r).reference == Print(Reported(corpus, r))
    ensures Found(corpus, Reported(corpus, r)) == Found(corpus, r)
  {
    var limit := Requested(r.first, r.last);
    var n := Present(corpus, r.book, r.chapter, r.first, limit);
    PresentAgain(corpus, r.book, r.chapter, r.first, limit);
    FoundIs(corpus, r, n);
    FoundIs(corpus, Reported(corpus, r), n);
  }

  /**
    The reference reported with a passage names that passage: extracting it again gives the same
    clauses and the same reference, even when the corpus ended before the requested range.
  */
  lemma {:induction false} ReportedReferenceIsStable(corpus: Corpus, table: seq<(string, string)>,
                                                     lower: string -> string, r: Ref)
    requires PlainName(r.book) && Normalize(table, lower, r.book) == r.book
    requires r.first <= r.last && Found(corpus, r).Extract?
    ensures Passage(corpus, table, lower, Found(corpus, r).reference) == Extracted(Found(corpus, r))
  {
    FoundAgain(corpus, r);
    ParseUndoesPrint(table, lower, Reported(corpus, r));
  }

  /** A range written backwards is answered without clauses, under the reference of its first verse. */
  lemma {:induction false} BackwardsIsEmpty(corpus: Corpus, r: Ref)
    requires r.first > r.last
    ensures Found(corpus, r) == Extract(Print(Ref(r.book, r.chapter, r.first, r.first)), [])
  {}

  lemma {:induction false} OneVerse(corpus: Corpus, book: string, chapter: nat, v: nat)
    ensures var one := Found(corpus, Ref(book, chapter, v, v));
      match corpus(book, chapter, v)
      case None => one == Missing(v)
      case Some(nodes) => one.Extract? && one.reference == Print(Ref(book, chapter, v, v)) && |one.clauses| == |nodes|
  {
    if corpus(book, chapter, v).Some? {
      var r := Ref(book, chapter, v, v);
      assert Present(corpus, book, chapter, v, 1) == 1;
      FoundIs(corpus, r, 1);
      VerseMore(corpus, book, chapter, v, 0, corpus(book, chapter, v).value);
    }
  }

  /** The exact condition: the range runs forwards, or its first verse is known and has no clause. */
  lemma {:induction false} StableIff(corpus: Corpus, table: seq<(string, string)>, lower: string -> string, r: Ref)
    requires PlainName(r.book) && Normalize(table, lower, r.book) == r.book
    requires Found(corpus, r).Extract?
    ensures Passage(corpus, table, lower, Found(corpus, r).reference) == Extracted(Found(corpus, r)) <==>
      r.first <= r.last || corpus(r.book, r.chapter, r.first) == Some([])
  {
    if r.first <= r.last {
      ReportedReferenceIsStable(corpus, table, lower, r);
    } else {
      var first := Ref(r.book, r.chapter, r.first, r.first);
      BackwardsIsEmpty(corpus, r);
      ParseUndoesPrint(table, lower, first);
      OneVerse(corpus, r.book, r.chapter, r.first);
      assert Passage(corpus, table, lower, Print(first)) == Extracted(Found(corpus, first));
    }
  }

  // ---- The clauses of each verse -----------------------------------------------------------

  predicate OnMainline(kind: string) {
    kind == "Way0" || kind == "WayX"
  }

  /** The clauses from place `k` on are those of verse `v`, and no others are. */
  ghost predicate HoldsVerse(cs: seq<Clause>, k: nat, v: nat, nodes: seq<string>) {
    && k + |nodes| <= |cs|
    && (forall j :: 0 <= j < |nodes| ==> cs[k + j].kind == nodes[j])
    && (forall i :: 0 <= i < |cs| ==> (cs[i].verse == v <==> k <= i < k + |nodes|))
  }

  lemma {:induction false} KindsOfVerse(corpus: Corpus, book: string, chapter: nat, first: nat, n: nat, v: nat)
    returns (k: nat)
    requires first <= v < first + n && corpus(book, chapter, v).Some?
    ensures var kinds, verses := Kinds(corpus, book, chapter, first, n), Verses(corpus, book, chapter, first, n);
      var nodes := corpus(book, chapter, v).value;
      && k + |nodes| <= |kinds| == |verses|
      && (forall j :: 0 <= j < |nodes| ==> kinds[k + j] == nodes[j])
      && (forall i :: 0 <= i < |verses| ==> (verses[i] == v <==> k <= i < k + |nodes|))
  {
    VersesInOrder(corpus, book, chapter, first, n - 1);
    VersesInOrder(corpus, book, chapter, first, n);
    if v == first + n - 1 {
      k := |Kinds(corpus, book, chapter, first, n - 1)|;
    } else {
      k := KindsOfVerse(corpus, book, chapter, first, n - 1, v);
    }
  }

  /** Every verse found contributes exactly its clauses, in their order and in one stretch. */
  lemma {:induction false} VerseIsHeld(corpus: Corpus, r: Ref, v: nat) returns (k: nat)
    requires r.first <= r.last && corpus(r.book, r.chapter, r.first).Some?
    requires r.first <= v < r.first + Present(corpus, r.book, r.chapter, r.first, r.last - r.first + 1)
    ensures corpus(r.book, r.chapter, v).Some? && Found(corpus, r).Extract?
    ensures HoldsVerse(Found(corpus, r).clauses, k, v, corpus(r.book, r.chapter, v).value)
  {
    var n := Present(corpus, r.book, r.chapter, r.first, r.last - r.first + 1);
    PresentIsPrefix(corpus, r.book, r.chapter, r.first, r.last - r.first + 1);
    FoundIs(corpus, r, n);
    k := KindsOfVerse(corpus, r.book, r.chapter, r.first, n, v);
  }

  /** Is the clause at place `i` on the mainline? */
  predicate MainlineAt(cs: seq<Clause>, i: int) {
    0 <= i < |cs| && OnMainline(cs[i].kind)
  }

  /** A clause on the mainline starts a stretch or continues it; one off it breaks a stretch or lies outside. */
  lemma {:induction false} PositionsTell(corpus: Corpus, r: Ref, i: nat)
    requires Found(corpus, r).Extract? && i < |Found(corpus, r).clauses|
    ensures var cs := Found(corpus, r).clauses;
      && (cs[i].mainline <==> MainlineAt(cs, i))
      && (cs[i].position == Initial <==> MainlineAt(cs, i) && !MainlineAt(cs, i - 1))
      && (cs[i].position == Break <==> !MainlineAt(cs, i) && MainlineAt(cs, i - 1))
  {
    var n := Present(corpus, r.book, r.chapter, r.first, Requested(r.first, r.last));
    var kinds := Kinds(corpus, r.book, r.chapter, r.first, n);
    KindsChain(kinds, Verses(corpus, r.book, r.chapter, r.first, n), i);
  }

  lemma {:induction false} KindsChain(kinds: seq<string>, verses: seq<nat>, i: nat)
    requires |kinds| == |verses| && i < |kinds|
    ensures var cs := ClausesOf(kinds, verses);
      && (cs[i].mainline <==> MainlineAt(cs, i))
      && (cs[i].position == Initial <==> MainlineAt(cs, i) && !MainlineAt(cs, i - 1))
      && (cs[i].position == Break <==> !MainlineAt(cs, i) && MainlineAt(cs, i - 1))
  {
    MainlineIs(kinds[i]);
    if i > 0 { MainlineIs(kinds[i - 1]); }
  }

  lemma {:induction false} MainlineIs(kind: string)
    ensures IsMainline(kind) <==> OnMainline(kind)
  {}
}
