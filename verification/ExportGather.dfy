/** Gathering a language's stored recordings into planner inputs and file-name dictionaries. */
module ExportGather {
  import opened TextOrder
  import opened Naming
  import opened Studio
  import opened StudioFacts
  import opened ExportPlan

  ghost predicate Enumerates<T(!new)>(xs: seq<T>, s: set<T>) {
    NoDuplicates(xs) && forall x :: x in xs <==> x in s
  }

  lemma {:induction false} EnumeratesMore<T(!new)>(xs: seq<T>, s: set<T>, x: T)
    requires Enumerates(xs, s) && x !in s
    ensures Enumerates(xs + [x], s + {x})
  {}

  lemma {:induction false} EnumerationLength<T(!new)>(xs: seq<T>, s: set<T>)
    requires Enumerates(xs, s)
    ensures |xs| == |s|
  {
    if xs != [] {
      var last := xs[|xs| - 1];
      var rest := xs[..|xs| - 1];
      assert xs == rest + [last];
      EnumerationLength(rest, s - {last});
    } else {
      assert s == {};
    }
  }

  /** What an export needs of a recording row. */
  datatype Object = Object(file: string, key: string)

  /** The dictionary leads the file name of every row in `ids` to that row's own stored object. */
  ghost predicate Indexes(rows: map<string, Object>, ids: set<string>, files: map<string, string>) {
    && (forall r :: r in ids ==> r in rows && Leads(files, rows[r]))
    && (forall f :: f in files ==> exists r :: r in ids && r in rows && rows[r].file == f)
  }

  predicate Leads(files: map<string, string>, o: Object) {
    o.file in files && files[o.file] == o.key
  }

  lemma {:induction false} FilesMore(rows: map<string, Object>, seen: set<string>, files: map<string, string>,
                                     r: string)
    requires Indexes(rows, seen, files) && r in rows
    requires forall q :: q in seen ==> q in rows && rows[q].file != rows[r].file
    ensures Indexes(rows, seen + {r}, files[rows[r].file := rows[r].key])
  {
    var next := files[rows[r].file := rows[r].key];
    forall f | f in next ensures exists q :: q in seen + {r} && q in rows && rows[q].file == f {
      if f != rows[r].file {
        var q :| q in seen && q in rows && rows[q].file == f;
        assert q in seen + {r};
      } else {
        assert r in seen + {r};
      }
    }
  }

  predicate SameFile(rows: map<string, Object>, r: string, q: string) {
    r in rows && q in rows && rows[r].file == rows[q].file
  }

  ghost predicate NamesDiffer(rows: map<string, Object>, stored: set<string>) {
    forall r, q :: r in stored && q in stored && SameFile(rows, r, q) ==> r == q
  }

  lemma {:induction false} IndexMore(rows: map<string, Object>, stored: set<string>, seen: set<string>,
                                     files: map<string, string>, r: string)
    requires NamesDiffer(rows, stored) && seen <= stored && r in stored && r !in seen && r in rows
    requires Indexes(rows, seen, files)
    ensures Indexes(rows, seen + {r}, files[rows[r].file := rows[r].key])
  {
    forall q | q in seen ensures q in rows && rows[q].file != rows[r].file {
      if rows[q].file == rows[r].file { assert SameFile(rows, r, q); }
    }
    FilesMore(rows, seen, files, r);
  }

  // ---- Tier A ------------------------------------------------------------------------------

  function StoredA(db: Db, language: string): set<string> {
    set r | r in db.aRecs && Joined(db, r) && db.aRecs[r].stored && db.words[db.aRecs[r].word].language == language
  }

  /** The name a word is exported under: its gloss when it has one, else its label. */
  function ExportName(w: Word): string {
    if w.gloss.Some? && w.gloss.value != [] then w.gloss.value else w.name
  }

  function InputA(db: Db, r: string): TierAInput
    requires Joined(db, r)
  {
    var rec := db.aRecs[r];
    TierAInput(rec.file, ExportName(db.words[rec.word]), db.speakers[rec.speaker].name)
  }

  predicate Joined(db: Db, r: string) {
    r in db.aRecs && db.aRecs[r].word in db.words && db.aRecs[r].speaker in db.speakers
  }

  ghost predicate InputsOfA(db: Db, ids: seq<string>, inputs: seq<TierAInput>) {
    |inputs| == |ids| && forall i :: 0 <= i < |ids| ==> Joined(db, ids[i]) && inputs[i] == InputA(db, ids[i])
  }

  /** The inputs are those of the stored recordings, each once. */
  ghost predicate GatheredA(db: Db, language: string, ids: seq<string>, inputs: seq<TierAInput>) {
    Enumerates(ids, StoredA(db, language)) && InputsOfA(db, ids, inputs)
  }

  function ObjectsA(db: Db): map<string, Object> {
    map r | r in db.aRecs :: Object(db.aRecs[r].file, db.aRecs[r].key)
  }

  /** The stored recordings of a language, and what the planner is told of each. */
  lemma {:induction false} InputTells(db: Db, language: string, r: string)
    requires Sound(db) && r in db.aRecs
    ensures r in StoredA(db, language) <==>
      db.aRecs[r].stored && db.words[db.aRecs[r].word].language == language
    ensures var input, rec := InputA(db, r), db.aRecs[r];
      var w := db.words[rec.word];
      && input.file == rec.file && input.speaker == db.speakers[rec.speaker].name
      && input.word == if w.gloss.None? || w.gloss.value == "" then w.name else w.gloss.value
  {
    assert ASound(db.words, db.speakers, db.aRecs[r]);
  }

  lemma {:induction false} OwnObjectA(db: Db, language: string, r: string, q: string)
    requires Sound(db) && r in StoredA(db, language) && q in StoredA(db, language)
    requires db.aRecs[r].file == db.aRecs[q].file
    ensures r == q
  {
    TierAFilesDistinct(db, r, q);
  }

  lemma {:induction false} DistinctA(db: Db, language: string)
    requires Sound(db)
    ensures NamesDiffer(ObjectsA(db), StoredA(db, language))
  {
    forall r, q | r in StoredA(db, language) && q in StoredA(db, language) && db.aRecs[r].file == db.aRecs[q].file
      ensures r == q
    {
      OwnObjectA(db, language, r, q);
    }
  }

  lemma {:induction false} GatheredMoreA(db: Db, language: string, seen: set<string>, ids: seq<string>,
                                         inputs: seq<TierAInput>, r: string)
    requires Enumerates(ids, seen) && InputsOfA(db, ids, inputs) && r !in seen && r in StoredA(db, language)
    ensures Enumerates(ids + [r], seen + {r}) && InputsOfA(db, ids + [r], inputs + [InputA(db, r)])
  {
    EnumeratesMore(ids, seen, r);
  }

  method GatherA(db: Db, language: string)
    returns (inputs: seq<TierAInput>, files: map<string, string>, ghost ids: seq<string>)
    requires Sound(db)
    ensures GatheredA(db, language, ids, inputs)
    ensures Indexes(ObjectsA(db), StoredA(db, language), files)
  {
    DistinctA(db, language);
    inputs, files, ids := CollectA(db, language);
  }

  /** The loop over the stored recordings, in any order. */
  method CollectA(db: Db, language: string)
    returns (inputs: seq<TierAInput>, files: map<string, string>, ghost ids: seq<string>)
    requires NamesDiffer(ObjectsA(db), StoredA(db, language))
    ensures GatheredA(db, language, ids, inputs)
    ensures Indexes(ObjectsA(db), StoredA(db, language), files)
  {
    inputs, files, ids := [], map[], [];
    var rows := StoredA(db, language);
    ghost var seen: set<string> := {};
    while rows != {}
      invariant seen !! rows && seen + rows == StoredA(db, language)
      invariant Enumerates(ids, seen) && InputsOfA(db, ids, inputs)
      invariant Indexes(ObjectsA(db), seen, files)
    {
      var r :| r in rows;
      rows := rows - {r};
      GatheredMoreA(db, language, seen, ids, inputs, r);
      IndexMore(ObjectsA(db), StoredA(db, language), seen, files, r);
      inputs := inputs + [InputA(db, r)];
      files := files[db.aRecs[r].file := db.aRecs[r].key];
      ids, seen := ids + [r], seen + {r};
    }
    assert seen == StoredA(db, language);
  }

  // ---- Tier B ------------------------------------------------------------------------------

  function PairsOf(db: Db, language: string): set<string> {
    set p | p in db.pairs && db.pairs[p].language == language
  }

  function StoredB(db: Db, language: string): set<string> {
    set r | r in db.bRecs && db.bRecs[r].stored && db.bRecs[r].pair in PairsOf(db, language)
  }

  /** The stored recordings among `rows` of one side of a pair. */
  function Takes(db: Db, rows: set<string>, pair: string, side: Side): set<string> {
    set r | r in rows && r in db.bRecs && db.bRecs[r].pair == pair && db.bRecs[r].side == side
  }

  datatype Group = Group(a: seq<string>, b: seq<string>)

  datatype Keyed = Keyed(key: int, id: string)

  predicate KeyedLeq(x: Keyed, y: Keyed) {
    x.key < y.key || (x.key == y.key && TextLeq(x.id, y.id))
  }

  lemma {:induction false} KeyedLeqIsTotalOrder()
    ensures TotalOrder(KeyedLeq)
  {
    TextLeqIsTotalOrder();
  }

  function KeyedBy(ids: seq<string>, key: map<string, int>): seq<Keyed>
    requires forall x :: x in ids ==> x in key
  {
    seq(|ids|, i requires 0 <= i < |ids| => Keyed(key[ids[i]], ids[i]))
  }

  function IdsOf(s: seq<Keyed>): seq<string> {
    seq(|s|, i requires 0 <= i < |s| => s[i].id)
  }

  lemma {:induction false} KeyedByDistinct(ids: seq<string>, key: map<string, int>)
    requires NoDuplicates(ids) && forall x :: x in ids ==> x in key
    ensures NoDuplicates(KeyedBy(ids, key))
    ensures forall k :: k in KeyedBy(ids, key) <==> k.id in ids && k.key == key[k.id]
  {
    var keyed := KeyedBy(ids, key);
    forall k ensures k in keyed <==> k.id in ids && k.key == key[k.id] {
      if k.id in ids && k.key == key[k.id] {
        var i :| 0 <= i < |ids| && ids[i] == k.id;
        assert keyed[i] == k;
      }
    }
  }

  lemma {:induction false} SortedIds(ids: seq<string>, key: map<string, int>, s: seq<Keyed>)
    requires NoDuplicates(s) && forall x :: x in ids ==> x in key
    requires forall k :: k in s <==> k.id in ids && k.key == key[k.id]
    ensures NoDuplicates(IdsOf(s)) && forall x :: x in IdsOf(s) <==> x in ids
    ensures forall i :: 0 <= i < |s| ==> IdsOf(s)[i] in key && s[i] == Keyed(key[IdsOf(s)[i]], IdsOf(s)[i])
  {
    var sorted := IdsOf(s);
    assert forall i :: 0 <= i < |s| ==> s[i] in s;
    forall x ensures x in sorted <==> x in ids {
      if x in ids {
        var j :| 0 <= j < |s| && s[j] == Keyed(key[x], x);
        assert sorted[j] == x;
      }
      if x in sorted {
        var j :| 0 <= j < |sorted| && sorted[j] == x;
        assert s[j].id == x;
      }
    }
  }

  /** `sorted(ids, key=...)`: the same ids in increasing order of their keys. */
  method SortedByKey(ids: seq<string>, key: map<string, int>) returns (sorted: seq<string>)
    requires NoDuplicates(ids) && forall x :: x in ids ==> x in key
    ensures NoDuplicates(sorted) && forall x :: x in sorted <==> x in ids
    ensures forall i, j :: 0 <= i < j < |sorted| ==> key[sorted[i]] <= key[sorted[j]]
  {
    var keyed := KeyedBy(ids, key);
    KeyedLeqIsTotalOrder();
    KeyedByDistinct(ids, key);
    SortCorrect(KeyedLeq, keyed);
    SortMembers(KeyedLeq, keyed);
    SortKeepsDistinct(KeyedLeq, keyed);
    var s := Sort(KeyedLeq, keyed);
    SortedIds(ids, key, s);
    sorted := IdsOf(s);
    assert forall i, j :: 0 <= i < j < |sorted| ==> KeyedLeq(s[i], s[j]);
  }

  function FilesAt(db: Db, ids: seq<string>): seq<string>
    requires forall r :: r in ids ==> r in db.bRecs
  {
    seq(|ids|, i requires 0 <= i < |ids| => db.bRecs[ids[i]].file)
  }

  /** The files of one side: one for each stored take, ordered by repetition. */
  ghost predicate SideFiles(db: Db, takes: set<string>, files: seq<string>) {
    exists ids :: Enumerates(ids, takes) && (forall r :: r in ids ==> r in db.bRecs) && files == FilesAt(db, ids)
      && forall i, j :: 0 <= i < j < |ids| ==> db.bRecs[ids[i]].rep <= db.bRecs[ids[j]].rep
  }

  /** The inputs are the pairs with at least one stored recording, by number, with both sides' files. */
  ghost predicate GatheredB(db: Db, language: string, ids: seq<string>, inputs: seq<TierBInput>) {
    && NoDuplicates(ids)
    && (forall p :: p in ids <==>
         p in PairsOf(db, language) && exists r :: r in StoredB(db, language) && db.bRecs[r].pair == p)
    && InputsOfB(db, language, ids, inputs)
  }

  /** The inputs of the pairs `ids`, in order of their numbers. */
  ghost predicate InputsOfB(db: Db, language: string, ids: seq<string>, inputs: seq<TierBInput>) {
    && |inputs| == |ids|
    && (forall i :: 0 <= i < |ids| ==> InputOf(db, language, ids[i], inputs[i]))
    && (forall i, j :: 0 <= i < j < |inputs| ==> inputs[i].number <= inputs[j].number)
  }

  lemma {:induction false} InputsMoreB(db: Db, language: string, ids: seq<string>, inputs: seq<TierBInput>, p: string,
                                       input: TierBInput)
    requires InputsOfB(db, language, ids, inputs) && InputOf(db, language, p, input)
    requires forall q :: q in ids ==> q in db.pairs && db.pairs[q].number <= input.number
    ensures InputsOfB(db, language, ids + [p], inputs + [input])
  {
    var moreIds, more := ids + [p], inputs + [input];
    forall i | 0 <= i < |moreIds| ensures InputOf(db, language, moreIds[i], more[i]) {
      if i < |ids| { assert InputOf(db, language, ids[i], inputs[i]); }
    }
    forall i, j | 0 <= i < j < |more| ensures more[i].number <= more[j].number {
      assert ids[i] in ids && InputOf(db, language, ids[i], inputs[i]);
    }
  }

  ghost predicate InputOf(db: Db, language: string, pair: string, input: TierBInput) {
    && pair in db.pairs && input.number == db.pairs[pair].number
    && SideFiles(db, Takes(db, StoredB(db, language), pair, SideA), input.aFiles)
    && SideFiles(db, Takes(db, StoredB(db, language), pair, SideB), input.bFiles)
  }

  function ObjectsB(db: Db): map<string, Object> {
    map r | r in db.bRecs :: Object(db.bRecs[r].file, db.bRecs[r].key)
  }

  lemma {:induction false} OwnObjectB(db: Db, language: string, r: string, q: string)
    requires Sound(db) && r in StoredB(db, language) && q in StoredB(db, language)
    requires db.bRecs[r].file == db.bRecs[q].file
    ensures r == q
  {
    TierBFilesDistinct(db, r, q);
  }

  lemma {:induction false} DistinctB(db: Db, language: string)
    requires Sound(db)
    ensures NamesDiffer(ObjectsB(db), StoredB(db, language))
  {
    forall r, q | r in StoredB(db, language) && q in StoredB(db, language) && db.bRecs[r].file == db.bRecs[q].file
      ensures r == q
    {
      OwnObjectB(db, language, r, q);
    }
  }

  /** The recordings of `rows` sorted into groups by pair and side. */
  ghost predicate Grouped(db: Db, rows: set<string>, groups: map<string, Group>) {
    && (forall p :: p in groups <==> exists r :: r in rows && r in db.bRecs && db.bRecs[r].pair == p)
    && (forall p :: p in groups ==>
         Enumerates(groups[p].a, Takes(db, rows, p, SideA)) && Enumerates(groups[p].b, Takes(db, rows, p, SideB)))
  }

  function AddTo(db: Db, groups: map<string, Group>, r: string): map<string, Group>
    requires r in db.bRecs
  {
    var rec := db.bRecs[r];
    var g := if rec.pair in groups then groups[rec.pair] else Group([], []);
    groups[rec.pair := if rec.side == SideA then g.(a := g.a + [r]) else g.(b := g.b + [r])]
  }

  lemma {:induction false} TakesMore(db: Db, rows: set<string>, r: string, pair: string, side: Side)
    requires r in db.bRecs && r !in rows
    ensures Takes(db, rows + {r}, pair, side) ==
      if db.bRecs[r].pair == pair && db.bRecs[r].side == side then Takes(db, rows, pair, side) + {r}
      else Takes(db, rows, pair, side)
  {}

  lemma {:induction false} NoTakes(db: Db, rows: set<string>, pair: string, side: Side)
    requires forall r :: r in rows && r in db.bRecs ==> db.bRecs[r].pair != pair
    ensures Takes(db, rows, pair, side) == {}
  {}

  lemma {:induction false} GroupedMore(db: Db, rows: set<string>, groups: map<string, Group>, r: string)
    requires Grouped(db, rows, groups) && r in db.bRecs && r !in rows
    ensures Grouped(db, rows + {r}, AddTo(db, groups, r))
  {
    var next := AddTo(db, groups, r);
    forall p | p in next
      ensures Enumerates(next[p].a, Takes(db, rows + {r}, p, SideA))
        && Enumerates(next[p].b, Takes(db, rows + {r}, p, SideB))
    {
      TakesMore(db, rows, r, p, SideA);
      TakesMore(db, rows, r, p, SideB);
      if p !in groups {
        NoTakes(db, rows, p, SideA);
        NoTakes(db, rows, p, SideB);
      }
      var g := if p in groups then groups[p] else Group([], []);
      if p == db.bRecs[r].pair {
        if db.bRecs[r].side == SideA { EnumeratesMore(g.a, Takes(db, rows, p, SideA), r); }
        else { EnumeratesMore(g.b, Takes(db, rows, p, SideB), r); }
      }
    }
  }

  /** One pass over the stored recordings fills the groups and the file dictionary. */
  method GroupB(db: Db, language: string) returns (groups: map<string, Group>, files: map<string, string>)
    requires NamesDiffer(ObjectsB(db), StoredB(db, language))
    ensures Grouped(db, StoredB(db, language), groups)
    ensures Indexes(ObjectsB(db), StoredB(db, language), files)
  {
    groups, files := map[], map[];
    var rows := StoredB(db, language);
    ghost var seen: set<string> := {};
    while rows != {}
      invariant seen !! rows && seen + rows == StoredB(db, language)
      invariant Grouped(db, seen, groups)
      invariant Indexes(ObjectsB(db), seen, files)
    {
      var r :| r in rows;
      rows := rows - {r};
      GroupedMore(db, seen, groups, r);
      IndexMore(ObjectsB(db), StoredB(db, language), seen, files, r);
      groups := AddTo(db, groups, r);
      files := files[db.bRecs[r].file := db.bRecs[r].key];
      seen := seen + {r};
    }
    assert seen == StoredB(db, language);
  }

  method OrderedFiles(db: Db, ids: seq<string>, ghost takes: set<string>) returns (files: seq<string>)
    requires Enumerates(ids, takes) && forall r :: r in takes ==> r in db.bRecs
    ensures SideFiles(db, takes, files)
  {
    var sorted := SortedByKey(ids, map r | r in db.bRecs :: db.bRecs[r].rep);
    files := FilesAt(db, sorted);
    assert Enumerates(sorted, takes);
  }

  ghost predicate ByNumber(db: Db, pairs: seq<string>) {
    && (forall k :: 0 <= k < |pairs| ==> pairs[k] in db.pairs)
    && (forall j, k :: 0 <= j < k < |pairs| ==> db.pairs[pairs[j]].number <= db.pairs[pairs[k]].number)
  }

  /** The pairs of a language, ordered by number. */
  method PairsByNumber(db: Db, language: string) returns (pairs: seq<string>)
    ensures Enumerates(pairs, PairsOf(db, language))
    ensures ByNumber(db, pairs)
  {
    var all := Listed(PairsOf(db, language));
    pairs := SortedByKey(all, map p | p in db.pairs :: db.pairs[p].number);
    assert forall k :: 0 <= k < |pairs| ==> pairs[k] in PairsOf(db, language);
  }

  lemma {:induction false} EarlierNumbers(db: Db, pairs: seq<string>, i: nat, ids: seq<string>)
    requires i < |pairs| && forall p :: p in ids ==> p in pairs[..i]
    requires ByNumber(db, pairs)
    ensures forall p :: p in ids ==> p in db.pairs && db.pairs[p].number <= db.pairs[pairs[i]].number
  {
    forall p | p in ids ensures p in db.pairs && db.pairs[p].number <= db.pairs[pairs[i]].number {
      var j :| 0 <= j < i && pairs[j] == p;
    }
  }

  method GatherB(db: Db, language: string)
    returns (inputs: seq<TierBInput>, files: map<string, string>, ghost ids: seq<string>)
    requires Sound(db)
    ensures GatheredB(db, language, ids, inputs)
    ensures Indexes(ObjectsB(db), StoredB(db, language), files)
  {
    DistinctB(db, language);
    var groups;
    groups, files := GroupB(db, language);
    var pairs := PairsByNumber(db, language);
    inputs, ids := InputsInOrder(db, language, pairs, groups);
    KeepInMembers(pairs, groups.Keys);
    AllPairsSeen(db, language, groups, pairs, ids, inputs);
  }

  /** The pairs that have a group, in the given order. */
  method InputsInOrder(db: Db, language: string, pairs: seq<string>, groups: map<string, Group>)
    returns (inputs: seq<TierBInput>, ghost ids: seq<string>)
    requires Grouped(db, StoredB(db, language), groups) && ByNumber(db, pairs)
    ensures ids == KeepIn(pairs, groups.Keys) && InputsOfB(db, language, ids, inputs)
  {
    inputs, ids := [], [];
    for i := 0 to |pairs|
      invariant ids == KeepIn(pairs[..i], groups.Keys)
      invariant InputsOfB(db, language, ids, inputs)
    {
      var p := pairs[i];
      assert pairs[..i + 1] == pairs[..i] + [p];
      KeepInMore(pairs[..i], p, groups.Keys);
      if p in groups {
        var input := PairInput(db, language, p, groups);
        NextInput(db, language, pairs, i, groups.Keys, inputs, input);
        inputs := inputs + [input];
        ids := ids + [p];
      }
    }
    assert pairs[..|pairs|] == pairs;
  }

  function KeepIn(xs: seq<string>, keep: set<string>): seq<string> {
    if xs == [] then [] else (if xs[0] in keep then [xs[0]] else []) + KeepIn(xs[1..], keep)
  }

  lemma {:induction false} KeepInMore(xs: seq<string>, x: string, keep: set<string>)
    ensures KeepIn(xs + [x], keep) == if x in keep then KeepIn(xs, keep) + [x] else KeepIn(xs, keep)
  {
    if xs != [] {
      KeepInMore(xs[1..], x, keep);
      assert (xs + [x])[1..] == xs[1..] + [x];
    }
  }

  lemma {:induction false} KeepInMembers(xs: seq<string>, keep: set<string>)
    ensures forall x :: x in KeepIn(xs, keep) <==> x in xs && x in keep
    ensures NoDuplicates(xs) ==> NoDuplicates(KeepIn(xs, keep))
  {
    if xs != [] {
      KeepInMembers(xs[1..], keep);
      assert xs == [xs[0]] + xs[1..];
      if NoDuplicates(xs) {
        assert xs[0] !in xs[1..];
        assert NoDuplicates(xs[1..]);
      }
    }
  }

  lemma {:induction false} AllPairsSeen(db: Db, language: string, groups: map<string, Group>, pairs: seq<string>,
                                        ids: seq<string>, inputs: seq<TierBInput>)
    requires Grouped(db, StoredB(db, language), groups) && Enumerates(pairs, PairsOf(db, language))
    requires NoDuplicates(ids) && forall p :: p in ids <==> p in pairs && p in groups
    requires InputsOfB(db, language, ids, inputs)
    ensures GatheredB(db, language, ids, inputs)
  {}

  lemma {:induction false} GroupTakes(db: Db, language: string, groups: map<string, Group>, p: string)
    requires Grouped(db, StoredB(db, language), groups) && p in groups
    ensures Enumerates(groups[p].a, Takes(db, StoredB(db, language), p, SideA))
    ensures Enumerates(groups[p].b, Takes(db, StoredB(db, language), p, SideB))
  {}

  lemma {:induction false} NextInput(db: Db, language: string, pairs: seq<string>, i: nat, keys: set<string>,
                                     inputs: seq<TierBInput>, input: TierBInput)
    requires ByNumber(db, pairs) && i < |pairs| && InputOf(db, language, pairs[i], input)
    requires InputsOfB(db, language, KeepIn(pairs[..i], keys), inputs)
    ensures InputsOfB(db, language, KeepIn(pairs[..i], keys) + [pairs[i]], inputs + [input])
  {
    KeepInMembers(pairs[..i], keys);
    EarlierNumbers(db, pairs, i, KeepIn(pairs[..i], keys));
    InputsMoreB(db, language, KeepIn(pairs[..i], keys), inputs, pairs[i], input);
  }

  method PairInput(db: Db, language: string, p: string, groups: map<string, Group>) returns (input: TierBInput)
    requires p in db.pairs && p in groups && Grouped(db, StoredB(db, language), groups)
    ensures InputOf(db, language, p, input)
  {
    GroupTakes(db, language, groups, p);
    var a := OrderedFiles(db, groups[p].a, Takes(db, StoredB(db, language), p, SideA));
    var b := OrderedFiles(db, groups[p].b, Takes(db, StoredB(db, language), p, SideB));
    input := TierBInput(db.pairs[p].number, a, b);
  }

  /** The rows of a query, in some order. */
  method Listed(rows: set<string>) returns (xs: seq<string>)
    ensures Enumerates(xs, rows)
  {
    xs := [];
    var rest := rows;
    while rest != {}
      invariant rest <= rows && Enumerates(xs, rows - rest)
    {
      var x :| x in rest;
      EnumeratesMore(xs, rows - rest, x);
      rest := rest - {x};
      xs := xs + [x];
      assert rows - rest == (rows - (rest + {x})) + {x};
    }
  }
}
