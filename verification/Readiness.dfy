/** What the readiness counts promise about the export that follows them. */
module Readiness {
  import opened FiniteSets
  import opened TextOrder
  import opened Naming
  import opened Studio
  import opened ExportPlan
  import opened ExportPlanFacts
  import opened ExportGather
  import opened ExportBundle

  const REPS_PER_SIDE := 5

  /** The stored recordings of one word. */
  function WordTakes(db: Db, language: string, word: string): set<string> {
    set r | r in StoredA(db, language) && db.aRecs[r].word == word
  }

  function ReadyWords(db: Db, language: string): set<string> {
    set w | w in WordsOf(db, language) && |WordTakes(db, language, w)| >= MIN_INSTANCES_PER_WORD
  }

  function ReadyPairs(db: Db, language: string): set<string> {
    set p | p in PairsOf(db, language)
      && |Takes(db, StoredB(db, language), p, SideA)| >= REPS_PER_SIDE
      && |Takes(db, StoredB(db, language), p, SideB)| >= REPS_PER_SIDE
  }

  // ---- Tier A ------------------------------------------------------------------------------

  /** The stored recordings that are exported under a name. */
  function NamedTakes(db: Db, language: string, name: string): set<string> {
    set r | r in StoredA(db, language) && InputA(db, r).word == name
  }

  function NamedAmong(db: Db, ids: seq<string>, name: string): set<string>
    requires forall r :: r in ids ==> Joined(db, r)
  {
    set r | r in ids && InputA(db, r).word == name
  }

  lemma {:induction false} InstancesCount(db: Db, ids: seq<string>, inputs: seq<TierAInput>, name: string)
    requires NoDuplicates(ids) && InputsOfA(db, ids, inputs)
    requires forall r :: r in ids ==> Joined(db, r)
    ensures Instances(inputs, name) == |NamedAmong(db, ids, name)|
  {
    if ids != [] {
      var rest := ids[1..];
      assert ids == [ids[0]] + rest;
      forall i | 0 <= i < |rest| ensures Joined(db, rest[i]) && inputs[1..][i] == InputA(db, rest[i]) {
        assert rest[i] == ids[i + 1];
      }
      assert NoDuplicates(rest) by {
        forall i, j | 0 <= i < j < |rest| ensures rest[i] != rest[j] { assert ids[i + 1] != ids[j + 1]; }
      }
      assert ids[0] !in rest;
      InstancesCount(db, rest, inputs[1..], name);
      if inputs[0].word == name {
        assert NamedAmong(db, ids, name) == NamedAmong(db, rest, name) + {ids[0]};
      } else {
        assert NamedAmong(db, ids, name) == NamedAmong(db, rest, name);
      }
    }
  }

  /** An exported name has as many rows' worth of recordings as are stored under it. */
  lemma {:induction false} GatheredInstances(db: Db, language: string, ids: seq<string>, inputs: seq<TierAInput>,
                                             name: string)
    requires GatheredA(db, language, ids, inputs)
    ensures Instances(inputs, name) == |NamedTakes(db, language, name)|
  {
    InstancesCount(db, ids, inputs, name);
    assert NamedAmong(db, ids, name) == NamedTakes(db, language, name);
  }

  /**
    Every stored recording of a word that the readiness count calls ready becomes a row, although
    readiness counts by word and the plan by exported name.
  */
  lemma {:induction false} ReadyWordIsExported(db: Db, language: string, ids: seq<string>, inputs: seq<TierAInput>,
                                               r: string)
    requires GatheredA(db, language, ids, inputs)
    requires r in StoredA(db, language) && db.aRecs[r].word in ReadyWords(db, language)
    ensures InputA(db, r) in PlanTierA(inputs).rows
  {
    var word := db.aRecs[r].word;
    var name := InputA(db, r).word;
    GatheredInstances(db, language, ids, inputs, name);
    assert WordTakes(db, language, word) <= NamedTakes(db, language, name);
    SubsetSize(WordTakes(db, language, word), NamedTakes(db, language, name));
    TierARows(inputs);
    assert r in ids;
    var i :| 0 <= i < |ids| && ids[i] == r;
    assert inputs[i] in inputs;
  }

  // ---- Tier B ------------------------------------------------------------------------------

  lemma {:induction false} FilesDistinct(db: Db, language: string, ids: seq<string>)
    requires Sound(db) && NoDuplicates(ids) && forall r :: r in ids ==> r in db.bRecs && r in StoredB(db, language)
    ensures NoDuplicates(FilesAt(db, ids))
  {
    forall i, j | 0 <= i < j < |ids| ensures db.bRecs[ids[i]].file != db.bRecs[ids[j]].file {
      assert ids[i] in ids && ids[j] in ids;
      if db.bRecs[ids[i]].file == db.bRecs[ids[j]].file { OwnObjectB(db, language, ids[i], ids[j]); }
    }
  }

  lemma {:induction false} SideFilesDistinct(db: Db, language: string, pair: string, side: Side, files: seq<string>)
    requires Sound(db) && SideFiles(db, Takes(db, StoredB(db, language), pair, side), files)
    ensures NoDuplicates(files) && |files| == |Takes(db, StoredB(db, language), pair, side)|
    ensures forall f :: f in files ==>
      exists r :: r in Takes(db, StoredB(db, language), pair, side) && db.bRecs[r].file == f
  {
    var takes := Takes(db, StoredB(db, language), pair, side);
    var ids :| Enumerates(ids, takes) && (forall r :: r in ids ==> r in db.bRecs) && files == FilesAt(db, ids);
    EnumerationLength(ids, takes);
    FilesDistinct(db, language, ids);
    FilesOfTakes(db, ids, takes);
  }

  lemma {:induction false} FilesOfTakes(db: Db, ids: seq<string>, takes: set<string>)
    requires (forall r :: r in ids ==> r in db.bRecs) && forall r :: r in ids ==> r in takes
    ensures forall f :: f in FilesAt(db, ids) ==> exists r :: r in takes && r in db.bRecs && db.bRecs[r].file == f
  {
    var files := FilesAt(db, ids);
    forall f | f in files ensures exists r :: r in takes && r in db.bRecs && db.bRecs[r].file == f {
      var i :| 0 <= i < |files| && files[i] == f;
      assert ids[i] in ids;
    }
  }

  /** A file of an input belongs to a stored recording of that pair and side. */
  ghost predicate FromSide(db: Db, language: string, f: string, pair: string, side: Side) {
    exists r :: r in Takes(db, StoredB(db, language), pair, side) && db.bRecs[r].file == f
  }

  lemma {:induction false} OneSideOnly(db: Db, language: string, f: string, p: string, side: Side, p': string,
                                       side': Side)
    requires Sound(db) && FromSide(db, language, f, p, side) && FromSide(db, language, f, p', side')
    ensures p == p' && side == side'
  {
    var r :| r in Takes(db, StoredB(db, language), p, side) && db.bRecs[r].file == f;
    var q :| q in Takes(db, StoredB(db, language), p', side') && db.bRecs[q].file == f;
    OwnObjectB(db, language, r, q);
  }

  lemma {:induction false} InputSides(db: Db, language: string, pair: string, input: TierBInput)
    requires Sound(db) && InputOf(db, language, pair, input)
    ensures DistinctSides(input)
    ensures forall f :: f in input.aFiles ==> FromSide(db, language, f, pair, SideA)
    ensures forall f :: f in input.bFiles ==> FromSide(db, language, f, pair, SideB)
  {
    SideFilesDistinct(db, language, pair, SideA, input.aFiles);
    SideFilesDistinct(db, language, pair, SideB, input.bFiles);
    forall f | f in input.aFiles ensures f !in input.bFiles {
      if f in input.bFiles { OneSideOnly(db, language, f, pair, SideA, pair, SideB); }
    }
  }

  /** The gathered inputs name every file once, so the planned rows never repeat. */
  lemma {:induction false} GatheredFilesDistinct(db: Db, language: string, ids: seq<string>, inputs: seq<TierBInput>)
    requires Sound(db) && GatheredB(db, language, ids, inputs)
    ensures DistinctFiles(inputs)
  {
    forall i | 0 <= i < |inputs| ensures DistinctSides(inputs[i]) { InputSides(db, language, ids[i], inputs[i]); }
    forall i, j | 0 <= i < j < |inputs| ensures FilesOf(inputs[i]) !! FilesOf(inputs[j]) {
      InputSides(db, language, ids[i], inputs[i]);
      InputSides(db, language, ids[j], inputs[j]);
      forall f | f in FilesOf(inputs[i]) ensures f !in FilesOf(inputs[j]) {
        if f in FilesOf(inputs[j]) {
          var side := if f in inputs[i].aFiles then SideA else SideB;
          var side' := if f in inputs[j].aFiles then SideA else SideB;
          OneSideOnly(db, language, f, ids[i], side, ids[j], side');
        }
      }
    }
  }

  /** Every export's Tier B rows are balanced, sound and free of repetition. */
  lemma {:induction false} ExportedRows(db: Db, language: string, ids: seq<string>, inputs: seq<TierBInput>,
                                        plan: TierBPlan)
    requires Sound(db) && GatheredB(db, language, ids, inputs) && PlannedFrom(inputs, plan)
    ensures |plan.rows| == 2 * Balance(inputs) && NoDuplicates(plan.rows)
    ensures forall i :: 0 <= i < Balance(inputs) ==>
      SameFrom(plan.rows[2 * i], inputs) && plan.rows[2 * i].fileA != plan.rows[2 * i].fileB
        && DiffFrom(plan.rows[2 * i + 1], inputs)
  {
    GatheredFilesDistinct(db, language, ids, inputs);
    PlanSound(inputs, plan.rows);
  }

  /** A ready pair is among the gathered ones, with enough files on both sides. */
  lemma {:induction false} ReadyPairIsGathered(db: Db, language: string, ids: seq<string>, inputs: seq<TierBInput>,
                                               p: string)
    requires Sound(db) && GatheredB(db, language, ids, inputs) && p in ReadyPairs(db, language)
    ensures p in ids
  {
    var r :| r in Takes(db, StoredB(db, language), p, SideA);
  }

  lemma {:induction false} ReadyInputIsCollected(db: Db, language: string, p: string, input: TierBInput)
    requires Sound(db) && InputOf(db, language, p, input) && p in ReadyPairs(db, language)
    ensures Collected(input)
  {
    SideFilesDistinct(db, language, p, SideA, input.aFiles);
    SideFilesDistinct(db, language, p, SideB, input.bFiles);
  }

  /** When the counts say that every pair is ready, each pair gets its four rows. */
  lemma {:induction false} AllPairsReady(db: Db, language: string, ids: seq<string>, inputs: seq<TierBInput>,
                                         plan: TierBPlan)
    requires Sound(db) && GatheredB(db, language, ids, inputs) && PlannedFrom(inputs, plan)
    requires |ReadyPairs(db, language)| == |PairsOf(db, language)|
    ensures Enumerates(ids, PairsOf(db, language))
    ensures FullPlan(inputs, plan.rows) && |plan.rows| == 4 * |PairsOf(db, language)|
  {
    SameSizeSubset(ReadyPairs(db, language), PairsOf(db, language));
    AllGathered(db, language, ids, inputs);
    AllCollected(db, language, ids, inputs);
    CollectedPlan(inputs, plan.rows);
  }

  lemma {:induction false} AllGathered(db: Db, language: string, ids: seq<string>, inputs: seq<TierBInput>)
    requires Sound(db) && GatheredB(db, language, ids, inputs)
    requires ReadyPairs(db, language) == PairsOf(db, language)
    ensures Enumerates(ids, PairsOf(db, language)) && |inputs| == |PairsOf(db, language)|
  {
    forall p | p in PairsOf(db, language) ensures p in ids { ReadyPairIsGathered(db, language, ids, inputs, p); }
    EnumerationLength(ids, PairsOf(db, language));
  }

  lemma {:induction false} AllCollected(db: Db, language: string, ids: seq<string>, inputs: seq<TierBInput>)
    requires Sound(db) && GatheredB(db, language, ids, inputs)
    requires ReadyPairs(db, language) == PairsOf(db, language)
    ensures forall p :: p in inputs ==> Collected(p)
  {
    forall i | 0 <= i < |inputs| ensures Collected(inputs[i]) {
      assert ids[i] in ids;
      ReadyInputIsCollected(db, language, ids[i], inputs[i]);
    }
  }

  // ---- The counts themselves ---------------------------------------------------------------

  /** The stored recordings of a word. */
  function StoredWord(db: Db, word: string): set<string> {
    set r | r in db.aRecs && db.aRecs[r].stored && db.aRecs[r].word == word
  }

  /** The stored recordings of one side of a pair. */
  function StoredSide(db: Db, pair: string, side: Side): set<string> {
    set r | r in db.bRecs && db.bRecs[r].stored && db.bRecs[r].pair == pair && db.bRecs[r].side == side
  }

  lemma {:induction false} WordTakesAre(db: Db, language: string, word: string)
    requires Sound(db) && word in WordsOf(db, language)
    ensures WordTakes(db, language, word) == StoredWord(db, word)
  {
    forall r ensures r in WordTakes(db, language, word) <==> r in StoredWord(db, word) {
      if r in StoredWord(db, word) { InputTells(db, language, r); }
    }
  }

  lemma {:induction false} SideTakesAre(db: Db, language: string, pair: string, side: Side)
    requires pair in PairsOf(db, language)
    ensures Takes(db, StoredB(db, language), pair, side) == StoredSide(db, pair, side)
  {}

  /** A word is ready with five stored recordings. */
  lemma {:induction false} ReadyWordTells(db: Db, language: string, word: string)
    requires Sound(db)
    ensures word in ReadyWords(db, language) <==>
      word in db.words && db.words[word].language == language && |StoredWord(db, word)| >= 5
  {
    if word in WordsOf(db, language) { WordTakesAre(db, language, word); }
  }

  /** A pair is ready with five stored recordings on either side. */
  lemma {:induction false} ReadyPairTells(db: Db, language: string, pair: string)
    ensures pair in ReadyPairs(db, language) <==>
      && pair in db.pairs && db.pairs[pair].language == language
      && |StoredSide(db, pair, SideA)| >= 5 && |StoredSide(db, pair, SideB)| >= 5
  {
    if pair in PairsOf(db, language) {
      SideTakesAre(db, language, pair, SideA);
      SideTakesAre(db, language, pair, SideB);
    }
  }
}
