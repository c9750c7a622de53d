/** What every state of the Annotation Studio keeps, and what the id allocation finds. */
module StudioFacts {
  import opened FiniteSets
  import opened Options
  import opened Naming
  import opened Studio

  // ---- Allocation --------------------------------------------------------------------------

  /** The allocation finds the least free number of its range, or every number of it is taken. */
  lemma {:induction false} FirstFreeIsLeast(name: nat -> string, taken: set<string>, n: nat, stop: nat)
    ensures var r := FirstFree(name, taken, n, stop);
      match r
      case Some(k) => n <= k < stop && name(k) !in taken && forall j :: n <= j < k ==> name(j) in taken
      case None => forall j :: n <= j < stop ==> name(j) in taken
    decreases stop - n
  {
    if n < stop && name(n) in taken {
      FirstFreeIsLeast(name, taken, n + 1, stop);
    }
  }

  /** The labels of a run of numbers. */
  function Names(name: nat -> string, n: nat, count: nat): set<string> {
    set j | n <= j < n + count :: name(j)
  }

  lemma {:induction false} NamesCount(name: nat -> string, n: nat, count: nat)
    requires forall i: nat, j: nat :: name(i) == name(j) ==> i == j
    ensures |Names(name, n, count)| == count
  {
    if count > 0 {
      NamesCount(name, n, count - 1);
      assert Names(name, n, count) == Names(name, n, count - 1) + {name(n + count - 1)};
    } else {
      assert Names(name, n, 0) == {};
    }
  }

  /** With fewer labels taken than attempts allowed, the allocation cannot fail. */
  lemma {:induction false} AllocationSucceeds(name: nat -> string, taken: set<string>, n: nat, attempts: nat)
    requires forall i: nat, j: nat :: name(i) == name(j) ==> i == j
    requires |taken| < attempts
    ensures FirstFree(name, taken, n, n + attempts).Some?
  {
    FirstFreeIsLeast(name, taken, n, n + attempts);
    NamesCount(name, n, attempts);
    if FirstFree(name, taken, n, n + attempts).None? {
      assert Names(name, n, attempts) <= taken;
      SubsetSize(Names(name, n, attempts), taken);
    }
  }

  lemma {:induction false} LabelsAtMostRows(db: Db, language: string)
    ensures |WordLabels(db, language)| <= |WordsOf(db, language)|
    ensures |SpeakerLabels(db, language)| <= |SpeakersOf(db, language)|
  {
    ImageSize(WordsOf(db, language), x requires x in db.words => db.words[x].name);
    ImageSize(SpeakersOf(db, language), x requires x in db.speakers => db.speakers[x].name);
    assert WordLabels(db, language) == Image(WordsOf(db, language), x requires x in db.words => db.words[x].name);
    assert SpeakerLabels(db, language) ==
      Image(SpeakersOf(db, language), x requires x in db.speakers => db.speakers[x].name);
  }

  ghost function Image<T, U>(s: set<T>, f: T --> U): set<U>
    requires forall x :: x in s ==> f.requires(x)
  {
    set x | x in s :: f(x)
  }

  lemma {:induction false} ImageSize<T, U>(s: set<T>, f: T --> U)
    requires forall x :: x in s ==> f.requires(x)
    ensures |Image(s, f)| <= |s|
    decreases |s|
  {
    if s != {} {
      var x :| x in s;
      var rest := s - {x};
      ImageSize(rest, f);
      assert Image(s, f) == Image(rest, f) + {f(x)};
    }
  }

  lemma {:induction false} AutoLabelsDistinct()
    ensures forall i: nat, j: nat :: WordLabel(i) == WordLabel(j) ==> i == j
    ensures forall i: nat, j: nat :: SpeakerLabel(i) == SpeakerLabel(j) ==> i == j
  {
    forall i: nat, j: nat
      ensures WordLabel(i) == WordLabel(j) ==> i == j
      ensures SpeakerLabel(i) == SpeakerLabel(j) ==> i == j
    {
      AutoLabelsInjective(i, j);
    }
  }

  /** Creating a word succeeds while the language has fewer than fifty. */
  lemma {:induction false} FewWordsAllocate(db: Db, id: string, language: string, gloss: Option<string>)
    requires language in db.languages && id !in db.words && |WordsOf(db, language)| < ATTEMPTS
    ensures ReplyCreateWord(db, id, language, gloss).Ok?
  {
    LabelsAtMostRows(db, language);
    AutoLabelsDistinct();
    AllocationSucceeds(WordLabel, WordLabels(db, language), |WordsOf(db, language)| + 1, ATTEMPTS);
  }

  /** Creating an unnamed speaker succeeds while the language has fewer than fifty. */
  lemma {:induction false} FewSpeakersAllocate(db: Db, id: string, language: string)
    requires language in db.languages && id !in db.speakers && |SpeakersOf(db, language)| < ATTEMPTS
    ensures ReplyCreateSpeaker(db, id, language, None).Ok?
  {
    LabelsAtMostRows(db, language);
    AutoLabelsDistinct();
    AllocationSucceeds(SpeakerLabel, SpeakerLabels(db, language), |SpeakersOf(db, language)| + 1, ATTEMPTS);
  }

  // ---- The invariant -----------------------------------------------------------------------

  /** Some of the recordings are sound when all are. */
  lemma {:induction false} FewerARecs(db: Db, some: map<string, ARecording>)
    requires Sound(db) && forall r :: r in some ==> r in db.aRecs && some[r] == db.aRecs[r]
    ensures ARecsSound(db.words, db.speakers, some) && AKeysSound(db.languages, db.words, some)
  {}

  lemma {:induction false} FewerBRecs(db: Db, some: map<string, BRecording>)
    requires Sound(db) && forall r :: r in some ==> r in db.bRecs && some[r] == db.bRecs[r]
    ensures BRecsSound(db.pairs, some) && BKeysSound(db.languages, db.pairs, some)
  {}

  /** More words and speakers, and other glosses, do not disturb a recording. */
  lemma {:induction false} StillSound(words: map<string, Word>, moreWords: map<string, Word>,
                                      speakers: map<string, Speaker>, moreSpeakers: map<string, Speaker>,
                                      r: ARecording)
    requires ASound(words, speakers, r)
    requires forall x :: x in words ==> x in moreWords && SameName(moreWords[x], words[x])
    requires forall x :: x in speakers ==> x in moreSpeakers && moreSpeakers[x] == speakers[x]
    ensures ASound(moreWords, moreSpeakers, r)
  {}

  /** Replacing words and speakers keeps the tables sound when the recordings do not notice. */
  lemma {:induction false} Replaced(db: Db, words: map<string, Word>, speakers: map<string, Speaker>)
    requires Sound(db) && WordsSound(words) && SpeakersSound(speakers)
    requires forall x :: x in db.words ==> x in words && SameName(words[x], db.words[x])
    requires forall x :: x in db.speakers ==> x in speakers && speakers[x] == db.speakers[x]
    ensures Sound(db.(words := words, speakers := speakers))
  {
    forall r | r in db.aRecs
      ensures ASound(words, speakers, db.aRecs[r]) && AKeySound(db.languages, words, r, db.aRecs[r])
    {
      StillSound(db.words, words, db.speakers, speakers, db.aRecs[r]);
      assert AKeySound(db.languages, db.words, r, db.aRecs[r]);
    }
  }

  lemma {:induction false} AddWord(db: Db, id: string, w: Word)
    requires Sound(db) && id !in db.words && ValidLabel(w.name)
    requires forall x :: x in db.words ==> !SameName(db.words[x], w)
    ensures Sound(db.(words := db.words[id := w]))
  {
    Replaced(db, db.words[id := w], db.speakers);
  }

  lemma {:induction false} AddSpeaker(db: Db, id: string, s: Speaker)
    requires Sound(db) && id !in db.speakers && ValidLabel(s.name)
    requires forall x :: x in db.speakers ==> db.speakers[x] != s
    ensures Sound(db.(speakers := db.speakers[id := s]))
  {
    Replaced(db, db.words, db.speakers[id := s]);
  }

  lemma {:induction false} FreshWord(db: Db, language: string, name: string, gloss: Option<string>)
    requires name !in WordLabels(db, language)
    ensures forall x :: x in db.words ==> !SameName(db.words[x], Word(language, name, gloss))
  {
    forall x | x in db.words && db.words[x].language == language ensures db.words[x].name in WordLabels(db, language) {
      assert x in WordsOf(db, language);
    }
  }

  lemma {:induction false} FreshSpeaker(db: Db, language: string, name: string)
    requires name !in SpeakerLabels(db, language)
    ensures forall x :: x in db.speakers ==> db.speakers[x] != Speaker(language, name)
  {
    forall x | x in db.speakers && db.speakers[x].language == language
      ensures db.speakers[x].name in SpeakerLabels(db, language)
    {
      assert x in SpeakersOf(db, language);
    }
  }

  lemma {:induction false} CreateWordIsSound(db: Db, id: string, language: string, gloss: Option<string>)
    ensures Sound(db) ==> Sound(Left(db, ReplyCreateWord(db, id, language, gloss)))
  {
    if Sound(db) && ReplyCreateWord(db, id, language, gloss).Ok? {
      var count := |WordsOf(db, language)|;
      var n := FirstFree(WordLabel, WordLabels(db, language), count + 1, count + 1 + ATTEMPTS).value;
      FirstFreeIsLeast(WordLabel, WordLabels(db, language), count + 1, count + 1 + ATTEMPTS);
      AutoLabelsValid(n);
      FreshWord(db, language, WordLabel(n), CleanGloss(gloss));
      AddWord(db, id, Word(language, WordLabel(n), CleanGloss(gloss)));
    }
  }

  lemma {:induction false} CreateSpeakerIsSound(db: Db, id: string, language: string, name: Option<string>)
    ensures Sound(db) ==> Sound(Left(db, ReplyCreateSpeaker(db, id, language, name)))
  {
    if Sound(db) && ReplyCreateSpeaker(db, id, language, name).Ok? {
      if name.Some? && name.value != [] {
        FreshSpeaker(db, language, name.value);
        AddSpeaker(db, id, Speaker(language, name.value));
      } else {
        var count := |SpeakersOf(db, language)|;
        var n := FirstFree(SpeakerLabel, SpeakerLabels(db, language), count + 1, count + 1 + ATTEMPTS).value;
        FirstFreeIsLeast(SpeakerLabel, SpeakerLabels(db, language), count + 1, count + 1 + ATTEMPTS);
        AutoLabelsValid(n);
        FreshSpeaker(db, language, SpeakerLabel(n));
        AddSpeaker(db, id, Speaker(language, SpeakerLabel(n)));
      }
    }
  }

  lemma {:induction false} SomeWords(words: map<string, Word>, some: map<string, Word>)
    requires WordsSound(words)
    requires forall x :: x in some ==> x in words && some[x] == words[x]
    ensures WordsSound(some)
  {}

  lemma {:induction false} DeleteWordIsSound(db: Db, id: string)
    ensures Sound(db) ==> Sound(Left(db, ReplyDeleteWord(db, id)))
  {
    if Sound(db) && ReplyDeleteWord(db, id).Ok? {
      var next := ReplyDeleteWord(db, id).db;
      SomeWords(db.words, next.words);
      forall r | r in next.aRecs
        ensures ASound(next.words, next.speakers, next.aRecs[r])
        ensures AKeySound(next.languages, next.words, r, next.aRecs[r])
      {
        assert ASound(db.words, db.speakers, db.aRecs[r]) && AKeySound(db.languages, db.words, r, db.aRecs[r]);
      }
    }
  }

  lemma {:induction false} SomeSpeakers(speakers: map<string, Speaker>, some: map<string, Speaker>)
    requires SpeakersSound(speakers)
    requires forall x :: x in some ==> x in speakers && some[x] == speakers[x]
    ensures SpeakersSound(some)
  {}

  lemma {:induction false} DeleteSpeakerIsSound(db: Db, id: string)
    ensures Sound(db) ==> Sound(Left(db, ReplyDeleteSpeaker(db, id)))
  {
    if Sound(db) && ReplyDeleteSpeaker(db, id).Ok? {
      var next := ReplyDeleteSpeaker(db, id).db;
      SomeSpeakers(db.speakers, next.speakers);
      forall r | r in next.aRecs
        ensures ASound(next.words, next.speakers, next.aRecs[r])
        ensures AKeySound(next.languages, next.words, r, next.aRecs[r])
      {
        assert ASound(db.words, db.speakers, db.aRecs[r]) && AKeySound(db.languages, db.words, r, db.aRecs[r]);
      }
    }
  }

  lemma {:induction false} DeletePairIsSound(db: Db, id: string)
    ensures Sound(db) ==> Sound(Left(db, ReplyDeletePair(db, id)))
  {
    if Sound(db) && ReplyDeletePair(db, id).Ok? {
      var next := ReplyDeletePair(db, id).db;
      assert PairsSound(next.pairs);
      forall r | r in next.bRecs
        ensures BSound(next.pairs, next.bRecs[r]) && BKeySound(next.languages, next.pairs, r, next.bRecs[r])
      {
        assert BSound(db.pairs, db.bRecs[r]) && BKeySound(db.languages, db.pairs, r, db.bRecs[r]);
      }
    }
  }

  lemma {:induction false} CreatePairIsSound(db: Db, id: string, language: string, number: int)
    ensures Sound(db) ==> Sound(Left(db, ReplyCreatePair(db, id, language, number)))
  {
    if Sound(db) && ReplyCreatePair(db, id, language, number).Ok? {
      var next := ReplyCreatePair(db, id, language, number).db;
      assert PairsSound(next.pairs);
      forall r | r in next.bRecs
        ensures BSound(next.pairs, next.bRecs[r]) && BKeySound(next.languages, next.pairs, r, next.bRecs[r])
      {
        assert BSound(db.pairs, db.bRecs[r]) && BKeySound(db.languages, db.pairs, r, db.bRecs[r]);
      }
    }
  }

  lemma {:induction false} MoreARecs(words: map<string, Word>, speakers: map<string, Speaker>,
                                     recs: map<string, ARecording>, id: string, r: ARecording)
    requires ARecsSound(words, speakers, recs) && ASound(words, speakers, r)
    requires forall q :: q in recs && q != id ==> !ARepeats(recs[q], r)
    ensures ARecsSound(words, speakers, recs[id := r])
  {
    var next := recs[id := r];
    forall x, y | x in next && y in next && ARepeats(next[x], next[y]) ensures x == y {
      if x != id && y != id { assert ARepeats(recs[x], recs[y]); }
      if x == id && y != id { assert ARepeats(recs[y], r); }
    }
  }

  lemma {:induction false} MoreBRecs(pairs: map<string, Pair>, recs: map<string, BRecording>, id: string,
                                     r: BRecording)
    requires BRecsSound(pairs, recs) && BSound(pairs, r)
    requires forall q :: q in recs && q != id ==> !BRepeats(recs[q], r)
    ensures BRecsSound(pairs, recs[id := r])
  {
    var next := recs[id := r];
    forall x, y | x in next && y in next && BRepeats(next[x], next[y]) ensures x == y {
      if x != id && y != id { assert BRepeats(recs[x], recs[y]); }
      if x == id && y != id { assert BRepeats(recs[y], r); }
    }
  }

  /** Storing a recording row keeps the tables sound if it is in order and repeats no other row. */
  lemma {:induction false} PutA(db: Db, id: string, r: ARecording)
    requires Sound(db) && ASound(db.words, db.speakers, r) && AKeySound(db.languages, db.words, id, r)
    requires forall q :: q in db.aRecs && q != id ==> !ARepeats(db.aRecs[q], r)
    ensures Sound(db.(aRecs := db.aRecs[id := r]))
  {
    MoreARecs(db.words, db.speakers, db.aRecs, id, r);
  }

  lemma {:induction false} PutB(db: Db, id: string, r: BRecording)
    requires Sound(db) && BSound(db.pairs, r) && BKeySound(db.languages, db.pairs, id, r)
    requires forall q :: q in db.bRecs && q != id ==> !BRepeats(db.bRecs[q], r)
    ensures Sound(db.(bRecs := db.bRecs[id := r]))
  {
    MoreBRecs(db.pairs, db.bRecs, id, r);
  }

  lemma {:induction false} UpdateWordIsSound(db: Db, id: string, gloss: Option<string>)
    ensures Sound(db) ==> Sound(Left(db, ReplyUpdateWord(db, id, gloss)))
  {
    if Sound(db) && ReplyUpdateWord(db, id, gloss).Ok? {
      var words := ReplyUpdateWord(db, id, gloss).db.words;
      GlossOnly(db.words, words);
      Replaced(db, words, db.speakers);
    }
  }

  lemma {:induction false} GlossOnly(words: map<string, Word>, after: map<string, Word>)
    requires WordsSound(words) && after.Keys == words.Keys
    requires forall x :: x in words ==> SameName(after[x], words[x])
    ensures WordsSound(after)
  {
    forall x, y | x in after && y in after && SameName(after[x], after[y]) ensures x == y {
      assert SameName(words[x], words[y]);
    }
  }

  lemma {:induction false} CreateAIsSound(db: Db, id: string, word: string, speaker: string, rep: int, format: string)
    ensures Sound(db) ==> Sound(Left(db, ReplyCreateA(db, id, word, speaker, rep, format)))
  {
    if Sound(db) && ReplyCreateA(db, id, word, speaker, rep, format).Ok? {
      var w, s := db.words[word], db.speakers[speaker];
      var key := RawKey(db.languages[w.language], TierA, id, format);
      assert HasKey(db.languages[w.language], TierA, id, key);
      PutA(db, id, ARecording(word, speaker, rep, key, TierAFile(w.name, s.name, rep), false));
    }
  }

  lemma {:induction false} CreateBIsSound(db: Db, id: string, pair: string, side: Side, rep: int, format: string)
    ensures Sound(db) ==> Sound(Left(db, ReplyCreateB(db, id, pair, side, rep, format)))
  {
    if Sound(db) && ReplyCreateB(db, id, pair, side, rep, format).Ok? {
      var p := db.pairs[pair];
      var key := RawKey(db.languages[p.language], TierB, id, format);
      assert HasKey(db.languages[p.language], TierB, id, key);
      PutB(db, id, BRecording(pair, side, rep, key, TierBFile(p.number, side, rep), false));
    }
  }

  lemma {:induction false} CompleteAIsSound(db: Db, id: string, oversized: bool)
    ensures Sound(db) ==> Sound(Left(db, ReplyCompleteA(db, id, oversized)))
  {
    if Sound(db) && ReplyCompleteA(db, id, oversized).Ok? {
      assert AKeySound(db.languages, db.words, id, db.aRecs[id]);
      PutA(db, id, db.aRecs[id].(stored := true));
    }
  }

  lemma {:induction false} DeleteAIsSound(db: Db, id: string)
    ensures Sound(db) ==> Sound(Left(db, ReplyDeleteA(db, id)))
  {
    if Sound(db) && ReplyDeleteA(db, id).Ok? {
      FewerARecs(db, db.aRecs - {id});
    }
  }

  lemma {:induction false} CompleteBIsSound(db: Db, id: string, oversized: bool)
    ensures Sound(db) ==> Sound(Left(db, ReplyCompleteB(db, id, oversized)))
  {
    if Sound(db) && ReplyCompleteB(db, id, oversized).Ok? {
      assert BKeySound(db.languages, db.pairs, id, db.bRecs[id]);
      PutB(db, id, db.bRecs[id].(stored := true));
    }
  }

  lemma {:induction false} DeleteBIsSound(db: Db, id: string)
    ensures Sound(db) ==> Sound(Left(db, ReplyDeleteB(db, id)))
  {
    if Sound(db) && ReplyDeleteB(db, id).Ok? {
      FewerBRecs(db, db.bRecs - {id});
    }
  }

  /** The calls on words, speakers and pairs. */
  predicate OnCatalogue(op: Op) {
    || op.CreateWord? || op.UpdateWord? || op.DeleteWord? || op.CreateSpeaker? || op.DeleteSpeaker?
    || op.CreatePair? || op.DeletePair?
  }

  lemma {:induction false} CatalogueIsSound(db: Db, op: Op)
    requires Sound(db) && OnCatalogue(op)
    ensures Sound(Left(db, ReplyTo(db, op)))
  {
    match op
    case CreateWord(id, language, gloss) => CreateWordIsSound(db, id, language, gloss);
    case CreateSpeaker(id, language, name) => CreateSpeakerIsSound(db, id, language, name);
    case UpdateWord(id, gloss) => UpdateWordIsSound(db, id, gloss);
    case DeleteWord(id) => DeleteWordIsSound(db, id);
    case DeleteSpeaker(id) => DeleteSpeakerIsSound(db, id);
    case CreatePair(id, language, number) => CreatePairIsSound(db, id, language, number);
    case DeletePair(id) => DeletePairIsSound(db, id);
  }

  lemma {:induction false} RecordingsIsSound(db: Db, op: Op)
    requires Sound(db) && !OnCatalogue(op)
    ensures Sound(Left(db, ReplyTo(db, op)))
  {
    match op
    case CreateA(id, word, speaker, rep, format) => CreateAIsSound(db, id, word, speaker, rep, format);
    case CompleteA(id, oversized) => CompleteAIsSound(db, id, oversized);
    case DeleteA(id) => DeleteAIsSound(db, id);
    case CreateB(id, pair, side, rep, format) => CreateBIsSound(db, id, pair, side, rep, format);
    case CompleteB(id, oversized) => CompleteBIsSound(db, id, oversized);
    case DeleteB(id) => DeleteBIsSound(db, id);
  }

  /** Every call keeps the tables sound. */
  lemma {:induction false} StepIsSound(db: Db, op: Op)
    requires Sound(db)
    ensures Sound(Left(db, ReplyTo(db, op)))
  {
    if OnCatalogue(op) { CatalogueIsSound(db, op); } else { RecordingsIsSound(db, op); }
  }

  lemma {:induction false} RunIsSound(db: Db, ops: seq<Op>)
    requires Sound(db)
    ensures Sound(After(db, ops))
    decreases |ops|
  {
    if ops != [] {
      StepIsSound(db, ops[0]);
      RunIsSound(Left(db, ReplyTo(db, ops[0])), ops[1..]);
    }
  }

  /** In every state reachable from empty tables the invariant holds. */
  lemma {:induction false} ReachableIsSound(languages: map<string, string>, ops: seq<Op>)
    ensures Sound(After(Empty(languages), ops))
  {
    RunIsSound(Empty(languages), ops);
  }

  // ---- File names --------------------------------------------------------------------------

  /** Two live Tier A recordings of one language never share an export file name. */
  lemma {:induction false} TierAFilesDistinct(db: Db, r: string, q: string)
    requires Sound(db) && r in db.aRecs && q in db.aRecs
    requires db.words[db.aRecs[r].word].language == db.words[db.aRecs[q].word].language
    requires db.aRecs[r].file == db.aRecs[q].file
    ensures r == q
  {
    var a, b := db.aRecs[r], db.aRecs[q];
    TierAFileInjective(db.words[a.word].name, db.speakers[a.speaker].name, a.rep,
                       db.words[b.word].name, db.speakers[b.speaker].name, b.rep);
    assert SameName(db.words[a.word], db.words[b.word]);
    assert db.speakers[a.speaker] == db.speakers[b.speaker];
    assert ARepeats(a, b);
  }

  /** Two live Tier B recordings of one language never share an export file name. */
  lemma {:induction false} TierBFilesDistinct(db: Db, r: string, q: string)
    requires Sound(db) && r in db.bRecs && q in db.bRecs
    requires db.pairs[db.bRecs[r].pair].language == db.pairs[db.bRecs[q].pair].language
    requires db.bRecs[r].file == db.bRecs[q].file
    ensures r == q
  {
    var a, b := db.bRecs[r], db.bRecs[q];
    TierBFileInjective(db.pairs[a.pair].number, a.side, a.rep, db.pairs[b.pair].number, b.side, b.rep);
    assert db.pairs[a.pair] == db.pairs[b.pair];
    assert BRepeats(a, b);
  }

  // ---- Storage keys ------------------------------------------------------------------------

  ghost predicate CodesKeyable(languages: map<string, string>) {
    forall l :: l in languages ==> KeyableCode(languages[l])
  }

  lemma {:induction false} SameKey(code: string, tier: Tier, id: string, code': string, tier': Tier, id': string,
                                   key: string)
    requires KeyableCode(code) && KeyableCode(code')
    requires HasKey(code, tier, id, key) && HasKey(code', tier', id', key)
    ensures tier == tier' && id == id'
  {
    var f :| f in FORMATS && key == RawKey(code, tier, id, f);
    var f' :| f' in FORMATS && key == RawKey(code', tier', id', f');
    FormatsHaveNoDot(f);
    FormatsHaveNoDot(f');
    RawKeyInjective(code, tier, id, f, code', tier', id', f');
  }

  /** No two live recordings, of either tier, are stored under one key. */
  ghost predicate KeysDiffer(db: Db) {
    && (forall r, q :: r in db.aRecs && q in db.aRecs && db.aRecs[r].key == db.aRecs[q].key ==> r == q)
    && (forall r, q :: r in db.bRecs && q in db.bRecs && db.bRecs[r].key == db.bRecs[q].key ==> r == q)
    && (forall r, q :: r in db.aRecs && q in db.bRecs ==> db.aRecs[r].key != db.bRecs[q].key)
  }

  function CodeOfA(db: Db, r: string): string
    requires r in db.aRecs && db.aRecs[r].word in db.words && db.words[db.aRecs[r].word].language in db.languages
  {
    db.languages[db.words[db.aRecs[r].word].language]
  }

  function CodeOfB(db: Db, r: string): string
    requires r in db.bRecs && db.bRecs[r].pair in db.pairs && db.pairs[db.bRecs[r].pair].language in db.languages
  {
    db.languages[db.pairs[db.bRecs[r].pair].language]
  }

  lemma {:induction false} SoundKeysDiffer(db: Db)
    requires Sound(db) && CodesKeyable(db.languages)
    ensures KeysDiffer(db)
  {
    forall r, q | r in db.aRecs && q in db.aRecs && db.aRecs[r].key == db.aRecs[q].key ensures r == q {
      SameKey(CodeOfA(db, r), TierA, r, CodeOfA(db, q), TierA, q, db.aRecs[r].key);
    }
    forall r, q | r in db.bRecs && q in db.bRecs && db.bRecs[r].key == db.bRecs[q].key ensures r == q {
      SameKey(CodeOfB(db, r), TierB, r, CodeOfB(db, q), TierB, q, db.bRecs[r].key);
    }
    forall r, q | r in db.aRecs && q in db.bRecs ensures db.aRecs[r].key != db.bRecs[q].key {
      if db.aRecs[r].key == db.bRecs[q].key {
        SameKey(CodeOfA(db, r), TierA, r, CodeOfB(db, q), TierB, q, db.aRecs[r].key);
      }
    }
  }

  lemma {:induction false} CatalogueKeepsLanguages(db: Db, op: Op)
    requires OnCatalogue(op)
    ensures Left(db, ReplyTo(db, op)).languages == db.languages
  {}

  lemma {:induction false} RecordingsKeepLanguages(db: Db, op: Op)
    requires !OnCatalogue(op)
    ensures Left(db, ReplyTo(db, op)).languages == db.languages
  {}

  lemma {:induction false} LanguagesStay(db: Db, ops: seq<Op>)
    ensures After(db, ops).languages == db.languages
    decreases |ops|
  {
    if ops != [] {
      var next := Left(db, ReplyTo(db, ops[0]));
      if OnCatalogue(ops[0]) { CatalogueKeepsLanguages(db, ops[0]); } else { RecordingsKeepLanguages(db, ops[0]); }
      LanguagesStay(next, ops[1..]);
      assert After(db, ops) == After(next, ops[1..]);
    }
  }

  /**
    In every reachable state, recordings have storage keys of their own. Codes are those the language
    table can hold, at most three characters; longer ones would do as well without a slash.
  */
  lemma {:induction false} ReachableKeysDiffer(languages: map<string, string>, ops: seq<Op>)
    requires CodesKeyable(languages)
    ensures KeysDiffer(After(Empty(languages), ops))
  {
    ReachableIsSound(languages, ops);
    LanguagesStay(Empty(languages), ops);
    SoundKeysDiffer(After(Empty(languages), ops));
  }
}
