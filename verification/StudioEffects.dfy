/** What each call does to the tables of the Annotation Studio: when it succeeds, and every row it touches. */
module StudioEffects {
  import opened Options
  import opened Naming
  import opened Studio
  import opened StudioFacts
  import Text

  predicate Succeeds(db: Db, op: Op) {
    ReplyTo(db, op).Ok?
  }

  function Then(db: Db, op: Op): Db {
    Left(db, ReplyTo(db, op))
  }

  /** A refused call leaves every table as it is, whatever the call. */
  lemma {:induction false} RefusedChangesNothing(db: Db, op: Op)
    requires !Succeeds(db, op)
    ensures Then(db, op) == db
  {}

  /** Row `id` was added or changed, and no other. */
  ghost predicate OneRow<T>(before: map<string, T>, after: map<string, T>, id: string) {
    after.Keys == before.Keys + {id} && forall x :: x in before && x != id ==> after[x] == before[x]
  }

  /** The rows outside `gone` are left, as they were. */
  ghost predicate Without<T>(before: map<string, T>, after: map<string, T>, gone: set<string>) {
    after.Keys == before.Keys - gone && forall x :: x in after ==> after[x] == before[x]
  }

  // ---- Words -------------------------------------------------------------------------------

  ghost predicate WordLabelFree(db: Db, language: string, n: nat) {
    forall x :: x in db.words && db.words[x].language == language ==> db.words[x].name != WordLabel(n)
  }

  /** The number is the first free one of the fifty behind the count. */
  ghost predicate WordNumber(db: Db, language: string, n: nat) {
    var count := |WordsOf(db, language)|;
    && count < n <= count + 50 && WordLabelFree(db, language, n)
    && forall j: nat :: count < j < n ==> !WordLabelFree(db, language, j)
  }

  lemma {:induction false} WordLabelsTaken(db: Db, language: string, n: nat)
    ensures WordLabelFree(db, language, n) <==> WordLabel(n) !in WordLabels(db, language)
  {
    forall x | x in db.words && db.words[x].language == language ensures db.words[x].name in WordLabels(db, language) {
      assert x in WordsOf(db, language);
    }
  }

  lemma {:induction false} WordAllocation(db: Db, language: string, n: Option<nat>)
    requires var count := |WordsOf(db, language)|;
      n == FirstFree(WordLabel, WordLabels(db, language), count + 1, count + 1 + ATTEMPTS)
    ensures n.Some? ==> WordNumber(db, language, n.value)
    ensures n.None? ==> forall j: nat :: !WordNumber(db, language, j)
  {
    var count := |WordsOf(db, language)|;
    FirstFreeIsLeast(WordLabel, WordLabels(db, language), count + 1, count + 1 + ATTEMPTS);
    forall j: nat ensures WordLabelFree(db, language, j) <==> WordLabel(j) !in WordLabels(db, language) {
      WordLabelsTaken(db, language, j);
    }
  }

  /** What is kept of a gloss: its text without the white space around it, or nothing. */
  ghost predicate GlossKept(given: Option<string>, kept: Option<string>) {
    if kept.None? then given.None? || Text.Blank(given.value)
    else
      && given.Some? && kept.value != [] && Text.Trimmed(kept.value)
      && exists before, after :: Text.Blank(before) && Text.Blank(after) && given.value == before + kept.value + after
  }

  lemma {:induction false} CleanGlossKeeps(gloss: Option<string>)
    ensures GlossKept(gloss, CleanGloss(gloss))
  {
    if gloss.Some? {
      Text.StripTrims(gloss.value);
      var before, after := Text.StripParts(gloss.value);
      if CleanGloss(gloss).None? { assert gloss.value == before + after; }
    }
  }

  /** A new word gets the first free label behind the number of its language's words. */
  lemma {:induction false} CreateWordEffect(db: Db, id: string, language: string, gloss: Option<string>)
    ensures Succeeds(db, CreateWord(id, language, gloss)) <==>
      language in db.languages && id !in db.words && exists n: nat :: WordNumber(db, language, n)
    ensures var after := Then(db, CreateWord(id, language, gloss));
      Succeeds(db, CreateWord(id, language, gloss)) ==>
        && after == db.(words := after.words) && OneRow(db.words, after.words, id)
        && NewWord(db, language, gloss, after.words[id])
  {
    var count := |WordsOf(db, language)|;
    var n := FirstFree(WordLabel, WordLabels(db, language), count + 1, count + 1 + ATTEMPTS);
    WordAllocation(db, language, n);
    CleanGlossKeeps(gloss);
    assert n.Some? ==> NewWord(db, language, gloss, Word(language, WordLabel(n.value), CleanGloss(gloss)));
  }

  ghost predicate NewWord(db: Db, language: string, gloss: Option<string>, w: Word) {
    && w.language == language && GlossKept(gloss, w.gloss)
    && exists n: nat :: w.name == WordLabel(n) && WordNumber(db, language, n)
  }

  lemma {:induction false} UpdateWordEffect(db: Db, id: string, gloss: Option<string>)
    ensures Succeeds(db, UpdateWord(id, gloss)) <==> id in db.words
    ensures var after := Then(db, UpdateWord(id, gloss));
      id in db.words ==>
        && after == db.(words := after.words) && OneRow(db.words, after.words, id)
        && SameName(after.words[id], db.words[id]) && GlossKept(gloss, after.words[id].gloss)
  {
    CleanGlossKeeps(gloss);
  }

  /** A word takes its recordings with it. */
  lemma {:induction false} DeleteWordEffect(db: Db, id: string)
    ensures Succeeds(db, DeleteWord(id)) <==> id in db.words
    ensures var after := Then(db, DeleteWord(id));
      id in db.words ==>
        && after == db.(words := after.words, aRecs := after.aRecs) && Without(db.words, after.words, {id})
        && Without(db.aRecs, after.aRecs, set r | r in db.aRecs && db.aRecs[r].word == id)
  {}

  // ---- Speakers and pairs ------------------------------------------------------------------

  ghost predicate SpeakerNameFree(db: Db, language: string, name: string) {
    forall x :: x in db.speakers ==> db.speakers[x] != Speaker(language, name)
  }

  lemma {:induction false} SpeakerLabelsTaken(db: Db, language: string, name: string)
    ensures SpeakerNameFree(db, language, name) <==> name !in SpeakerLabels(db, language)
  {
    forall x | x in db.speakers && db.speakers[x].language == language
      ensures db.speakers[x].name in SpeakerLabels(db, language)
    {
      assert x in SpeakersOf(db, language);
    }
    if name in SpeakerLabels(db, language) {
      var x :| x in SpeakersOf(db, language) && db.speakers[x].name == name;
      assert db.speakers[x] == Speaker(language, name);
    }
  }

  /** A requested name is taken as it is, if it is a label nobody of the language has. */
  lemma {:induction false} NameSpeakerEffect(db: Db, id: string, language: string, name: string)
    requires name != []
    ensures var op := CreateSpeaker(id, language, Some(name));
      && (Succeeds(db, op) <==>
            language in db.languages && id !in db.speakers && SpeakerNameFree(db, language, name)
            && forall c :: c in name ==> 'a' <= c <= 'z' || '0' <= c <= '9')
      && var after := Then(db, op);
      Succeeds(db, op) ==>
        && after == db.(speakers := after.speakers) && OneRow(db.speakers, after.speakers, id)
        && after.speakers[id] == Speaker(language, name)
  {
    SpeakerLabelsTaken(db, language, name);
  }

  ghost predicate SpeakerNumber(db: Db, language: string, n: nat) {
    var count := |SpeakersOf(db, language)|;
    && count < n <= count + 50 && SpeakerNameFree(db, language, SpeakerLabel(n))
    && forall j: nat :: count < j < n ==> !SpeakerNameFree(db, language, SpeakerLabel(j))
  }

  lemma {:induction false} SpeakerAllocation(db: Db, language: string, n: Option<nat>)
    requires var count := |SpeakersOf(db, language)|;
      n == FirstFree(SpeakerLabel, SpeakerLabels(db, language), count + 1, count + 1 + ATTEMPTS)
    ensures n.Some? ==> SpeakerNumber(db, language, n.value)
    ensures n.None? ==> forall j: nat :: !SpeakerNumber(db, language, j)
  {
    var count := |SpeakersOf(db, language)|;
    FirstFreeIsLeast(SpeakerLabel, SpeakerLabels(db, language), count + 1, count + 1 + ATTEMPTS);
    forall j: nat
      ensures SpeakerNameFree(db, language, SpeakerLabel(j)) <==> SpeakerLabel(j) !in SpeakerLabels(db, language)
    {
      SpeakerLabelsTaken(db, language, SpeakerLabel(j));
    }
  }

  /** A speaker without a requested name gets the first free label, like a word. */
  lemma {:induction false} CreateSpeakerEffect(db: Db, id: string, language: string, name: Option<string>)
    requires name.None? || name.value == []
    ensures Succeeds(db, CreateSpeaker(id, language, name)) <==>
      language in db.languages && id !in db.speakers && exists n: nat :: SpeakerNumber(db, language, n)
    ensures var after := Then(db, CreateSpeaker(id, language, name));
      Succeeds(db, CreateSpeaker(id, language, name)) ==>
        && after == db.(speakers := after.speakers) && OneRow(db.speakers, after.speakers, id)
        && NewSpeaker(db, language, after.speakers[id])
  {
    var count := |SpeakersOf(db, language)|;
    var n := FirstFree(SpeakerLabel, SpeakerLabels(db, language), count + 1, count + 1 + ATTEMPTS);
    SpeakerAllocation(db, language, n);
    if n.Some? {
      var s := Speaker(language, SpeakerLabel(n.value));
      assert NewSpeaker(db, language, s);
      NumberedReply(db, id, language, name, s);
    }
  }

  lemma {:induction false} NumberedReply(db: Db, id: string, language: string, name: Option<string>, s: Speaker)
    requires name.None? || name.value == []
    requires var count := |SpeakersOf(db, language)|;
      var n := FirstFree(SpeakerLabel, SpeakerLabels(db, language), count + 1, count + 1 + ATTEMPTS);
      n.Some? && s == Speaker(language, SpeakerLabel(n.value))
    ensures Succeeds(db, CreateSpeaker(id, language, name)) <==> language in db.languages && id !in db.speakers
    ensures Succeeds(db, CreateSpeaker(id, language, name)) ==>
      Then(db, CreateSpeaker(id, language, name)) == db.(speakers := db.speakers[id := s])
  {}

  ghost predicate NewSpeaker(db: Db, language: string, s: Speaker) {
    s.language == language && exists n: nat :: s.name == SpeakerLabel(n) && SpeakerNumber(db, language, n)
  }

  /** A speaker takes the recordings along. */
  lemma {:induction false} DeleteSpeakerEffect(db: Db, id: string)
    ensures Succeeds(db, DeleteSpeaker(id)) <==> id in db.speakers
    ensures var after := Then(db, DeleteSpeaker(id));
      id in db.speakers ==>
        && after == db.(speakers := after.speakers, aRecs := after.aRecs)
        && Without(db.speakers, after.speakers, {id})
        && Without(db.aRecs, after.aRecs, set r | r in db.aRecs && db.aRecs[r].speaker == id)
  {}

  lemma {:induction false} CreatePairEffect(db: Db, id: string, language: string, number: int)
    ensures var op := CreatePair(id, language, number);
      && (Succeeds(db, op) <==>
            language in db.languages && id !in db.pairs
            && forall p :: p in db.pairs && db.pairs[p].language == language ==> db.pairs[p].number != number)
      && var after := Then(db, op);
      Succeeds(db, op) ==>
        && after == db.(pairs := after.pairs) && OneRow(db.pairs, after.pairs, id)
        && after.pairs[id] == Pair(language, number)
  {}

  lemma {:induction false} DeletePairEffect(db: Db, id: string)
    ensures Succeeds(db, DeletePair(id)) <==> id in db.pairs
    ensures var after := Then(db, DeletePair(id));
      id in db.pairs ==>
        && after == db.(pairs := after.pairs, bRecs := after.bRecs) && Without(db.pairs, after.pairs, {id})
        && Without(db.bRecs, after.bRecs, set r | r in db.bRecs && db.bRecs[r].pair == id)
  {}

  // ---- Recordings --------------------------------------------------------------------------

  /** No other recording of this word, speaker and repetition exists. */
  ghost predicate TakeFree(db: Db, word: string, speaker: string, rep: int) {
    forall r :: r in db.aRecs ==>
      db.aRecs[r].word != word || db.aRecs[r].speaker != speaker || db.aRecs[r].rep != rep
  }

  /** Word and speaker exist and belong to one language. */
  predicate OneLanguage(db: Db, word: string, speaker: string) {
    word in db.words && speaker in db.speakers && db.words[word].language == db.speakers[speaker].language
  }

  /** A new recording is pending; its file name and key are those that the invariant describes. */
  lemma {:induction false} CreateAEffect(db: Db, id: string, word: string, speaker: string, rep: int, format: string)
    ensures var op := CreateA(id, word, speaker, rep, format);
      && (Succeeds(db, op) <==>
            OneLanguage(db, word, speaker) && db.words[word].language in db.languages && format in FORMATS
            && id !in db.aRecs && TakeFree(db, word, speaker, rep))
    ensures var after := Then(db, CreateA(id, word, speaker, rep, format));
      Succeeds(db, CreateA(id, word, speaker, rep, format)) ==>
        && after == db.(aRecs := after.aRecs) && OneRow(db.aRecs, after.aRecs, id)
        && var r := after.aRecs[id];
        && r.word == word && r.speaker == speaker && r.rep == rep && !r.stored
        && ASound(db.words, db.speakers, r) && AKeySound(db.languages, db.words, id, r)
  {
    var op := CreateA(id, word, speaker, rep, format);
    if Succeeds(db, op) {
      var code := db.languages[db.words[word].language];
      assert HasKey(code, TierA, id, RawKey(code, TierA, id, format));
    }
  }

  ghost predicate SideFree(db: Db, pair: string, side: Side, rep: int) {
    forall r :: r in db.bRecs ==>
      db.bRecs[r].pair != pair || db.bRecs[r].side != side || db.bRecs[r].rep != rep
  }

  lemma {:induction false} CreateBEffect(db: Db, id: string, pair: string, side: Side, rep: int, format: string)
    ensures var op := CreateB(id, pair, side, rep, format);
      && (Succeeds(db, op) <==>
            pair in db.pairs && db.pairs[pair].language in db.languages && format in FORMATS
            && id !in db.bRecs && SideFree(db, pair, side, rep))
    ensures var after := Then(db, CreateB(id, pair, side, rep, format));
      Succeeds(db, CreateB(id, pair, side, rep, format)) ==>
        && after == db.(bRecs := after.bRecs) && OneRow(db.bRecs, after.bRecs, id)
        && var r := after.bRecs[id];
        && r.pair == pair && r.side == side && r.rep == rep && !r.stored
        && BSound(db.pairs, r) && BKeySound(db.languages, db.pairs, id, r)
  {
    var op := CreateB(id, pair, side, rep, format);
    if Succeeds(db, op) {
      var code := db.languages[db.pairs[pair].language];
      assert HasKey(code, TierB, id, RawKey(code, TierB, id, format));
    }
  }

  /** An upload that is not too large is marked stored, and nothing else changes. */
  lemma {:induction false} CompleteEffect(db: Db, id: string, oversized: bool)
    ensures Succeeds(db, CompleteA(id, oversized)) <==> id in db.aRecs && !oversized
    ensures Succeeds(db, CompleteB(id, oversized)) <==> id in db.bRecs && !oversized
    ensures var after := Then(db, CompleteA(id, oversized));
      Succeeds(db, CompleteA(id, oversized)) ==>
        && after == db.(aRecs := after.aRecs) && OneRow(db.aRecs, after.aRecs, id)
        && after.aRecs[id].stored && after.aRecs[id].(stored := db.aRecs[id].stored) == db.aRecs[id]
    ensures var after := Then(db, CompleteB(id, oversized));
      Succeeds(db, CompleteB(id, oversized)) ==>
        && after == db.(bRecs := after.bRecs) && OneRow(db.bRecs, after.bRecs, id)
        && after.bRecs[id].stored && after.bRecs[id].(stored := db.bRecs[id].stored) == db.bRecs[id]
  {}

  lemma {:induction false} DeleteRecordingEffect(db: Db, id: string)
    ensures Succeeds(db, DeleteA(id)) <==> id in db.aRecs
    ensures Succeeds(db, DeleteB(id)) <==> id in db.bRecs
    ensures var after := Then(db, DeleteA(id)); after == db.(aRecs := after.aRecs)
    ensures id in db.aRecs ==> Without(db.aRecs, Then(db, DeleteA(id)).aRecs, {id})
    ensures var after := Then(db, DeleteB(id)); after == db.(bRecs := after.bRecs)
    ensures id in db.bRecs ==> Without(db.bRecs, Then(db, DeleteB(id)).bRecs, {id})
  {}
}
