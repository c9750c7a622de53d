/**
  The tables of the Annotation Studio and the calls that change them. Unique keys and cascading
  deletes are rules of the store: an insert that repeats a key is refused, and deleting a row deletes
  the recordings that refer to it.
*/
module Studio {
  import opened Options
  import opened Naming
  import Text

  datatype Word = Word(language: string, name: string, gloss: Option<string>)
  datatype Speaker = Speaker(language: string, name: string)
  datatype Pair = Pair(language: string, number: int)
  datatype ARecording = ARecording(word: string, speaker: string, rep: int, key: string, file: string, stored: bool)
  datatype BRecording = BRecording(pair: string, side: Side, rep: int, key: string, file: string, stored: bool)

  /** `languages` maps the known languages to their codes. */
  datatype Db = Db(
    languages: map<string, string>,
    words: map<string, Word>,
    speakers: map<string, Speaker>,
    pairs: map<string, Pair>,
    aRecs: map<string, ARecording>,
    bRecs: map<string, BRecording>)

  datatype Error = NotFound | Invalid | Conflict

  datatype Reply = Ok(db: Db) | Err(error: Error)

  /** How many numbers an allocation tries. */
  const ATTEMPTS := 50

  function WordsOf(db: Db, language: string): set<string> {
    set x | x in db.words && db.words[x].language == language
  }

  function SpeakersOf(db: Db, language: string): set<string> {
    set x | x in db.speakers && db.speakers[x].language == language
  }

  function WordLabels(db: Db, language: string): set<string> {
    set x | x in WordsOf(db, language) :: db.words[x].name
  }

  function SpeakerLabels(db: Db, language: string): set<string> {
    set x | x in SpeakersOf(db, language) :: db.speakers[x].name
  }

  /** The first number from `n` up to, but not including, `stop` whose label is not taken. */
  function FirstFree(name: nat -> string, taken: set<string>, n: nat, stop: nat): Option<nat>
    decreases stop - n
  {
    if n >= stop then None
    else if name(n) !in taken then Some(n)
    else FirstFree(name, taken, n + 1, stop)
  }

  function CleanGloss(gloss: Option<string>): Option<string> {
    if gloss.None? || Text.Strip(gloss.value) == [] then None else Some(Text.Strip(gloss.value))
  }

  // ---- The calls ---------------------------------------------------------------------------

  function ReplyCreateWord(db: Db, id: string, language: string, gloss: Option<string>): Reply {
    if language !in db.languages then Err(NotFound)
    else
      var count := |WordsOf(db, language)|;
      var n := FirstFree(WordLabel, WordLabels(db, language), count + 1, count + 1 + ATTEMPTS);
      if n.None? || id in db.words then Err(Conflict)
      else Ok(db.(words := db.words[id := Word(language, WordLabel(n.value), CleanGloss(gloss))]))
  }

  function ReplyUpdateWord(db: Db, id: string, gloss: Option<string>): Reply {
    if id !in db.words then Err(NotFound)
    else Ok(db.(words := db.words[id := db.words[id].(gloss := CleanGloss(gloss))]))
  }

  function ReplyDeleteWord(db: Db, id: string): Reply {
    if id !in db.words then Err(NotFound)
    else Ok(db.(words := db.words - {id}, aRecs := map r | r in db.aRecs && db.aRecs[r].word != id :: db.aRecs[r]))
  }

  /** `name` is the requested label, already trimmed and in lower case; an empty one counts as none. */
  function ReplyCreateSpeaker(db: Db, id: string, language: string, name: Option<string>): Reply {
    if language !in db.languages then Err(NotFound)
    else if name.Some? && name.value != [] then
      (if !ValidLabel(name.value) then Err(Invalid)
       else if name.value in SpeakerLabels(db, language) || id in db.speakers then Err(Conflict)
       else Ok(db.(speakers := db.speakers[id := Speaker(language, name.value)])))
    else
      var count := |SpeakersOf(db, language)|;
      var n := FirstFree(SpeakerLabel, SpeakerLabels(db, language), count + 1, count + 1 + ATTEMPTS);
      if n.None? || id in db.speakers then Err(Conflict)
      else Ok(db.(speakers := db.speakers[id := Speaker(language, SpeakerLabel(n.value))]))
  }

  function ReplyDeleteSpeaker(db: Db, id: string): Reply {
    if id !in db.speakers then Err(NotFound)
    else Ok(db.(speakers := db.speakers - {id},
                aRecs := map r | r in db.aRecs && db.aRecs[r].speaker != id :: db.aRecs[r]))
  }

  function ReplyCreatePair(db: Db, id: string, language: string, number: int): Reply {
    if language !in db.languages then Err(NotFound)
    else if id in db.pairs || exists p :: p in db.pairs && db.pairs[p] == Pair(language, number) then Err(Conflict)
    else Ok(db.(pairs := db.pairs[id := Pair(language, number)]))
  }

  function ReplyDeletePair(db: Db, id: string): Reply {
    if id !in db.pairs then Err(NotFound)
    else Ok(db.(pairs := db.pairs - {id}, bRecs := map r | r in db.bRecs && db.bRecs[r].pair != id :: db.bRecs[r]))
  }

  function ReplyCreateA(db: Db, id: string, word: string, speaker: string, rep: int, format: string): Reply {
    if word !in db.words || speaker !in db.speakers then Err(NotFound)
    else
      var w, s := db.words[word], db.speakers[speaker];
      if s.language != w.language || format !in FORMATS then Err(Invalid)
      else if w.language !in db.languages then Err(NotFound)
      else if id in db.aRecs || exists r :: r in db.aRecs && SameTake(db.aRecs[r], word, speaker, rep)
        then Err(Conflict)
      else
        var key := RawKey(db.languages[w.language], TierA, id, format);
        Ok(db.(aRecs := db.aRecs[id := ARecording(word, speaker, rep, key, TierAFile(w.name, s.name, rep), false)]))
  }

  predicate SameTake(r: ARecording, word: string, speaker: string, rep: int) {
    r.word == word && r.speaker == speaker && r.rep == rep
  }

  /** An over-sized upload is refused and stays pending. */
  function ReplyCompleteA(db: Db, id: string, oversized: bool): Reply {
    if id !in db.aRecs then Err(NotFound)
    else if oversized then Err(Invalid)
    else Ok(db.(aRecs := db.aRecs[id := db.aRecs[id].(stored := true)]))
  }

  function ReplyDeleteA(db: Db, id: string): Reply {
    if id !in db.aRecs then Err(NotFound) else Ok(db.(aRecs := db.aRecs - {id}))
  }

  function ReplyCreateB(db: Db, id: string, pair: string, side: Side, rep: int, format: string): Reply {
    if pair !in db.pairs then Err(NotFound)
    else if format !in FORMATS then Err(Invalid)
    else if db.pairs[pair].language !in db.languages then Err(NotFound)
    else if id in db.bRecs || exists r :: r in db.bRecs && SameSideTake(db.bRecs[r], pair, side, rep) then Err(Conflict)
    else
      var p := db.pairs[pair];
      var key := RawKey(db.languages[p.language], TierB, id, format);
      Ok(db.(bRecs := db.bRecs[id := BRecording(pair, side, rep, key, TierBFile(p.number, side, rep), false)]))
  }

  predicate SameSideTake(r: BRecording, pair: string, side: Side, rep: int) {
    r.pair == pair && r.side == side && r.rep == rep
  }

  function ReplyCompleteB(db: Db, id: string, oversized: bool): Reply {
    if id !in db.bRecs then Err(NotFound)
    else if oversized then Err(Invalid)
    else Ok(db.(bRecs := db.bRecs[id := db.bRecs[id].(stored := true)]))
  }

  function ReplyDeleteB(db: Db, id: string): Reply {
    if id !in db.bRecs then Err(NotFound) else Ok(db.(bRecs := db.bRecs - {id}))
  }

  datatype Op =
    | CreateWord(id: string, language: string, gloss: Option<string>)
    | UpdateWord(id: string, gloss: Option<string>)
    | DeleteWord(id: string)
    | CreateSpeaker(id: string, language: string, name: Option<string>)
    | DeleteSpeaker(id: string)
    | CreatePair(id: string, language: string, number: int)
    | DeletePair(id: string)
    | CreateA(id: string, word: string, speaker: string, rep: int, format: string)
    | CompleteA(id: string, oversized: bool)
    | DeleteA(id: string)
    | CreateB(id: string, pair: string, side: Side, rep: int, format: string)
    | CompleteB(id: string, oversized: bool)
    | DeleteB(id: string)

  function ReplyTo(db: Db, op: Op): Reply {
    match op
    case CreateWord(id, language, gloss) => ReplyCreateWord(db, id, language, gloss)
    case UpdateWord(id, gloss) => ReplyUpdateWord(db, id, gloss)
    case DeleteWord(id) => ReplyDeleteWord(db, id)
    case CreateSpeaker(id, language, name) => ReplyCreateSpeaker(db, id, language, name)
    case DeleteSpeaker(id) => ReplyDeleteSpeaker(db, id)
    case CreatePair(id, language, number) => ReplyCreatePair(db, id, language, number)
    case DeletePair(id) => ReplyDeletePair(db, id)
    case CreateA(id, word, speaker, rep, format) => ReplyCreateA(db, id, word, speaker, rep, format)
    case CompleteA(id, oversized) => ReplyCompleteA(db, id, oversized)
    case DeleteA(id) => ReplyDeleteA(db, id)
    case CreateB(id, pair, side, rep, format) => ReplyCreateB(db, id, pair, side, rep, format)
    case CompleteB(id, oversized) => ReplyCompleteB(db, id, oversized)
    case DeleteB(id) => ReplyDeleteB(db, id)
  }

  /** The tables left behind by a call that ends so. */
  function Left(db: Db, r: Reply): Db {
    if r.Ok? then r.db else db
  }

  /** The state after a sequence of calls; a refused call changes nothing. */
  function After(db: Db, ops: seq<Op>): Db
    decreases |ops|
  {
    if ops == [] then db
    else After(Left(db, ReplyTo(db, ops[0])), ops[1..])
  }

  function Empty(languages: map<string, string>): Db {
    Db(languages, map[], map[], map[], map[], map[])
  }

  // ---- The invariant -----------------------------------------------------------------------

  predicate SameName(v: Word, w: Word) {
    v.language == w.language && v.name == w.name
  }

  ghost predicate WordsSound(words: map<string, Word>) {
    && (forall x :: x in words ==> ValidLabel(words[x].name))
    && (forall x, y :: x in words && y in words && SameName(words[x], words[y]) ==> x == y)
  }

  ghost predicate SpeakersSound(speakers: map<string, Speaker>) {
    && (forall x :: x in speakers ==> ValidLabel(speakers[x].name))
    && (forall x, y :: x in speakers && y in speakers && speakers[x] == speakers[y] ==> x == y)
  }

  ghost predicate PairsSound(pairs: map<string, Pair>) {
    forall x, y :: x in pairs && y in pairs && pairs[x] == pairs[y] ==> x == y
  }

  predicate ARepeats(r: ARecording, q: ARecording) {
    SameTake(r, q.word, q.speaker, q.rep)
  }

  predicate BRepeats(r: BRecording, q: BRecording) {
    SameSideTake(r, q.pair, q.side, q.rep)
  }

  /** The recording's word and speaker exist, share a language, and gave it its file name. */
  predicate ASound(words: map<string, Word>, speakers: map<string, Speaker>, r: ARecording) {
    && r.word in words && r.speaker in speakers
    && words[r.word].language == speakers[r.speaker].language
    && r.file == TierAFile(words[r.word].name, speakers[r.speaker].name, r.rep)
  }

  predicate BSound(pairs: map<string, Pair>, r: BRecording) {
    r.pair in pairs && r.file == TierBFile(pairs[r.pair].number, r.side, r.rep)
  }

  /** The key is made of the language's code, the tier, the recording's own identifier and a known format. */
  ghost predicate HasKey(code: string, tier: Tier, id: string, key: string) {
    exists format :: format in FORMATS && key == RawKey(code, tier, id, format)
  }

  ghost predicate AKeySound(languages: map<string, string>, words: map<string, Word>, id: string, r: ARecording) {
    && r.word in words && words[r.word].language in languages
    && HasKey(languages[words[r.word].language], TierA, id, r.key)
  }

  ghost predicate BKeySound(languages: map<string, string>, pairs: map<string, Pair>, id: string, r: BRecording) {
    && r.pair in pairs && pairs[r.pair].language in languages
    && HasKey(languages[pairs[r.pair].language], TierB, id, r.key)
  }

  ghost predicate AKeysSound(languages: map<string, string>, words: map<string, Word>, recs: map<string, ARecording>) {
    forall r :: r in recs ==> AKeySound(languages, words, r, recs[r])
  }

  ghost predicate BKeysSound(languages: map<string, string>, pairs: map<string, Pair>, recs: map<string, BRecording>) {
    forall r :: r in recs ==> BKeySound(languages, pairs, r, recs[r])
  }

  ghost predicate ARecsSound(words: map<string, Word>, speakers: map<string, Speaker>,
                             recs: map<string, ARecording>) {
    && (forall r :: r in recs ==> ASound(words, speakers, recs[r]))
    && (forall r, q :: r in recs && q in recs && ARepeats(recs[r], recs[q]) ==> r == q)
  }

  ghost predicate BRecsSound(pairs: map<string, Pair>, recs: map<string, BRecording>) {
    && (forall r :: r in recs ==> BSound(pairs, recs[r]))
    && (forall r, q :: r in recs && q in recs && BRepeats(recs[r], recs[q]) ==> r == q)
  }

  ghost predicate Sound(db: Db) {
    && WordsSound(db.words) && SpeakersSound(db.speakers) && PairsSound(db.pairs)
    && ARecsSound(db.words, db.speakers, db.aRecs) && BRecsSound(db.pairs, db.bRecs)
    && AKeysSound(db.languages, db.words, db.aRecs) && BKeysSound(db.languages, db.pairs, db.bRecs)
  }
}
