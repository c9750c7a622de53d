/** The Annotation Studio calls as methods over mutable tables. */
module StudioService {
  import opened Options
  import opened Naming
  import opened Studio
  import opened StudioFacts

  /** The call ended as `reply` says: the new tables, or an error and no change. */
  ghost predicate Ends(reply: Reply, before: Db, after: Db, error: Option<Error>) {
    match reply
    case Ok(db) => error == None && after == db
    case Err(e) => error == Some(e) && after == before
  }

  class Service {
    const languages: map<string, string>
    var words: map<string, Word>
    var speakers: map<string, Speaker>
    var pairs: map<string, Pair>
    var aRecs: map<string, ARecording>
    var bRecs: map<string, BRecording>

    constructor (languages: map<string, string>)
      ensures Tables() == Empty(languages) && Sound(Tables())
    {
      this.languages := languages;
      words, speakers, pairs, aRecs, bRecs := map[], map[], map[], map[], map[];
    }

    function Tables(): Db
      reads this
    {
      Db(languages, words, speakers, pairs, aRecs, bRecs)
    }

    /** One attempt to insert a word; a repeated key leaves the table as it was. */
    method InsertWord(id: string, w: Word) returns (done: bool)
      modifies `words
      ensures done <==> id !in old(words) && w.name !in WordLabels(old(Tables()), w.language)
      ensures words == if done then old(words)[id := w] else old(words)
    {
      if id in words || exists x :: x in words && SameName(words[x], w) {
        if id !in words {
          var x :| x in words && SameName(words[x], w);
          assert x in WordsOf(Tables(), w.language);
        }
        return false;
      }
      words := words[id := w];
      return true;
    }

    method CreateWord(id: string, language: string, gloss: Option<string>) returns (error: Option<Error>)
      modifies this
      ensures Ends(ReplyCreateWord(old(Tables()), id, language, gloss), old(Tables()), Tables(), error)
      ensures Sound(old(Tables())) ==> Sound(Tables())
    {
      if language !in languages { return Some(NotFound); }
      var clean := CleanGloss(gloss);
      var count := |WordsOf(Tables(), language)|;
      ghost var taken := WordLabels(Tables(), language);
      var n := count + 1;
      while n < count + 1 + ATTEMPTS
        invariant count + 1 <= n <= count + 1 + ATTEMPTS
        invariant Tables() == old(Tables())
        invariant id !in words ==>
          FirstFree(WordLabel, taken, count + 1, count + 1 + ATTEMPTS) ==
            FirstFree(WordLabel, taken, n, count + 1 + ATTEMPTS)
      {
        var done := InsertWord(id, Word(language, WordLabel(n), clean));
        if done {
          CreateWordIsSound(old(Tables()), id, language, gloss);
          return None;
        }
        n := n + 1;
      }
      return Some(Conflict);
    }

    method InsertSpeaker(id: string, s: Speaker) returns (done: bool)
      modifies `speakers
      ensures done <==> id !in old(speakers) && s.name !in SpeakerLabels(old(Tables()), s.language)
      ensures speakers == if done then old(speakers)[id := s] else old(speakers)
    {
      if id in speakers || exists x :: x in speakers && speakers[x] == s {
        if id !in speakers {
          var x :| x in speakers && speakers[x] == s;
          assert x in SpeakersOf(Tables(), s.language);
        }
        return false;
      }
      speakers := speakers[id := s];
      return true;
    }

    method CreateSpeaker(id: string, language: string, name: Option<string>) returns (error: Option<Error>)
      modifies this
      ensures Ends(ReplyCreateSpeaker(old(Tables()), id, language, name), old(Tables()), Tables(), error)
      ensures Sound(old(Tables())) ==> Sound(Tables())
    {
      if language !in languages { return Some(NotFound); }
      if name.Some? && name.value != [] {
        if !ValidLabel(name.value) { return Some(Invalid); }
        var done := InsertSpeaker(id, Speaker(language, name.value));
        if !done { return Some(Conflict); }
        CreateSpeakerIsSound(old(Tables()), id, language, name);
        return None;
      }
      var count := |SpeakersOf(Tables(), language)|;
      ghost var taken := SpeakerLabels(Tables(), language);
      var n := count + 1;
      while n < count + 1 + ATTEMPTS
        invariant count + 1 <= n <= count + 1 + ATTEMPTS
        invariant Tables() == old(Tables())
        invariant id !in speakers ==>
          FirstFree(SpeakerLabel, taken, count + 1, count + 1 + ATTEMPTS) ==
            FirstFree(SpeakerLabel, taken, n, count + 1 + ATTEMPTS)
      {
        var done := InsertSpeaker(id, Speaker(language, SpeakerLabel(n)));
        if done {
          CreateSpeakerIsSound(old(Tables()), id, language, name);
          return None;
        }
        n := n + 1;
      }
      return Some(Conflict);
    }

    method UpdateWord(id: string, gloss: Option<string>) returns (error: Option<Error>)
      modifies this
      ensures Ends(ReplyUpdateWord(old(Tables()), id, gloss), old(Tables()), Tables(), error)
      ensures Sound(old(Tables())) ==> Sound(Tables())
    {
      if id !in words { return Some(NotFound); }
      words := words[id := words[id].(gloss := CleanGloss(gloss))];
      UpdateWordIsSound(old(Tables()), id, gloss);
      return None;
    }

    method DeleteWord(id: string) returns (error: Option<Error>)
      modifies this
      ensures Ends(ReplyDeleteWord(old(Tables()), id), old(Tables()), Tables(), error)
      ensures Sound(old(Tables())) ==> Sound(Tables())
    {
      if id !in words { return Some(NotFound); }
      aRecs := map r | r in aRecs && aRecs[r].word != id :: aRecs[r];
      words := words - {id};
      DeleteWordIsSound(old(Tables()), id);
      return None;
    }

    method DeleteSpeaker(id: string) returns (error: Option<Error>)
      modifies this
      ensures Ends(ReplyDeleteSpeaker(old(Tables()), id), old(Tables()), Tables(), error)
      ensures Sound(old(Tables())) ==> Sound(Tables())
    {
      if id !in speakers { return Some(NotFound); }
      aRecs := map r | r in aRecs && aRecs[r].speaker != id :: aRecs[r];
      speakers := speakers - {id};
      DeleteSpeakerIsSound(old(Tables()), id);
      return None;
    }

    method CreatePair(id: string, language: string, number: int) returns (error: Option<Error>)
      modifies this
      ensures Ends(ReplyCreatePair(old(Tables()), id, language, number), old(Tables()), Tables(), error)
      ensures Sound(old(Tables())) ==> Sound(Tables())
    {
      if language !in languages { return Some(NotFound); }
      var pair := Pair(language, number);
      if id in pairs || exists p :: p in pairs && pairs[p] == pair { return Some(Conflict); }
      pairs := pairs[id := pair];
      CreatePairIsSound(old(Tables()), id, language, number);
      return None;
    }

    method DeletePair(id: string) returns (error: Option<Error>)
      modifies this
      ensures Ends(ReplyDeletePair(old(Tables()), id), old(Tables()), Tables(), error)
      ensures Sound(old(Tables())) ==> Sound(Tables())
    {
      if id !in pairs { return Some(NotFound); }
      bRecs := map r | r in bRecs && bRecs[r].pair != id :: bRecs[r];
      pairs := pairs - {id};
      DeletePairIsSound(old(Tables()), id);
      return None;
    }

    method CreateA(id: string, word: string, speaker: string, rep: int, format: string) returns (error: Option<Error>)
      modifies this
      ensures Ends(ReplyCreateA(old(Tables()), id, word, speaker, rep, format), old(Tables()), Tables(), error)
      ensures Sound(old(Tables())) ==> Sound(Tables())
    {
      if word !in words { return Some(NotFound); }
      if speaker !in speakers { return Some(NotFound); }
      var w, s := words[word], speakers[speaker];
      if s.language != w.language { return Some(Invalid); }
      if format !in FORMATS { return Some(Invalid); }
      if w.language !in languages { return Some(NotFound); }
      var recording := ARecording(word, speaker, rep, RawKey(languages[w.language], TierA, id, format),
                                  TierAFile(w.name, s.name, rep), false);
      if id in aRecs || exists r :: r in aRecs && SameTake(aRecs[r], word, speaker, rep) { return Some(Conflict); }
      aRecs := aRecs[id := recording];
      CreateAIsSound(old(Tables()), id, word, speaker, rep, format);
      return None;
    }

    method CompleteA(id: string, oversized: bool) returns (error: Option<Error>)
      modifies this
      ensures Ends(ReplyCompleteA(old(Tables()), id, oversized), old(Tables()), Tables(), error)
      ensures Sound(old(Tables())) ==> Sound(Tables())
    {
      if id !in aRecs { return Some(NotFound); }
      if oversized { return Some(Invalid); }
      aRecs := aRecs[id := aRecs[id].(stored := true)];
      CompleteAIsSound(old(Tables()), id, oversized);
      return None;
    }

    method DeleteA(id: string) returns (error: Option<Error>)
      modifies this
      ensures Ends(ReplyDeleteA(old(Tables()), id), old(Tables()), Tables(), error)
      ensures Sound(old(Tables())) ==> Sound(Tables())
    {
      if id !in aRecs { return Some(NotFound); }
      aRecs := aRecs - {id};
      DeleteAIsSound(old(Tables()), id);
      return None;
    }

    method CreateB(id: string, pair: string, side: Side, rep: int, format: string) returns (error: Option<Error>)
      modifies this
      ensures Ends(ReplyCreateB(old(Tables()), id, pair, side, rep, format), old(Tables()), Tables(), error)
      ensures Sound(old(Tables())) ==> Sound(Tables())
    {
      if pair !in pairs { return Some(NotFound); }
      var p := pairs[pair];
      if format !in FORMATS { return Some(Invalid); }
      if p.language !in languages { return Some(NotFound); }
      var recording := BRecording(pair, side, rep, RawKey(languages[p.language], TierB, id, format),
                                  TierBFile(p.number, side, rep), false);
      if id in bRecs || exists r :: r in bRecs && SameSideTake(bRecs[r], pair, side, rep) { return Some(Conflict); }
      bRecs := bRecs[id := recording];
      CreateBIsSound(old(Tables()), id, pair, side, rep, format);
      return None;
    }

    method CompleteB(id: string, oversized: bool) returns (error: Option<Error>)
      modifies this
      ensures Ends(ReplyCompleteB(old(Tables()), id, oversized), old(Tables()), Tables(), error)
      ensures Sound(old(Tables())) ==> Sound(Tables())
    {
      if id !in bRecs { return Some(NotFound); }
      if oversized { return Some(Invalid); }
      bRecs := bRecs[id := bRecs[id].(stored := true)];
      CompleteBIsSound(old(Tables()), id, oversized);
      return None;
    }

    method DeleteB(id: string) returns (error: Option<Error>)
      modifies this
      ensures Ends(ReplyDeleteB(old(Tables()), id), old(Tables()), Tables(), error)
      ensures Sound(old(Tables())) ==> Sound(Tables())
    {
      if id !in bRecs { return Some(NotFound); }
      bRecs := bRecs - {id};
      DeleteBIsSound(old(Tables()), id);
      return None;
    }
  }
}
