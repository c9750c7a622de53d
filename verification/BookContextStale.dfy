/** Two runs that leave a stale translation behind. */
module BookContextStale {
  import opened Options
  import opened BookContext
  import opened BookContextScenario
  import opened BookContextTranslations

  /** The translator's answer for a document that has a genre only. */
  function Genre(v: Json): LocaleReply {
    Translated(map[GenreContext := v])
  }

  /** A new document whose genre section was translated into a locale. */
  function TranslatedDraft(book: string, ana: string, locale: string, v: Json): Doc {
    TranslatedTo(NewDraft(book, ana), locale, Genre(v))
  }

  lemma {:induction false} DraftTranslated(id: string, book: string, ana: string, locale: string, v: Json)
    returns (t: Run)
    ensures EndsWith(t, id, TranslatedDraft(book, ana, locale, v)) && |t.ops| == 2
    ensures t.ops[1] == Translate(id, locale, Some(Genre(v)))
  {
    t := FirstCreated(id, book, ana);
    t := ThenTranslated(t, id, NewDraft(book, ana), locale, Genre(v));
  }

  lemma {:induction false} GenreCached(book: string, ana: string, locale: string, v: Json)
    ensures var d := TranslatedDraft(book, ana, locale, v);
      CachedEntry(d, locale, GenreContext) == Some(Entry(v, 0)) && Edits(d, GenreContext) == 0
  {}

  /** A save from English of a section that an English cache holds. */
  lemma {:induction false} SaveMakesStale(id: string, d: Doc, user: string, data: Json)
    requires d.status == Draft && d.lockedBy == Some(user) && Edits(d, GenreContext) == 0
    requires CachedEntry(d, EN, GenreContext).Some? && CachedEntry(d, EN, GenreContext).value.derivedAt == 0
    ensures var after := After(Only(id, d), UpdateSection(id, GenreContext, data, user, EN, None));
      id in after.docs && StaleEntry(after.docs[id], EN, GenreContext)
  {
    var op := UpdateSection(id, GenreContext, data, user, EN, None);
    assert ReplyTo(Only(id, d), op).Ok?;
    UpdateEntries(Only(id, d), op, EN, GenreContext);
    UpdateEdits(Only(id, d), op, GenreContext);
  }

  /** Once a translation into English is cached, saving the section from English leaves it stale. */
  lemma {:induction false} EnglishCacheGoesStale(id: string, book: string, ana: string, v: Json, data: Json)
    returns (t: Run)
    ensures IsRun(t) && |t.ops| == 4 && id in t.states[4].docs
    ensures StaleEntry(t.states[4].docs[id], EN, GenreContext)
  {
    var d := TranslatedDraft(book, ana, EN, v);
    t := DraftTranslated(id, book, ana, EN, v);
    t := ThenLocked(t, id, d, ana);
    GenreCached(book, ana, EN, v);
    SaveMakesStale(id, Held(d, ana), ana, data);
    var op := UpdateSection(id, GenreContext, data, ana, EN, None);
    t := Extend(t, Only(id, Held(d, ana)), op, After(Only(id, Held(d, ana)), op));
  }

  lemma {:induction false} WriteMakesStale(d: Doc, locale: string, written: Json)
    requires Edits(d, GenreContext) == 0
    requires CachedEntry(d, locale, GenreContext).Some? && CachedEntry(d, locale, GenreContext).value.derivedAt == 0
    ensures StaleEntry(Generated(d, map[GenreContext := written]), locale, GenreContext)
  {}

  /** A generation in place that writes a cached section leaves its translation stale, in any locale. */
  lemma {:induction false} GenerationLeavesStale(id: string, book: string, ana: string, locale: string, v: Json,
                                                 written: Json) returns (t: Run)
    ensures IsRun(t) && |t.ops| == 4 && id in t.states[4].docs
    ensures t.ops[1].Translate? && t.ops[1].language == locale
    ensures StaleEntry(t.states[4].docs[id], locale, GenreContext)
  {
    var d := TranslatedDraft(book, ana, locale, v);
    t := DraftTranslated(id, book, ana, locale, v);
    t := ThenStarted(t, id, d, ana);
    t := ThenFinished(t, id, d.(status := Generating), map[GenreContext := written]);
    GenreCached(book, ana, locale, v);
    WriteMakesStale(d.(status := Generating), locale, written);
  }
}
