/** Runs, one for each kind of call, that take a complete translation cache to one with a gap. */
module BookContextGaps {
  import opened Options
  import opened BookContext
  import opened BookContextCoverage
  import opened BookContextScenario
  import opened BookContextStale

  /** The run's last call leaves a gap in a cache that was complete before. */
  ghost predicate OpensGap(t: Run) {
    IsRun(t) && t.ops != [] && Covered(Before(t)) && !Covered(t.states[|t.ops|])
  }

  function LastOp(t: Run): Op
    requires t.ops != []
  {
    t.ops[|t.ops| - 1]
  }

  /** The state before the last call. */
  function Before(t: Run): Store
    requires t.ops != [] && |t.states| == |t.ops| + 1
  {
    t.states[|t.ops| - 1]
  }

  lemma {:induction false} OnlyCovered(id: string, d: Doc)
    requires CoveredDoc(d)
    ensures Covered(Only(id, d))
  {}

  lemma {:induction false} Break(t: Run, id: string, d: Doc, op: Op) returns (u: Run)
    requires EndsWith(t, id, d) && CoveredDoc(d) && Uncovers(Only(id, d), op)
    ensures OpensGap(u) && |u.ops| == |t.ops| + 1 && LastOp(u) == op && Before(u) == Only(id, d)
  {
    OnlyCovered(id, d);
    CoveredUnless(Only(id, d), op);
    u := Extend(t, Only(id, d), op, After(Only(id, d), op));
  }

  /** Nothing is translated yet. */
  lemma {:induction false} NothingCached(d: Doc)
    requires d.translations == map[]
    ensures CoveredDoc(d)
  {}

  lemma {:induction false} GenreOnly(book: string, ana: string)
    ensures forall k :: Present(NewDraft(book, ana), k) <==> k == GenreContext
  {}

  lemma {:induction false} GenreCovers(book: string, ana: string, locale: string, v: Json, d: Doc)
    requires d.sections == NewDraft(book, ana).sections
    requires d.translations == TranslatedDraft(book, ana, locale, v).translations
    ensures CoveredDoc(d) && d.translations.Keys == {locale} && CachedEntry(d, locale, Places) == None
  {
    GenreOnly(book, ana);
    GenreCached(book, ana, locale, v);
    forall l, k ensures !Lacks(d, l, k) {
      if Present(d, k) { assert Present(NewDraft(book, ana), k); }
    }
  }

  // ---- A save from English with a complete other locale ------------------------------------

  function TwoSections(v: Json, w: Json): map<Section, Json> {
    map[GenreContext := v, Places := w]
  }

  function WithPlaces(book: string, ana: string, places: Json): Doc {
    Write(Held(NewDraft(book, ana), ana), Places, places)
  }

  lemma {:induction false} PlacesSaved(id: string, book: string, ana: string, places: Json) returns (t: Run)
    ensures EndsWith(t, id, WithPlaces(book, ana, places)) && |t.ops| == 3
  {
    t := FirstCreated(id, book, ana);
    t := ThenLocked(t, id, NewDraft(book, ana), ana);
    t := ThenSaved(t, id, Held(NewDraft(book, ana), ana), Places, ana, places);
  }

  lemma {:induction false} BothCovered(book: string, ana: string, places: Json, locale: string, v: Json, w: Json)
    ensures var d := TranslatedTo(WithPlaces(book, ana, places), locale, Translated(TwoSections(v, w)));
      CoveredDoc(d) && locale in d.translations && KeptAfterDrop(d.translations[locale], GenreContext)
  {
    var d := TranslatedTo(WithPlaces(book, ana, places), locale, Translated(TwoSections(v, w)));
    GenreOnly(book, ana);
    forall l, k ensures !Lacks(d, l, k) {
      if Present(d, k) && k != Places { assert Present(NewDraft(book, ana), k); }
    }
    assert Places in d.translations[locale].entries - {GenreContext};
  }

  /** For any foreign locale: translated in full, then one section is saved from English. */
  lemma {:induction false} SaveOpensGap(id: string, book: string, ana: string, locale: string, places: Json, v: Json,
                                        w: Json, data: Json) returns (t: Run)
    requires locale != EN && data != Null
    ensures OpensGap(t) && |t.ops| == 5 && SavesOverOthers(Before(t), LastOp(t))
  {
    var reply := Translated(TwoSections(v, w));
    var d := TranslatedTo(WithPlaces(book, ana, places), locale, reply);
    t := PlacesSaved(id, book, ana, places);
    t := ThenTranslated(t, id, WithPlaces(book, ana, places), locale, reply);
    BothCovered(book, ana, places, locale, v, w);
    SaveUncovers(id, d, ana, locale, data);
    t := Break(t, id, d, UpdateSection(id, GenreContext, data, ana, EN, None));
  }

  lemma {:induction false} SaveUncovers(id: string, d: Doc, user: string, locale: string, data: Json)
    requires d.status == Draft && d.lockedBy == Some(user) && data != Null && locale != EN
    requires locale in d.translations && KeptAfterDrop(d.translations[locale], GenreContext)
    ensures SavesOverOthers(Only(id, d), UpdateSection(id, GenreContext, data, user, EN, None))
  {
    assert LosesOnlyPart(d, UpdateSection(id, GenreContext, data, user, EN, None), locale);
  }

  // ---- The four other kinds ----------------------------------------------------------------

  lemma {:induction false} FirstSaveUncovers(id: string, d: Doc, user: string, locale: string, data: Json,
                                             english: Json)
    requires d.status == Draft && d.lockedBy == Some(user) && d.translations == map[] && Foreign(locale)
    requires Present(d, GenreContext)
    ensures SavesFirst(Only(id, d), UpdateSection(id, Places, data, user, locale, Some(english)))
  {}

  /** A first save from a locale that was never translated. */
  lemma {:induction false} FirstSaveOpensGap(id: string, book: string, ana: string, locale: string, data: Json,
                                             english: Json) returns (t: Run)
    requires Foreign(locale)
    ensures OpensGap(t) && |t.ops| == 3 && SavesFirst(Before(t), LastOp(t))
  {
    var d := Held(NewDraft(book, ana), ana);
    t := FirstCreated(id, book, ana);
    t := ThenLocked(t, id, NewDraft(book, ana), ana);
    GenreOnly(book, ana);
    assert Present(NewDraft(book, ana), GenreContext);
    NothingCached(d);
    FirstSaveUncovers(id, d, ana, locale, data, english);
    t := Break(t, id, d, UpdateSection(id, Places, data, ana, locale, Some(english)));
  }

  lemma {:induction false} EnglishSaveUncovers(id: string, d: Doc, user: string, data: Json)
    requires d.status == Draft && d.lockedBy == Some(user) && data != Null
    requires EN in d.translations && CachedEntry(d, EN, Places) == None
    ensures SavesBesideOwn(Only(id, d), UpdateSection(id, Places, data, user, EN, None))
  {}

  /** A cached translation into English, and a new section saved from English. */
  lemma {:induction false} EnglishSaveOpensGap(id: string, book: string, ana: string, v: Json, data: Json)
    returns (t: Run)
    requires data != Null
    ensures OpensGap(t) && |t.ops| == 4 && SavesBesideOwn(Before(t), LastOp(t))
  {
    var d := Held(TranslatedDraft(book, ana, EN, v), ana);
    t := DraftTranslated(id, book, ana, EN, v);
    t := ThenLocked(t, id, TranslatedDraft(book, ana, EN, v), ana);
    GenreCovers(book, ana, EN, v, d);
    EnglishSaveUncovers(id, d, ana, data);
    t := Break(t, id, d, UpdateSection(id, Places, data, ana, EN, None));
  }

  lemma {:induction false} GenerationUncovers(id: string, d: Doc, locale: string, written: Json)
    requires d.status == Generating && written != Null
    requires locale in d.translations && CachedEntry(d, locale, Places) == None
    ensures GeneratesUncached(Only(id, d), FinishGeneration(id, Some(map[Places := written])))
  {
    assert WritesUncached(d, StoredSections(map[Places := written]), locale, Places);
  }

  /** A generation in place writes a section that was not there when the locale was translated. */
  lemma {:induction false} GenerationOpensGap(id: string, book: string, ana: string, locale: string, v: Json,
                                              written: Json) returns (t: Run)
    requires written != Null
    ensures OpensGap(t) && |t.ops| == 4 && GeneratesUncached(Before(t), LastOp(t))
  {
    var d := TranslatedDraft(book, ana, locale, v).(status := Generating);
    t := DraftTranslated(id, book, ana, locale, v);
    t := ThenStarted(t, id, TranslatedDraft(book, ana, locale, v), ana);
    GenreCovers(book, ana, locale, v, d);
    GenerationUncovers(id, d, locale, written);
    t := Break(t, id, d, FinishGeneration(id, Some(map[Places := written])));
  }

  lemma {:induction false} AnswerUncovers(id: string, d: Doc, locale: string)
    requires d.translations == map[] && Present(d, GenreContext)
    ensures AnswersPartly(Only(id, d), Translate(id, locale, Some(Translated(map[]))))
  {
    assert !Answers(Translated(map[]), GenreContext);
  }

  /** The translator returns nothing for the genre. */
  lemma {:induction false} AnswerOpensGap(id: string, book: string, ana: string, locale: string) returns (t: Run)
    ensures OpensGap(t) && |t.ops| == 2 && AnswersPartly(Before(t), LastOp(t))
  {
    t := FirstCreated(id, book, ana);
    GenreOnly(book, ana);
    NothingCached(NewDraft(book, ana));
    AnswerUncovers(id, NewDraft(book, ana), locale);
    t := Break(t, id, NewDraft(book, ana), Translate(id, locale, Some(Translated(map[]))));
  }
}
