/**
  Which sections a cached locale offers. A cached locale is served as it is, so a reader gets all of a
  document only while the cache covers it.
*/
module BookContextCoverage {
  import opened Options
  import opened BookContext
  import opened BookContextSafety
  import opened BookContextTranslations

  predicate Translatable(k: Section) {
    k in TRANSLATABLE_SECTIONS
  }

  /** A section that a translation of the document should contain. */
  predicate Present(d: Doc, k: Section) {
    Translatable(k) && Get(d, k) != Null
  }

  /** The locale is cached, but not this section of it. */
  predicate Lacks(d: Doc, l: string, k: Section) {
    l in d.translations && Present(d, k) && CachedEntry(d, l, k) == None
  }

  ghost predicate CoveredDoc(d: Doc) {
    forall l, k :: !Lacks(d, l, k)
  }

  /** Every cached locale has an entry for every section there is to translate. */
  ghost predicate Covered(s: Store) {
    forall x :: x in s.docs ==> CoveredDoc(s.docs[x])
  }

  // ---- The calls that leave a gap ----------------------------------------------------------

  /** What a save stores as the English section. */
  function SavedValue(op: Op): Json
    requires op.UpdateSection?
  {
    var value := EnglishOf(op.data, op.locale, op.english);
    if value.Some? then value.value else Null
  }

  ghost predicate Saves(s: Store, op: Op) {
    op.UpdateSection? && ReplyTo(s, op).Ok?
  }

  /** A save while another locale has the section's fellows cached: only the saved section is dropped. */
  ghost predicate SavesOverOthers(s: Store, op: Op) {
    && Saves(s, op) && Translatable(op.section) && SavedValue(op) != Null
    && exists l :: LosesOnlyPart(s.docs[op.id], op, l)
  }

  predicate LosesOnlyPart(d: Doc, op: Op, l: string)
    requires op.UpdateSection?
  {
    l in d.translations && l != op.locale && KeptAfterDrop(d.translations[l], op.section)
  }

  /** A first save from a foreign locale that is not cached: its cache starts with one section only. */
  ghost predicate SavesFirst(s: Store, op: Op) {
    && Saves(s, op) && Foreign(op.locale) && op.locale !in s.docs[op.id].translations
    && exists k :: k != op.section && Present(s.docs[op.id], k)
  }

  /** A save from a non-foreign locale that is itself cached without the section. */
  ghost predicate SavesBesideOwn(s: Store, op: Op) {
    && Saves(s, op) && !Foreign(op.locale) && op.locale in s.docs[op.id].translations
    && Translatable(op.section) && SavedValue(op) != Null && CachedEntry(s.docs[op.id], op.locale, op.section) == None
  }

  /** A finished generation writes a section that a cached locale does not have. */
  ghost predicate GeneratesUncached(s: Store, op: Op) {
    && op.FinishGeneration? && op.written.Some? && ReplyTo(s, op).Ok?
    && exists l, k :: WritesUncached(s.docs[op.id], StoredSections(op.written.value), l, k)
  }

  predicate WritesUncached(d: Doc, values: map<Section, Json>, l: string, k: Section) {
    l in d.translations && k in values && Translatable(k) && values[k] != Null && CachedEntry(d, l, k) == None
  }

  /** The translator's answer for an uncached locale omits a section. */
  ghost predicate AnswersPartly(s: Store, op: Op) {
    && op.Translate? && ReplyTo(s, op).Ok? && op.language !in s.docs[op.id].translations
    && exists k :: Present(s.docs[op.id], k) && !Answers(op.reply.value, k)
  }

  predicate Answers(reply: LocaleReply, k: Section) {
    reply.Translated? && k in reply.values
  }

  ghost predicate Uncovers(s: Store, op: Op) {
    SavesOverOthers(s, op) || SavesFirst(s, op) || SavesBesideOwn(s, op) || GeneratesUncached(s, op)
      || AnswersPartly(s, op)
  }

  // ---- Exactly these calls -----------------------------------------------------------------

  lemma {:induction false} UpdateGet(s: Store, op: Op, k: Section)
    requires Saves(s, op)
    ensures Get(After(s, op).docs[op.id], k) == if k == op.section then SavedValue(op) else Get(s.docs[op.id], k)
  {}

  lemma {:induction false} UpdateLocales(s: Store, op: Op, l: string)
    requires Saves(s, op)
    ensures l in After(s, op).docs[op.id].translations <==>
      if l == op.locale then Foreign(l) || l in s.docs[op.id].translations else LosesOnlyPart(s.docs[op.id], op, l)
  {}

  /** The document's own language has a cache without the section. */
  predicate MissesOwn(d: Doc, l: string, k: Section) {
    !Foreign(l) && l in d.translations && CachedEntry(d, l, k) == None
  }

  /** Where a save leaves a gap, for every locale and section. */
  lemma {:induction false} UpdateLacks(s: Store, op: Op, l: string, k: Section)
    requires Saves(s, op) && CoveredDoc(s.docs[op.id])
    ensures var d := s.docs[op.id];
      Lacks(After(s, op).docs[op.id], l, k) <==>
        if k != op.section then l == op.locale && Foreign(l) && l !in d.translations && Present(d, k)
        else if l != op.locale then LosesOnlyPart(d, op, l) && Translatable(k) && SavedValue(op) != Null
        else MissesOwn(d, l, k) && Translatable(k) && SavedValue(op) != Null
  {
    assert !Lacks(s.docs[op.id], l, k);
    UpdateGet(s, op, k);
    UpdateLocales(s, op, l);
    UpdateEntries(s, op, l, k);
  }

  lemma {:induction false} UpdateCoverage(s: Store, op: Op)
    requires Saves(s, op) && CoveredDoc(s.docs[op.id])
    ensures CoveredDoc(After(s, op).docs[op.id]) <==>
      !SavesOverOthers(s, op) && !SavesFirst(s, op) && !SavesBesideOwn(s, op)
  {
    var d, after := s.docs[op.id], After(s, op).docs[op.id];
    if SavesOverOthers(s, op) {
      var l :| LosesOnlyPart(d, op, l);
      UpdateLacks(s, op, l, op.section);
    }
    if SavesFirst(s, op) {
      var k :| k != op.section && Present(d, k);
      UpdateLacks(s, op, op.locale, k);
    }
    if SavesBesideOwn(s, op) { UpdateLacks(s, op, op.locale, op.section); }
    if l, k :| Lacks(after, l, k) { UpdateLacks(s, op, l, k); }
  }

  lemma {:induction false} FinishLacks(s: Store, op: Op, l: string, k: Section)
    requires op.FinishGeneration? && op.written.Some? && ReplyTo(s, op).Ok? && CoveredDoc(s.docs[op.id])
    ensures Lacks(After(s, op).docs[op.id], l, k) <==>
      WritesUncached(s.docs[op.id], StoredSections(op.written.value), l, k)
  {
    assert !Lacks(s.docs[op.id], l, k);
  }

  lemma {:induction false} FinishCoverage(s: Store, op: Op)
    requires op.FinishGeneration? && ReplyTo(s, op).Ok? && CoveredDoc(s.docs[op.id])
    ensures CoveredDoc(After(s, op).docs[op.id]) <==> !GeneratesUncached(s, op)
  {
    var after := After(s, op).docs[op.id];
    if op.written.None? {
      forall l, k ensures !Lacks(after, l, k) { assert !Lacks(s.docs[op.id], l, k); }
    } else {
      forall l, k
        ensures Lacks(after, l, k) <==> WritesUncached(s.docs[op.id], StoredSections(op.written.value), l, k)
      {
        FinishLacks(s, op, l, k);
      }
    }
  }

  lemma {:induction false} TranslateLacks(s: Store, op: Op, l: string, k: Section)
    requires op.Translate? && ReplyTo(s, op).Ok? && CoveredDoc(s.docs[op.id])
    ensures Lacks(After(s, op).docs[op.id], l, k) <==>
      (l == op.language && l !in s.docs[op.id].translations && Present(s.docs[op.id], k) && !Answers(op.reply.value, k))
  {
    assert !Lacks(s.docs[op.id], l, k);
  }

  lemma {:induction false} TranslateCoverage(s: Store, op: Op)
    requires op.Translate? && ReplyTo(s, op).Ok? && CoveredDoc(s.docs[op.id])
    ensures CoveredDoc(After(s, op).docs[op.id]) <==> !AnswersPartly(s, op)
  {
    var after := After(s, op).docs[op.id];
    if AnswersPartly(s, op) {
      var k :| Present(s.docs[op.id], k) && !Answers(op.reply.value, k);
      TranslateLacks(s, op, op.language, k);
    }
    if l, k :| Lacks(after, l, k) { TranslateLacks(s, op, l, k); }
  }

  lemma {:induction false} OtherCoverage(s: Store, after: Store)
    requires Covered(s) && ContentKept(s, after)
    ensures Covered(after)
  {
    forall x, l, k | x in after.docs ensures !Lacks(after.docs[x], l, k) {
      assert FromBefore(s, x, after.docs[x]);
      if x in s.docs { assert !Lacks(s.docs[x], l, k); }
    }
  }

  lemma {:induction false} OneDocCoverage(s: Store, id: string, d: Doc)
    requires Covered(s) && id in s.docs
    ensures Covered(Put(s, id, d)) <==> CoveredDoc(d)
  {
    assert Put(s, id, d).docs[id] == d;
  }

  lemma {:induction false} ContentPut(s: Store, op: Op)
    requires !LeavesContent(op) && ReplyTo(s, op).Ok?
    ensures op.id in s.docs && After(s, op) == Put(s, op.id, After(s, op).docs[op.id])
  {
    if op.Translate? && op.language in s.docs[op.id].translations {
      assert s.docs == s.docs[op.id := s.docs[op.id]];
    }
  }

  lemma {:induction false} ContentCoverage(s: Store, op: Op)
    requires Covered(s) && !LeavesContent(op) && ReplyTo(s, op).Ok?
    ensures Covered(After(s, op)) <==> !Uncovers(s, op)
  {
    ContentPut(s, op);
    OneDocCoverage(s, op.id, After(s, op).docs[op.id]);
    assert CoveredDoc(s.docs[op.id]);
    if op.UpdateSection? { UpdateCoverage(s, op); }
    else if op.FinishGeneration? { FinishCoverage(s, op); }
    else { TranslateCoverage(s, op); }
  }

  /** A call leaves every cached locale complete exactly when it is none of the five above. */
  lemma {:induction false} CoveredUnless(s: Store, op: Op)
    requires Covered(s)
    ensures Covered(After(s, op)) <==> !Uncovers(s, op)
  {
    if LeavesContent(op) {
      StepKeepsContent(s, op);
      OtherCoverage(s, After(s, op));
    } else if ReplyTo(s, op).Ok? {
      ContentCoverage(s, op);
    }
  }

  /** In a run without those calls every cached locale is served with all sections there are. */
  lemma {:induction false} RunIsCovered(t: Run, n: nat)
    requires IsRun(t) && n < |t.states|
    requires forall i :: 0 <= i < n ==> !Uncovers(t.states[i], t.ops[i])
    ensures Covered(t.states[n])
  {
    if n > 0 {
      RunIsCovered(t, n - 1);
      CoveredUnless(t.states[n - 1], t.ops[n - 1]);
    }
  }

  lemma {:induction false} CoveredServesAll(s: Store, id: string, l: string, k: Section, reply: Option<LocaleReply>)
    requires Covered(s) && id in s.docs && l in s.docs[id].translations && Present(s.docs[id], k)
    ensures ReplyTo(s, Translate(id, l, reply)) == Ok(s) && CachedEntry(s.docs[id], l, k).Some?
  {
    assert !Lacks(s.docs[id], l, k);
  }

  // ---- How long a gap lasts ----------------------------------------------------------------

  /** The save that brings a missing section of a cached locale back: one of that section from that locale. */
  ghost predicate Refills(s: Store, op: Op, id: string, l: string, k: Section) {
    Saves(s, op) && op.id == id && op.section == k && op.locale == l && Foreign(l)
  }

  /** While the locale stays cached, a missing section comes back by such a save and by nothing else. */
  lemma {:induction false} RefilledIff(s: Store, op: Op, id: string, l: string, k: Section)
    requires id in s.docs && l in s.docs[id].translations && CachedEntry(s.docs[id], l, k) == None
    requires id in After(s, op).docs && l in After(s, op).docs[id].translations
    ensures CachedEntry(After(s, op).docs[id], l, k).Some? <==> Refills(s, op, id, l, k)
  {
    if Saves(s, op) && op.id == id {
      UpdateEntries(s, op, l, k);
    } else if LeavesContent(op) {
      StepKeepsContent(s, op);
      assert FromBefore(s, id, After(s, op).docs[id]);
    } else {
      ContentCallKeepsEntry(s, op, id, l, k);
    }
  }

  /**
    A gap lasts over any stretch of any run: as long as some other section of the locale is not saved
    and the missing one is not saved from that very locale, the section stays missing and every
    request for a translation is answered without it and changes nothing.
  */
  lemma {:induction false} GapLasts(t: Run, i: nat, j: nat, id: string, l: string, k: Section, other: Section,
                                    reply: Option<LocaleReply>)
    requires IsRun(t) && i <= j < |t.states|
    requires id in t.states[i].docs && CachedEntry(t.states[i].docs[id], l, k) == None
    requires CachedEntry(t.states[i].docs[id], l, other).Some?
    requires forall q :: i <= q < j ==> !Displaces(t.states[q], t.ops[q], id, other)
    requires forall q :: i <= q < j ==> !Refills(t.states[q], t.ops[q], id, l, k)
    ensures id in t.states[j].docs && CachedEntry(t.states[j].docs[id], l, k) == None
    ensures ReplyTo(t.states[j], Translate(id, l, reply)) == Ok(t.states[j])
    decreases j - i
  {
    if i < j {
      CallKeepsEntry(t, i, id, l, other);
      assert t.states[i + 1] == After(t.states[i], t.ops[i]);
      RefilledIff(t.states[i], t.ops[i], id, l, k);
      GapLasts(t, i + 1, j, id, l, k, other, reply);
    }
  }

  /** After a save from another locale the section is missing, and the locale is served without it. */
  lemma {:induction false} DroppedSectionStaysMissing(s: Store, op: Op, l: string, other: Section,
                                                      reply: Option<LocaleReply>)
    requires Saves(s, op) && l != op.locale
    requires other != op.section && CachedEntry(s.docs[op.id], l, other).Some?
    ensures CachedEntry(After(s, op).docs[op.id], l, op.section) == None
    ensures CachedEntry(After(s, op).docs[op.id], l, other).Some?
    ensures ReplyTo(After(s, op), Translate(op.id, l, reply)) == Ok(After(s, op))
  {
    UpdateEntries(s, op, l, op.section);
    UpdateEntries(s, op, l, other);
  }

  /** After a first save from an uncached foreign locale every other section is missing from that locale. */
  lemma {:induction false} FirstSaveServesOne(s: Store, op: Op, k: Section, reply: Option<LocaleReply>)
    requires Saves(s, op) && Foreign(op.locale) && op.locale !in s.docs[op.id].translations && k != op.section
    ensures CachedEntry(After(s, op).docs[op.id], op.locale, k) == None
    ensures CachedEntry(After(s, op).docs[op.id], op.locale, op.section).Some?
    ensures ReplyTo(After(s, op), Translate(op.id, op.locale, reply)) == Ok(After(s, op))
  {
    UpdateEntries(s, op, op.locale, k);
    UpdateEntries(s, op, op.locale, op.section);
  }

  /**
    A section dropped by a save from another locale is served again by the next translation if and
    only if it was all that the locale had cached.
  */
  lemma {:induction false} ServedAgainIff(s: Store, op: Op, l: string, values: map<Section, Json>)
    requires Saves(s, op) && l != op.locale && op.section in values
    requires CachedEntry(s.docs[op.id], l, op.section).Some?
    ensures var again := After(After(s, op), Translate(op.id, l, Some(Translated(values)))).docs[op.id];
      CachedEntry(again, l, op.section).Some? <==> !KeptAfterDrop(s.docs[op.id].translations[l], op.section)
  {
    UpdateLocales(s, op, l);
    UpdateEntries(s, op, l, op.section);
    var mid, again := After(s, op), Translate(op.id, l, Some(Translated(values)));
    if l in mid.docs[op.id].translations {
      RefilledIff(mid, again, op.id, l, op.section);
    } else {
      TranslatedNow(mid, op.id, l, values);
    }
  }

  lemma {:induction false} TranslatedNow(s: Store, id: string, l: string, values: map<Section, Json>)
    requires id in s.docs && l !in s.docs[id].translations
    ensures var after := After(s, Translate(id, l, Some(Translated(values)))).docs[id];
      forall k :: CachedEntry(after, l, k).Some? <==> k in values
  {}
}
