/** The translation cache over whole runs: which entries are current and which survive. */
module BookContextTranslations {
  import opened Options
  import opened BookContext
  import opened BookContextSafety

  /** The entry was derived from a version of the English section that has been overwritten since. */
  predicate StaleEntry(d: Doc, l: string, k: Section) {
    CachedEntry(d, l, k).Some? && CachedEntry(d, l, k).value.derivedAt != Edits(d, k)
  }

  /** Every cached entry was derived from the English section as it stands now. */
  ghost predicate CoherentDoc(d: Doc) {
    forall l, k :: !StaleEntry(d, l, k)
  }

  ghost predicate Coherent(s: Store) {
    forall x :: x in s.docs ==> CoherentDoc(s.docs[x])
  }

  /** A save from "en" while a cache for that very locale holds the section: the loop skips it. */
  ghost predicate SkipsOwnCache(s: Store, op: Op) {
    && op.UpdateSection? && !Foreign(op.locale) && ReplyTo(s, op).Ok?
    && CachedEntry(s.docs[op.id], op.locale, op.section).Some?
  }

  /** A finished generation writes a section that some locale has cached. */
  ghost predicate GeneratesOverCache(s: Store, op: Op) {
    && op.FinishGeneration? && op.written.Some? && ReplyTo(s, op).Ok?
    && exists l, k :: k in StoredSections(op.written.value) && CachedEntry(s.docs[op.id], l, k).Some?
  }

  // ---- Calls that leave sections and translations alone ------------------------------------

  predicate LeavesContent(op: Op) {
    !op.UpdateSection? && !op.FinishGeneration? && !op.Translate?
  }

  /** The document has the content it had before, or is new and has no translations. */
  predicate FromBefore(s: Store, x: string, e: Doc) {
    if x in s.docs then SameContent(s.docs[x], e) else e.translations == map[]
  }

  predicate SameContent(d: Doc, e: Doc) {
    e.sections == d.sections && e.edits == d.edits && e.translations == d.translations
  }

  ghost predicate ContentKept(s: Store, after: Store) {
    forall x :: x in after.docs ==> FromBefore(s, x, after.docs[x])
  }

  /** Content kept, and no document gone. */
  ghost predicate AllKept(s: Store, after: Store) {
    ContentKept(s, after) && s.docs.Keys <= after.docs.Keys
  }

  lemma {:induction false} InsertKeeps(s: Store, newId: string, d: Doc)
    requires d.translations == map[]
    ensures AllKept(s, Left(s, Insert(s, newId, d)))
  {}

  lemma {:induction false} PutKeeps(s: Store, id: string, d: Doc)
    requires id in s.docs && SameContent(s.docs[id], d)
    ensures AllKept(s, Put(s, id, d))
  {}

  lemma {:induction false} CreateKeeps(s: Store, newId: string, book: string, user: string, genre: string,
                                       rangeStart: Option<int>, rangeEnd: Option<int>)
    ensures AllKept(s, Left(s, ReplyCreate(s, newId, book, user, genre, rangeStart, rangeEnd)))
  {
    var version := MaxVersion(VersionsInRange(s, book, rangeStart, rangeEnd)) + 1;
    var sections := map[GenreContext := Object(genre)];
    InsertKeeps(s, newId, NewDoc(book, version, rangeStart, rangeEnd, Draft, user, sections));
  }

  lemma {:induction false} NewVersionKeeps(s: Store, id: string, newId: string, user: string)
    ensures AllKept(s, Left(s, ReplyNewVersion(s, id, newId, user)))
  {
    if id in s.docs {
      var d := s.docs[id];
      InsertKeeps(s, newId, NewDoc(d.book, d.version + 1, d.rangeStart, d.rangeEnd, Draft, user, d.sections));
    }
  }

  lemma {:induction false} StartKeeps(s: Store, id: string, newId: string, user: string)
    ensures AllKept(s, Left(s, ReplyStartGeneration(s, id, newId, user)))
  {
    if id in s.docs {
      var d := s.docs[id];
      InsertKeeps(s, newId, NewDoc(d.book, d.version + 1, d.rangeStart, d.rangeEnd, Generating, user,
                                   map[GenreContext := Get(d, GenreContext)]));
      PutKeeps(s, id, Unlocked(d).(status := Generating));
    }
  }

  lemma {:induction false} ApproveKeeps(s: Store, id: string, user: string, roles: seq<Role>, locale: string)
    ensures AllKept(s, Left(s, ReplyApprove(s, id, user, roles, locale)))
  {
    if ReplyApprove(s, id, user, roles, locale).Ok? {
      var d, all := s.docs[id], s.docs[id].approvals + [Approval(user, Capable(roles)[0], Capable(roles), locale)];
      PutKeeps(s, id, d.(approvals := all, status := Review));
      PutKeeps(s, id,
        Unlocked(d).(approvals := all, status := Approved, active := d.active || !BookHasActive(s, d.book)));
    }
  }

  lemma {:induction false} SetActiveKeeps(s: Store, id: string)
    ensures AllKept(s, Left(s, ReplySetActive(s, id)))
  {}

  lemma {:induction false} RequestRevisionKeeps(s: Store, id: string, role: Role)
    ensures AllKept(s, Left(s, ReplyRequestRevision(s, id, role)))
  {}

  lemma {:induction false} LockKeeps(s: Store, id: string, user: string, now: int)
    ensures AllKept(s, Left(s, ReplyLock(s, id, user, now)))
  {}

  lemma {:induction false} UnlockKeeps(s: Store, id: string, user: string, isAdmin: bool)
    ensures AllKept(s, Left(s, ReplyUnlock(s, id, user, isAdmin)))
  {}

  lemma {:induction false} DeleteUserKeeps(s: Store, user: string)
    ensures AllKept(s, Left(s, ReplyDeleteUser(s, user)))
  {}

  lemma {:induction false} CancelKeeps(s: Store, id: string)
    ensures ContentKept(s, Left(s, ReplyCancelGeneration(s, id)))
  {}

  lemma {:induction false} StepKeepsContent(s: Store, op: Op)
    requires LeavesContent(op)
    ensures ContentKept(s, After(s, op)) && (op.CancelGeneration? || AllKept(s, After(s, op)))
  {
    match op
    case Create(newId, book, user, genre, a, b) => CreateKeeps(s, newId, book, user, genre, a, b);
    case NewVersion(id, newId, user) => NewVersionKeeps(s, id, newId, user);
    case StartGeneration(id, newId, user) => StartKeeps(s, id, newId, user);
    case Approve(id, user, roles, locale) => ApproveKeeps(s, id, user, roles, locale);
    case SetActive(id) => SetActiveKeeps(s, id);
    case RequestRevision(id, role) => RequestRevisionKeeps(s, id, role);
    case Lock(id, user, now) => LockKeeps(s, id, user, now);
    case Unlock(id, user, isAdmin) => UnlockKeeps(s, id, user, isAdmin);
    case DeleteUser(user) => DeleteUserKeeps(s, user);
    case CancelGeneration(id) => CancelKeeps(s, id);
  }

  // ---- Saves, translations and generations -------------------------------------------------

  lemma {:induction false} OtherLocale(d: Doc, saved: Section, locale: string, payload: Json, stamp: nat, l: string)
    requires l != locale
    ensures var after := Reconciled(d, saved, locale, payload, stamp);
      && (l in after <==> l in d.translations && KeptAfterDrop(d.translations[l], saved))
      && (l in after ==> after[l] == Dropped(d.translations[l], saved))
  {}

  /** The locales other than the saving one lose the saved section and nothing else. */
  lemma {:induction false} OtherLocaleEntry(d: Doc, saved: Section, locale: string, payload: Json, stamp: nat,
                                            l: string, k: Section)
    requires l != locale
    ensures EntryIn(Reconciled(d, saved, locale, payload, stamp), l, k) ==
      if k == saved then None else EntryIn(d.translations, l, k)
  {
    OtherLocale(d, saved, locale, payload, stamp, l);
    if l in d.translations && d.translations[l].Cached? {
      var entries := d.translations[l].entries;
      assert k in entries - {saved} <==> k in entries && k != saved;
    }
  }

  lemma {:induction false} OwnLocaleEntry(d: Doc, saved: Section, locale: string, payload: Json, stamp: nat, k: Section)
    ensures EntryIn(Reconciled(d, saved, locale, payload, stamp), locale, k) ==
      if k == saved && Foreign(locale) then Some(Entry(payload, stamp)) else EntryIn(d.translations, locale, k)
  {
    var after := Reconciled(d, saved, locale, payload, stamp);
    if Foreign(locale) {
      assert after[locale] == Cached(OwnCache(d, locale)[saved := Entry(payload, stamp)]);
    } else {
      assert locale in after <==> locale in d.translations;
    }
  }

  /** What a save does to each single entry, for every locale and section. */
  lemma {:induction false} UpdateEntries(s: Store, op: Op, l: string, k: Section)
    requires op.UpdateSection? && ReplyTo(s, op).Ok?
    ensures CachedEntry(After(s, op).docs[op.id], l, k) ==
      if k != op.section then CachedEntry(s.docs[op.id], l, k)
      else if l != op.locale then None
      else if Foreign(l) then Some(Entry(op.data, Edits(s.docs[op.id], k) + 1))
      else CachedEntry(s.docs[op.id], l, k)
  {
    var d, stamp := s.docs[op.id], Edits(s.docs[op.id], op.section) + 1;
    if l == op.locale {
      OwnLocaleEntry(d, op.section, op.locale, op.data, stamp, k);
    } else {
      OtherLocaleEntry(d, op.section, op.locale, op.data, stamp, l, k);
    }
    assert After(s, op).docs[op.id].translations == Reconciled(d, op.section, op.locale, op.data, stamp);
  }

  lemma {:induction false} UpdateEdits(s: Store, op: Op, k: Section)
    requires op.UpdateSection? && ReplyTo(s, op).Ok?
    ensures Edits(After(s, op).docs[op.id], k) == Edits(s.docs[op.id], k) + if k == op.section then 1 else 0
  {}

  lemma {:induction false} FinishEdits(s: Store, op: Op, k: Section)
    requires op.FinishGeneration? && ReplyTo(s, op).Ok?
    ensures Edits(After(s, op).docs[op.id], k) ==
      Edits(s.docs[op.id], k) + if op.written.Some? && k in StoredSections(op.written.value) then 1 else 0
    ensures forall l :: CachedEntry(After(s, op).docs[op.id], l, k) == CachedEntry(s.docs[op.id], l, k)
  {}

  lemma {:induction false} UpdateCoherence(s: Store, op: Op)
    requires Coherent(s) && op.UpdateSection? && ReplyTo(s, op).Ok?
    ensures Coherent(After(s, op)) <==> !SkipsOwnCache(s, op)
  {
    var before, after := s.docs[op.id], After(s, op).docs[op.id];
    forall l, k
      ensures StaleEntry(after, l, k) <==> SkipsOwnCache(s, op) && l == op.locale && k == op.section
    {
      assert !StaleEntry(before, l, k);
      UpdateEntries(s, op, l, k);
      UpdateEdits(s, op, k);
    }
    if SkipsOwnCache(s, op) { assert StaleEntry(after, op.locale, op.section); }
    assert CoherentDoc(after) <==> !SkipsOwnCache(s, op);
  }

  lemma {:induction false} FinishCoherence(s: Store, op: Op)
    requires Coherent(s) && op.FinishGeneration? && ReplyTo(s, op).Ok?
    ensures Coherent(After(s, op)) <==> !GeneratesOverCache(s, op)
  {
    var before, after := s.docs[op.id], After(s, op).docs[op.id];
    forall l, k
      ensures StaleEntry(after, l, k)
         <==> CachedEntry(before, l, k).Some? && op.written.Some? && k in StoredSections(op.written.value)
    {
      assert !StaleEntry(before, l, k);
      FinishEdits(s, op, k);
    }
    assert CoherentDoc(after) <==> !GeneratesOverCache(s, op);
  }

  lemma {:induction false} TranslateCoherence(s: Store, op: Op)
    requires Coherent(s) && op.Translate?
    ensures Coherent(After(s, op))
  {
    var after := Left(s, ReplyTranslate(s, op.id, op.language, op.reply));
    forall x, l, k | x in after.docs ensures !StaleEntry(after.docs[x], l, k) {
      assert !StaleEntry(s.docs[x], l, k);
    }
  }

  lemma {:induction false} OtherCoherence(s: Store, after: Store)
    requires Coherent(s) && ContentKept(s, after)
    ensures Coherent(after)
  {
    forall x, l, k | x in after.docs ensures !StaleEntry(after.docs[x], l, k) {
      assert FromBefore(s, x, after.docs[x]);
      if x in s.docs { assert !StaleEntry(s.docs[x], l, k); }
    }
  }

  /** A call leaves the cache coherent exactly when it does neither of the two things above. */
  lemma {:induction false} CoherentUnless(s: Store, op: Op)
    requires Coherent(s)
    ensures Coherent(After(s, op)) <==> !SkipsOwnCache(s, op) && !GeneratesOverCache(s, op)
  {
    if ReplyTo(s, op).Ok? {
      if op.UpdateSection? { UpdateCoherence(s, op); }
      else if op.FinishGeneration? { FinishCoherence(s, op); }
      else if op.Translate? { TranslateCoherence(s, op); }
      else {
        StepKeepsContent(s, op);
        OtherCoherence(s, After(s, op));
      }
    }
  }

  /** No cache exists for the source language itself. */
  ghost predicate OnlyForeignCaches(s: Store) {
    forall x, l :: x in s.docs && l in s.docs[x].translations ==> Foreign(l)
  }

  lemma {:induction false} UpdateOnlyForeign(s: Store, op: Op)
    requires OnlyForeignCaches(s) && op.UpdateSection?
    ensures OnlyForeignCaches(After(s, op))
  {}

  lemma {:induction false} TranslateOnlyForeign(s: Store, op: Op)
    requires OnlyForeignCaches(s) && op.Translate? && Foreign(op.language)
    ensures OnlyForeignCaches(After(s, op))
  {}

  lemma {:induction false} FinishOnlyForeign(s: Store, op: Op)
    requires OnlyForeignCaches(s) && op.FinishGeneration?
    ensures OnlyForeignCaches(After(s, op))
  {}

  lemma {:induction false} OthersOnlyForeign(s: Store, after: Store)
    requires OnlyForeignCaches(s) && ContentKept(s, after)
    ensures OnlyForeignCaches(after)
  {
    forall x, l | x in after.docs && l in after.docs[x].translations ensures Foreign(l) {
      assert FromBefore(s, x, after.docs[x]);
    }
  }

  lemma {:induction false} StepOnlyForeign(s: Store, op: Op)
    requires OnlyForeignCaches(s) && (op.Translate? ==> Foreign(op.language))
    ensures OnlyForeignCaches(After(s, op))
  {
    if op.UpdateSection? { UpdateOnlyForeign(s, op); }
    else if op.Translate? { TranslateOnlyForeign(s, op); }
    else if op.FinishGeneration? { FinishOnlyForeign(s, op); }
    else {
      StepKeepsContent(s, op);
      OthersOnlyForeign(s, After(s, op));
    }
  }

  /**
    As long as nobody asks for a translation into "en" and no generation writes sections that are
    cached, every cached entry of every run is current.
  */
  lemma {:induction false} RunIsCoherent(t: Run, n: nat)
    requires IsRun(t) && n < |t.states|
    requires forall i :: 0 <= i < n ==> t.ops[i].Translate? ==> Foreign(t.ops[i].language)
    requires forall i :: 0 <= i < n ==> !GeneratesOverCache(t.states[i], t.ops[i])
    ensures Coherent(t.states[n]) && OnlyForeignCaches(t.states[n])
  {
    if n > 0 {
      RunIsCoherent(t, n - 1);
      StepOnlyForeign(t.states[n - 1], t.ops[n - 1]);
      CoherentUnless(t.states[n - 1], t.ops[n - 1]);
    }
  }

  // ---- Survival ----------------------------------------------------------------------------

  /** The calls that may end a cached entry: a save of its section, or deleting the document. */
  ghost predicate Displaces(s: Store, op: Op, id: string, k: Section) {
    && ReplyTo(s, op).Ok?
    && ((op.UpdateSection? && op.id == id && op.section == k) || (op.CancelGeneration? && op.id == id))
  }

  /** A call on sections or translations that is not a save of this document touches none of its entries. */
  lemma {:induction false} ContentCallKeepsEntry(s: Store, op: Op, id: string, l: string, k: Section)
    requires op.Translate? || op.FinishGeneration? || (op.UpdateSection? && (op.id != id || !ReplyTo(s, op).Ok?))
    requires id in s.docs && l in s.docs[id].translations
    ensures id in After(s, op).docs && CachedEntry(After(s, op).docs[id], l, k) == CachedEntry(s.docs[id], l, k)
  {}

  lemma {:induction false} CancelKeepsOthers(s: Store, op: Op, id: string)
    requires op.CancelGeneration? && id in s.docs && !(ReplyTo(s, op).Ok? && op.id == id)
    ensures id in After(s, op).docs
  {}

  lemma {:induction false} StepKeepsEntry(s: Store, op: Op, id: string, l: string, k: Section)
    requires id in s.docs && CachedEntry(s.docs[id], l, k).Some? && !Displaces(s, op, id, k)
    ensures id in After(s, op).docs && CachedEntry(After(s, op).docs[id], l, k) == CachedEntry(s.docs[id], l, k)
  {
    if LeavesContent(op) {
      StepKeepsContent(s, op);
      if op.CancelGeneration? { CancelKeepsOthers(s, op, id); }
      assert FromBefore(s, id, After(s, op).docs[id]);
    } else if op.UpdateSection? && op.id == id && ReplyTo(s, op).Ok? {
      UpdateEntries(s, op, l, k);
    } else {
      ContentCallKeepsEntry(s, op, id, l, k);
    }
  }

  lemma {:induction false} CallKeepsEntry(t: Run, q: nat, id: string, l: string, k: Section)
    requires IsRun(t) && q < |t.ops|
    requires id in t.states[q].docs && CachedEntry(t.states[q].docs[id], l, k).Some?
      && !Displaces(t.states[q], t.ops[q], id, k)
    ensures id in t.states[q + 1].docs
      && CachedEntry(t.states[q + 1].docs[id], l, k) == CachedEntry(t.states[q].docs[id], l, k)
  {
    StepKeepsEntry(t.states[q], t.ops[q], id, l, k);
  }

  /** An entry outlives any stretch of a run in which its own section is not saved. */
  lemma {:induction false} EntrySurvives(t: Run, i: nat, j: nat, id: string, l: string, k: Section)
    requires IsRun(t) && i <= j < |t.states|
    requires id in t.states[i].docs && CachedEntry(t.states[i].docs[id], l, k).Some?
    requires forall q :: i <= q < j ==> !Displaces(t.states[q], t.ops[q], id, k)
    ensures id in t.states[j].docs
    ensures CachedEntry(t.states[j].docs[id], l, k) == CachedEntry(t.states[i].docs[id], l, k)
    decreases j - i
  {
    if i < j {
      CallKeepsEntry(t, i, id, l, k);
      EntrySurvives(t, i + 1, j, id, l, k);
    }
  }
}
