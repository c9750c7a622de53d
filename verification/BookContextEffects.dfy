/**
  What each call does to the documents, field by field: when it succeeds, which document it changes,
  and that nothing else moves.
*/
module BookContextEffects {
  import opened Options
  import opened BookContext
  import opened BookContextSafety
  import opened BookContextTranslations

  ghost predicate Succeeds(s: Store, op: Op) {
    ReplyTo(s, op).Ok?
  }

  ghost predicate Refused(s: Store, op: Op, error: Error) {
    ReplyTo(s, op) == Err(error)
  }

  /** A refused call leaves the store as it is, whatever the call. */
  lemma {:induction false} RefusedChangesNothing(s: Store, op: Op)
    requires !Succeeds(s, op)
    ensures After(s, op) == s
  {}

  /** Only document `id` may differ. */
  ghost predicate OthersKept(s: Store, after: Store, id: string) {
    && after.books == s.books
    && (forall x :: x != id ==> (x in after.docs <==> x in s.docs))
    && (forall x :: x != id && x in s.docs ==> after.docs[x] == s.docs[x])
  }

  /** Only document `id` differs, and it was and is there. */
  ghost predicate OnlyChanges(s: Store, after: Store, id: string) {
    OthersKept(s, after, id) && id in s.docs && id in after.docs
  }

  /** Only document `id` is new. */
  ghost predicate OnlyAdds(s: Store, after: Store, id: string) {
    OthersKept(s, after, id) && id !in s.docs && id in after.docs
  }

  /** The fields no call ever changes. */
  predicate SameIdentity(d: Doc, e: Doc) {
    && e.book == d.book && e.version == d.version && e.rangeStart == d.rangeStart && e.rangeEnd == d.rangeEnd
    && e.preparedBy == d.preparedBy
  }

  predicate SameLock(d: Doc, e: Doc) {
    e.lockedBy == d.lockedBy && e.lockedAt == d.lockedAt
  }

  predicate SameReview(d: Doc, e: Doc) {
    e.status == d.status && e.approvals == d.approvals && e.active == d.active
  }

  predicate Free(d: Doc) {
    d.lockedBy == None && d.lockedAt == None
  }

  /** A new row: not active, not locked, not translated, not approved. */
  predicate Fresh(d: Doc, user: string) {
    !d.active && Free(d) && d.translations == map[] && d.approvals == [] && d.preparedBy == user
  }

  /** No document of the range has this version, or the range has an open end. */
  ghost predicate VersionFree(s: Store, book: string, from: Option<int>, to: Option<int>, version: int) {
    from == None || to == None || forall x :: x in s.docs && SameRange(s.docs[x], book, from, to)
                                          ==> s.docs[x].version != version
  }

  // ---- The quorum --------------------------------------------------------------------------

  /** The approval was given in this role; an old row without a list of roles counts for its one role. */
  predicate GivenAs(a: Approval, r: Role) {
    if a.roles == [] then r == a.role else r in a.roles
  }

  ghost predicate SomeoneAs(approvals: seq<Approval>, r: Role) {
    exists a :: a in approvals && GivenAs(a, r)
  }

  /** An admin, or two different people and each of the three specialties. */
  lemma {:induction false} QuorumTells(approvals: seq<Approval>)
    ensures Quorum(approvals) <==>
      || SomeoneAs(approvals, Admin)
      || ((exists a, b :: a in approvals && b in approvals && a.user != b.user)
          && SomeoneAs(approvals, Exegete) && SomeoneAs(approvals, BiblicalLanguageSpecialist)
          && SomeoneAs(approvals, TranslationSpecialist))
  {
    SomeoneIsRepresented(approvals, Admin);
    SomeoneIsRepresented(approvals, Exegete);
    SomeoneIsRepresented(approvals, BiblicalLanguageSpecialist);
    SomeoneIsRepresented(approvals, TranslationSpecialist);
  }

  lemma {:induction false} SomeoneIsRepresented(approvals: seq<Approval>, r: Role)
    ensures SomeoneAs(approvals, r) <==> Represented(approvals, r)
  {
    if a :| a in approvals && r in RolesOf(a) { assert GivenAs(a, r); }
    if a :| a in approvals && GivenAs(a, r) { assert r in RolesOf(a); }
  }

  // ---- Approving and activating ------------------------------------------------------------

  predicate MayApprove(r: Role) {
    r == Admin || r == Exegete || r == BiblicalLanguageSpecialist || r == TranslationSpecialist
  }

  ghost predicate SomeActive(s: Store, book: string) {
    exists x :: x in s.docs && s.docs[x].book == book && s.docs[x].active
  }

  lemma {:induction false} ApproveSucceeds(s: Store, id: string, user: string, roles: seq<Role>, locale: string)
    ensures var op := Approve(id, user, roles, locale);
      && (Refused(s, op, NotAuthorized) <==> forall r :: r in roles ==> !MayApprove(r))
      && (Refused(s, op, NotFound) <==> (exists r :: r in roles && MayApprove(r)) && id !in s.docs)
      && (Succeeds(s, op) <==>
            (exists r :: r in roles && MayApprove(r)) && id in s.docs
            && (s.docs[id].status == Draft || s.docs[id].status == Review)
            && forall a :: a in s.docs[id].approvals ==> a.user != user)
      && (!Succeeds(s, op) ==> Refused(s, op, NotAuthorized) || Refused(s, op, NotFound) || Refused(s, op, Conflict))
  {
    CapableKeepsExactly(roles);
    assert Capable(roles) != [] ==> Capable(roles)[0] in roles && MayApprove(Capable(roles)[0]);
  }

  /** The stored approval is the caller's, with exactly the caller's roles that may approve. */
  lemma {:induction false} ApproveRecords(s: Store, id: string, user: string, roles: seq<Role>, locale: string)
    requires Succeeds(s, Approve(id, user, roles, locale))
    ensures var after := After(s, Approve(id, user, roles, locale));
      && OnlyChanges(s, after, id)
      && var past, all := s.docs[id].approvals, after.docs[id].approvals;
      && |all| == |past| + 1 && all[..|past|] == past && OwnApproval(all[|past|], user, roles, locale)
  {
    CapableKeepsExactly(roles);
    var capable := Capable(roles);
    assert OwnApproval(Approval(user, capable[0], capable, locale), user, roles, locale);
    assert After(s, Approve(id, user, roles, locale)).docs[id].approvals ==
      s.docs[id].approvals + [Approval(user, capable[0], capable, locale)];
  }

  ghost predicate OwnApproval(a: Approval, user: string, roles: seq<Role>, locale: string) {
    && a.user == user && a.locale == locale && a.role in a.roles
    && (forall r :: r in a.roles <==> r in roles && MayApprove(r))
  }

  /**
    A quorum approves, frees the lock, and makes the document the active one exactly when its book
    had none; whoever reaches it, the book has an active document afterwards.
  */
  lemma {:induction false} ApproveActivates(s: Store, id: string, user: string, roles: seq<Role>, locale: string)
    requires Succeeds(s, Approve(id, user, roles, locale))
    ensures var after := After(s, Approve(id, user, roles, locale));
      && OnlyChanges(s, after, id)
      && var d, e := s.docs[id], after.docs[id];
      && SameIdentity(d, e) && SameContent(d, e)
      && (e.status == Approved <==> Quorum(e.approvals)) && (e.status == Approved || e.status == Review)
      && (if e.status == Approved then Free(e) else SameLock(d, e))
      && (e.active <==> d.active || (e.status == Approved && !SomeActive(s, d.book)))
      && (e.status == Approved ==> SomeActive(after, d.book))
      && (forall x :: x in s.docs && x != id ==> after.docs[x].active == s.docs[x].active)
  {
    var after := After(s, Approve(id, user, roles, locale));
    var d, e := s.docs[id], after.docs[id];
    if e.status == Approved && !e.active {
      var x :| x in s.docs && s.docs[x].book == d.book && s.docs[x].active;
      assert x != id && after.docs[x].active;
    }
  }

  lemma {:induction false} SetActiveEffect(s: Store, id: string)
    ensures var op := SetActive(id);
      && (Refused(s, op, NotFound) <==> id !in s.docs)
      && (Refused(s, op, Conflict) <==> id in s.docs && s.docs[id].status == Generating)
      && (Succeeds(s, op) <==> id in s.docs && s.docs[id].status != Generating)
      && var after := After(s, op);
      && after.books == s.books && after.docs.Keys == s.docs.Keys
      && (Succeeds(s, op) ==> forall x :: x in s.docs ==> Activated(s.docs[id].book, x == id, s.docs[x], after.docs[x]))
  {}

  /** The chosen document becomes active and must be reviewed again; the others of its book stop being active. */
  predicate Activated(book: string, chosen: bool, d: Doc, e: Doc) {
    && SameIdentity(d, e) && SameContent(d, e)
    && (e.active <==> chosen || (d.active && d.book != book))
    && (if chosen then Free(e) && e.approvals == [] && e.status == (if d.status == Approved then Review else d.status)
        else SameLock(d, e) && e.approvals == d.approvals && e.status == d.status)
  }

  lemma {:induction false} RequestRevisionEffect(s: Store, id: string, role: Role)
    ensures var op := RequestRevision(id, role);
      && (Refused(s, op, NotAuthorized) <==> role != Admin)
      && (Refused(s, op, NotFound) <==> role == Admin && id !in s.docs)
      && (Refused(s, op, Conflict) <==> role == Admin && id in s.docs && s.docs[id].status == Generating)
      && (Succeeds(s, op) <==> role == Admin && id in s.docs && s.docs[id].status != Generating)
    ensures var after := After(s, RequestRevision(id, role));
      Succeeds(s, RequestRevision(id, role)) ==>
        && OnlyChanges(s, after, id)
        && var d, e := s.docs[id], after.docs[id];
        && SameIdentity(d, e) && SameContent(d, e) && Free(e)
        && e.status == Draft && e.approvals == [] && e.active == d.active
  {}

  // ---- Locking -----------------------------------------------------------------------------

  /** The lock is free, the caller's own, or was last taken more than four hours (in microseconds) ago. */
  predicate Lockable(d: Doc, user: string, now: int) {
    || d.lockedBy == None || d.lockedBy == Some(user)
    || (d.lockedAt.Some? && now - d.lockedAt.value > 14_400_000_000)
  }

  lemma {:induction false} LockEffect(s: Store, id: string, user: string, now: int)
    ensures var op := Lock(id, user, now);
      && (Refused(s, op, NotFound) <==> id !in s.docs)
      && (Succeeds(s, op) <==>
            id in s.docs && (s.docs[id].status == Draft || s.docs[id].status == Review)
            && Lockable(s.docs[id], user, now))
      && (id in s.docs && !Succeeds(s, op) ==> Refused(s, op, Conflict))
    ensures var after := After(s, Lock(id, user, now));
      Succeeds(s, Lock(id, user, now)) ==>
        && OnlyChanges(s, after, id)
        && var d, e := s.docs[id], after.docs[id];
        && SameIdentity(d, e) && SameContent(d, e) && SameReview(d, e)
        && e.lockedBy == Some(user) && e.lockedAt == Some(now)
  {}

  lemma {:induction false} UnlockEffect(s: Store, id: string, user: string, isAdmin: bool)
    ensures var op := Unlock(id, user, isAdmin);
      && (Refused(s, op, NotFound) <==> id !in s.docs)
      && (Refused(s, op, NotAuthorized) <==>
            id in s.docs && s.docs[id].lockedBy != None && s.docs[id].lockedBy != Some(user) && !isAdmin)
      && (id in s.docs && !Refused(s, op, NotAuthorized) ==> Succeeds(s, op))
    ensures var after := After(s, Unlock(id, user, isAdmin));
      Succeeds(s, Unlock(id, user, isAdmin)) ==>
        && OnlyChanges(s, after, id)
        && var d, e := s.docs[id], after.docs[id];
        && SameIdentity(d, e) && SameContent(d, e) && SameReview(d, e)
        && (if d.lockedBy == None then e == d else Free(e))
  {}

  // ---- Saving and translating --------------------------------------------------------------

  /** The payload has to be turned into English before it is stored. */
  predicate NeedsEnglish(data: Json, locale: string) {
    locale != "" && locale != "en" && data.Object?
  }

  predicate MayEdit(s: Store, id: string, k: Section, user: string) {
    && id in s.docs && (s.docs[id].status == Draft || s.docs[id].status == Review)
    && !k.UnknownSection? && s.docs[id].lockedBy == Some(user)
  }

  /** A save fails when its back-translation fails, even for the lock holder. */
  lemma {:induction false} UpdateSectionSucceeds(s: Store, id: string, k: Section, data: Json, user: string,
                                                 locale: string, english: Option<Json>)
    ensures var op := UpdateSection(id, k, data, user, locale, english);
      && (Succeeds(s, op) <==> MayEdit(s, id, k, user) && (NeedsEnglish(data, locale) ==> english.Some?))
      && (Refused(s, op, UpstreamFailed) <==>
            MayEdit(s, id, k, user) && NeedsEnglish(data, locale) && english == None)
      && (Refused(s, op, NotAuthorized) <==>
            id in s.docs && (s.docs[id].status == Draft || s.docs[id].status == Review) && !k.UnknownSection?
            && s.docs[id].lockedBy != None && s.docs[id].lockedBy != Some(user))
      && (Refused(s, op, Conflict) <==>
            id in s.docs && (s.docs[id].status == Approved || s.docs[id].status == Generating
                             || (!k.UnknownSection? && s.docs[id].lockedBy == None)))
      && (Refused(s, op, NotFound) <==>
            id !in s.docs
            || ((s.docs[id].status == Draft || s.docs[id].status == Review) && k.UnknownSection?))
      && (!Succeeds(s, op) ==> After(s, op) == s)
  {}

  /**
    A saved foreign object is stored in English as its back-translation, anything else as it was
    given; the foreign payload itself goes into the cache of its locale.
  */
  lemma {:induction false} UpdateSectionStores(s: Store, id: string, k: Section, data: Json, user: string,
                                               locale: string, english: Option<Json>)
    requires Succeeds(s, UpdateSection(id, k, data, user, locale, english))
    ensures var after := After(s, UpdateSection(id, k, data, user, locale, english));
      && OnlyChanges(s, after, id)
      && var d, e := s.docs[id], after.docs[id];
      && SameIdentity(d, e) && SameReview(d, e) && SameLock(d, e)
      && (NeedsEnglish(data, locale) ==> english.Some? && Get(e, k) == english.value)
      && (!NeedsEnglish(data, locale) ==> Get(e, k) == data)
      && (forall other :: other != k ==> Get(e, other) == Get(d, other))
      && (locale != "" && locale != "en" ==>
            CachedEntry(e, locale, k).Some? && CachedEntry(e, locale, k).value.value == data)
  {
    if locale != "" && locale != "en" {
      UpdateEntries(s, UpdateSection(id, k, data, user, locale, english), locale, k);
    }
  }

  /** A locale of the cache outlives a save from elsewhere exactly if it has another section. */
  lemma {:induction false} UpdateSectionLocales(s: Store, id: string, k: Section, data: Json, user: string,
                                                locale: string, english: Option<Json>, l: string)
    requires Succeeds(s, UpdateSection(id, k, data, user, locale, english))
    ensures var d := s.docs[id];
      l in After(s, UpdateSection(id, k, data, user, locale, english)).docs[id].translations <==>
        if l == locale then (locale != "" && locale != "en") || l in d.translations else HasOther(d, l, k)
  {
    var d := s.docs[id];
    assert After(s, UpdateSection(id, k, data, user, locale, english)).docs[id].translations ==
      Reconciled(d, k, locale, data, Edits(d, k) + 1);
    LocalesLeft(d, k, locale, data, Edits(d, k) + 1, l);
  }

  lemma {:induction false} LocalesLeft(d: Doc, k: Section, locale: string, data: Json, stamp: nat, l: string)
    ensures l in Reconciled(d, k, locale, data, stamp) <==>
      if l == locale then (locale != "" && locale != "en") || l in d.translations else HasOther(d, l, k)
  {
    KeptIffOther(d, l, k);
    if l != locale { OtherLocale(d, k, locale, data, stamp, l); }
  }

  /** The locale has a section other than `k` cached. */
  ghost predicate HasOther(d: Doc, l: string, k: Section) {
    exists other :: other != k && CachedEntry(d, l, other).Some?
  }

  lemma {:induction false} KeptIffOther(d: Doc, l: string, k: Section)
    ensures l in d.translations && KeptAfterDrop(d.translations[l], k) <==> HasOther(d, l, k)
  {
    if l in d.translations && KeptAfterDrop(d.translations[l], k) {
      var left := d.translations[l].entries - {k};
      var other :| other in left;
      assert CachedEntry(d, l, other).Some?;
    }
    if other :| other != k && CachedEntry(d, l, other).Some? {
      assert other in d.translations[l].entries - {k};
    }
  }

  /** The translatable sections: all but the maintenance notes. */
  predicate GoesToTranslator(k: Section) {
    !k.UnknownSection? && k != MaintenanceNotes
  }

  lemma {:induction false} SentToTranslator(d: Doc, k: Section)
    ensures k in ToTranslate(d) <==> GoesToTranslator(k) && Get(d, k) != Null
    ensures k in ToTranslate(d) ==> ToTranslate(d)[k] == Get(d, k)
  {
    var all := TRANSLATABLE_SECTIONS;
    assert all[0] == StructuralOutline && all[1] == ParticipantRegister && all[2] == DiscourseThreads
      && all[3] == TheologicalSpine && all[4] == Places && all[5] == Objects && all[6] == Institutions
      && all[7] == GenreContext;
  }

  lemma {:induction false} TranslateEffect(s: Store, id: string, language: string, reply: Option<LocaleReply>)
    ensures var op := Translate(id, language, reply);
      && (Refused(s, op, NotFound) <==> id !in s.docs)
      && (id in s.docs && language in s.docs[id].translations ==> After(s, op) == s)
      && (id in s.docs && language !in s.docs[id].translations ==> (Succeeds(s, op) <==> reply.Some?))
    ensures var after := After(s, Translate(id, language, reply));
      id in s.docs && language !in s.docs[id].translations && reply.Some? ==>
        && OnlyChanges(s, after, id)
        && var d, e := s.docs[id], after.docs[id];
        && SameIdentity(d, e) && SameReview(d, e) && SameLock(d, e) && e.sections == d.sections
        && e.translations.Keys == d.translations.Keys + {language}
        && (forall l :: l in d.translations ==> e.translations[l] == d.translations[l])
        && (forall k :: AnswerOf(reply.value, k) == ValueOf(CachedEntry(e, language, k)))
  {}

  /** What the translator answered for a section. */
  function AnswerOf(reply: LocaleReply, k: Section): Option<Json> {
    if reply.Translated? && k in reply.values then Some(reply.values[k]) else None
  }

  function ValueOf(e: Option<Entry>): Option<Json> {
    if e.Some? then Some(e.value.value) else None
  }

  // ---- Generating --------------------------------------------------------------------------

  /** Neither an outline nor a participant register is stored. */
  predicate Blank(d: Doc) {
    Get(d, StructuralOutline) == Null && Get(d, ParticipantRegister) == Null
  }

  lemma {:induction false} StartInPlace(s: Store, id: string, newId: string, user: string)
    requires id in s.docs && s.docs[id].status != Generating && s.docs[id].book in s.books && Blank(s.docs[id])
    ensures var after := After(s, StartGeneration(id, newId, user));
      && Succeeds(s, StartGeneration(id, newId, user)) && OnlyChanges(s, after, id)
      && var d, e := s.docs[id], after.docs[id];
      && SameIdentity(d, e) && SameContent(d, e) && Free(e)
      && e.status == Generating && e.approvals == d.approvals && e.active == d.active
  {}

  /** A document with an outline or a register is left alone; its successor starts with the genre only. */
  lemma {:induction false} StartForked(s: Store, id: string, newId: string, user: string)
    requires id in s.docs && s.docs[id].status != Generating && s.docs[id].book in s.books && !Blank(s.docs[id])
    ensures var d, op := s.docs[id], StartGeneration(id, newId, user);
      && (Succeeds(s, op) <==>
            newId !in s.docs && VersionFree(s, d.book, d.rangeStart, d.rangeEnd, d.version + 1))
      && (!Succeeds(s, op) ==> Refused(s, op, Integrity))
      && (Succeeds(s, op) ==>
            OnlyAdds(s, After(s, op), newId) && Successor(d, After(s, op).docs[newId], user))
  {
    var d := s.docs[id];
    assert Successor(d, NewDoc(d.book, d.version + 1, d.rangeStart, d.rangeEnd, Generating, user,
                               map[GenreContext := Get(d, GenreContext)]), user);
  }

  /** A generating document of the next version whose only section is the genre. */
  ghost predicate Successor(d: Doc, e: Doc, user: string) {
    && SameRange(e, d.book, d.rangeStart, d.rangeEnd) && e.version == d.version + 1
    && Fresh(e, user) && e.status == Generating
    && (forall k :: Get(e, k) == if k == GenreContext then Get(d, k) else Null)
  }

  lemma {:induction false} StartRefused(s: Store, id: string, newId: string, user: string)
    ensures var op := StartGeneration(id, newId, user);
      && (Refused(s, op, InProgress) <==> id in s.docs && s.docs[id].status == Generating)
      && (Refused(s, op, NotFound) <==>
            id !in s.docs || (s.docs[id].status != Generating && s.docs[id].book !in s.books))
  {}

  /** The end of a run: the produced sections and review, or draft when it failed. */
  lemma {:induction false} FinishEffect(s: Store, id: string, written: Option<map<Section, Json>>)
    ensures var op := FinishGeneration(id, written);
      && (Succeeds(s, op) <==> id in s.docs && s.docs[id].status == Generating)
    ensures var after := After(s, FinishGeneration(id, written));
      Succeeds(s, FinishGeneration(id, written)) ==>
        && OnlyChanges(s, after, id)
        && var d, e := s.docs[id], after.docs[id];
        && SameIdentity(d, e) && SameLock(d, e) && e.approvals == d.approvals && e.active == d.active
        && e.translations == d.translations
        && e.status == (if written.Some? then Review else Draft)
        && (forall k :: Get(e, k) ==
              if written.Some? && k in written.value && !k.UnknownSection? then written.value[k] else Get(d, k))
  {}

  lemma {:induction false} CancelEffect(s: Store, id: string)
    ensures var op := CancelGeneration(id);
      && (Refused(s, op, NotFound) <==> id !in s.docs)
      && (Refused(s, op, Conflict) <==> id in s.docs && s.docs[id].status != Generating)
      && (Succeeds(s, op) <==> id in s.docs && s.docs[id].status == Generating)
      && (Succeeds(s, op) ==> OthersKept(s, After(s, op), id) && id !in After(s, op).docs)
  {}

  // ---- New documents -----------------------------------------------------------------------

  /** A new version is a draft with every section of the approved document. */
  lemma {:induction false} NewVersionEffect(s: Store, id: string, newId: string, user: string)
    ensures var op := NewVersion(id, newId, user);
      && (Refused(s, op, NotFound) <==> id !in s.docs)
      && (Refused(s, op, Conflict) <==> id in s.docs && s.docs[id].status != Approved)
      && (Succeeds(s, op) <==>
            id in s.docs && s.docs[id].status == Approved && newId !in s.docs
            && VersionFree(s, s.docs[id].book, s.docs[id].rangeStart, s.docs[id].rangeEnd, s.docs[id].version + 1))
    ensures var after := After(s, NewVersion(id, newId, user));
      Succeeds(s, NewVersion(id, newId, user)) ==>
        && OnlyAdds(s, after, newId)
        && var d, e := s.docs[id], after.docs[newId];
        && SameRange(e, d.book, d.rangeStart, d.rangeEnd) && e.version == d.version + 1
        && Fresh(e, user) && e.status == Draft
        && (forall k :: Get(e, k) == Get(d, k))
  {}

  /** The new version is one above the highest of its range, or 1 when the range has none above 0. */
  ghost predicate NextVersion(s: Store, book: string, from: Option<int>, to: Option<int>, version: int) {
    && version >= 1
    && (forall x :: x in s.docs && SameRange(s.docs[x], book, from, to) ==> s.docs[x].version < version)
    && (version > 1 ==> exists x :: x in s.docs && SameRange(s.docs[x], book, from, to)
                                 && s.docs[x].version == version - 1)
  }

  lemma {:induction false} CreateEffect(s: Store, newId: string, book: string, user: string, genre: string,
                                        from: Option<int>, to: Option<int>)
    ensures var op := Create(newId, book, user, genre, from, to);
      && (Refused(s, op, NotAuthorized) <==> book !in s.books || !s.books[book])
      && (Succeeds(s, op) <==> book in s.books && s.books[book] && newId !in s.docs)
      && (Succeeds(s, op) ==>
            && OnlyAdds(s, After(s, op), newId)
            && FirstDraft(s, After(s, op).docs[newId], book, user, genre, from, to))
  {
    LatestIsNext(s, book, from, to);
    var version := MaxVersion(VersionsInRange(s, book, from, to)) + 1;
    var d := NewDoc(book, version, from, to, Draft, user, map[GenreContext := Object(genre)]);
    assert VersionTaken(s, d) ==> !VersionFree(s, book, from, to, version);
    assert FirstDraft(s, d, book, user, genre, from, to);
  }

  /** An unreviewed document of the next version whose only section is the genre. */
  ghost predicate FirstDraft(s: Store, e: Doc, book: string, user: string, genre: string, from: Option<int>,
                             to: Option<int>)
  {
    && SameRange(e, book, from, to) && NextVersion(s, book, from, to, e.version)
    && Fresh(e, user) && e.status == Draft
    && (forall k :: Get(e, k) == if k == GenreContext then Object(genre) else Null)
  }

  lemma {:induction false} LatestIsNext(s: Store, book: string, from: Option<int>, to: Option<int>)
    ensures var v := MaxVersion(VersionsInRange(s, book, from, to)) + 1;
      NextVersion(s, book, from, to, v) && VersionFree(s, book, from, to, v)
  {
    var versions := VersionsInRange(s, book, from, to);
    MaxVersionBounds(versions);
    assert forall x :: x in s.docs && SameRange(s.docs[x], book, from, to) ==> s.docs[x].version in versions;
  }

  /** Deleting an account frees its locks and is refused while it prepared or approved a document. */
  lemma {:induction false} DeleteUserEffect(s: Store, user: string)
    ensures var op := DeleteUser(user);
      && (Succeeds(s, op) <==>
            forall x :: x in s.docs ==>
              s.docs[x].preparedBy != user && forall a :: a in s.docs[x].approvals ==> a.user != user)
      && (!Succeeds(s, op) ==> Refused(s, op, Integrity))
      && var after := After(s, op);
      && after.books == s.books && after.docs.Keys == s.docs.Keys
      && (Succeeds(s, op) ==> forall x :: x in s.docs ==> Released(user, s.docs[x], after.docs[x]))
  {}

  predicate Released(user: string, d: Doc, e: Doc) {
    && SameIdentity(d, e) && SameContent(d, e) && SameReview(d, e) && e.lockedAt == d.lockedAt
    && e.lockedBy == if d.lockedBy == Some(user) then None else d.lockedBy
  }
}
