/** The service functions as methods over a mutable table of documents. */
module BookContextService {
  import opened FiniteSets
  import opened Options
  import opened BookContext
  import opened BookContextSafety
  import BookContextTranslations

  /** The call ended as `reply` says: the new store, or an error and no change. */
  ghost predicate Ends(reply: Reply, before: Store, after: Store, error: Option<Error>) {
    match reply
    case Ok(store) => error == None && after == store
    case Err(e) => error == Some(e) && after == before
  }

  /** The status report without its presentation of names. */
  datatype Report = Report(
    covered: set<Role>, missing: set<Role>, distinctReviewers: nat, complete: bool, hasEnglishReview: bool)

  /** Two distinct users exist exactly when the set of users has at least two members. */
  lemma {:induction false} TwoPeopleByCount(approvals: seq<Approval>)
    ensures TwoPeople(approvals) <==> |set a | a in approvals :: a.user| >= 2
  {
    var users := set a | a in approvals :: a.user;
    if TwoPeople(approvals) {
      var a, b :| a in approvals && b in approvals && a.user != b.user;
      assert {a.user, b.user} <= users;
      assert |users| >= |{a.user, b.user}| by { SubsetSize({a.user, b.user}, users); }
    }
    if |users| >= 2 {
      var u :| u in users;
      var rest := users - {u};
      assert |rest| >= 1;
      var w :| w in rest;
      var a :| a in approvals && a.user == u;
      var b :| b in approvals && b.user == w;
    }
  }

  /** One UPDATE over a book's active documents other than `id`. */
  function Deactivated(docs: map<string, Doc>, id: string, book: string): map<string, Doc> {
    map x | x in docs ::
      if x != id && docs[x].book == book && docs[x].active then docs[x].(active := false) else docs[x]
  }

  /** Clearing the others and writing the chosen document is what activating it does. */
  lemma {:induction false} ActivateReply(s: Store, id: string, chosen: Doc)
    requires id in s.docs && s.docs[id].status != Generating
    requires var d := s.docs[id];
      chosen == Unlocked(d).(approvals := [], active := true,
                             status := if d.status == Approved then Review else d.status)
    ensures ReplySetActive(s, id) == Ok(s.(docs := Deactivated(s.docs, id, s.docs[id].book)[id := chosen]))
  {
    assert ReplySetActive(s, id).store.docs == Deactivated(s.docs, id, s.docs[id].book)[id := chosen];
  }

  /** The cache when the locales in `keys` are still to be visited. */
  ghost function Visited(start: map<string, LocaleCache>, keys: set<string>, locale: string,
                         k: Section): map<string, LocaleCache> {
    map l | l in start && (l in keys || l == locale || KeptAfterDrop(start[l], k))
      :: if l in keys || l == locale then start[l] else Dropped(start[l], k)
  }

  lemma {:induction false} VisitOther(start: map<string, LocaleCache>, keys: set<string>, locale: string, k: Section,
                                      l: string, x: string)
    requires l in keys && l in start && x != l
    ensures var before, after := Visited(start, keys, locale, k), Visited(start, keys - {l}, locale, k);
      (x in before <==> x in after) && (x in before ==> before[x] == after[x])
  {}

  lemma {:induction false} VisitIt(start: map<string, LocaleCache>, keys: set<string>, locale: string, k: Section,
                                   l: string)
    requires l in keys && l in start
    ensures var before, after := Visited(start, keys, locale, k), Visited(start, keys - {l}, locale, k);
      && l in before && before[l] == start[l]
      && (l in after <==> l == locale || KeptAfterDrop(start[l], k))
      && (l in after ==> after[l] == if l == locale then start[l] else Dropped(start[l], k))
  {}

  /** One pass of the loop removes the section from one locale, or the whole locale. */
  lemma {:induction false} VisitOne(start: map<string, LocaleCache>, keys: set<string>, locale: string, k: Section,
                                    l: string)
    requires l in keys && l in start
    ensures l in Visited(start, keys, locale, k) && Visited(start, keys, locale, k)[l] == start[l]
    ensures Visited(start, keys - {l}, locale, k) ==
      if l == locale then Visited(start, keys, locale, k)
      else if KeptAfterDrop(start[l], k) then Visited(start, keys, locale, k)[l := Dropped(start[l], k)]
      else Visited(start, keys, locale, k) - {l}
  {
    var before, after := Visited(start, keys, locale, k), Visited(start, keys - {l}, locale, k);
    VisitIt(start, keys, locale, k, l);
    forall x | x != l ensures (x in before <==> x in after) && (x in before ==> before[x] == after[x]) {
      VisitOther(start, keys, locale, k, l, x);
    }
    OneKey(before, after, l);
  }

  /** Two maps that agree elsewhere differ by what they say of one key. */
  lemma {:induction false} OneKey(before: map<string, LocaleCache>, after: map<string, LocaleCache>, l: string)
    requires forall x :: x != l ==> (x in before <==> x in after) && (x in before ==> before[x] == after[x])
    ensures after == if l in after then before[l := after[l]] else before - {l}
  {}

  lemma {:induction false} VisitedAll(d: Doc, start: map<string, LocaleCache>, locale: string, k: Section,
                                      payload: Json, stamp: nat)
    requires start == Started(d, locale, k, payload, stamp)
    ensures Visited(start, {}, locale, k) == Reconciled(d, k, locale, payload, stamp)
  {
    var all, goal := Visited(start, {}, locale, k), Reconciled(d, k, locale, payload, stamp);
    forall l
      ensures l in all <==> l in goal
      ensures l in all ==> all[l] == goal[l]
    {
      if l == locale {
        OwnVisited(d, locale, k, payload, stamp);
      } else {
        OtherVisited(d, locale, k, payload, stamp, l);
      }
    }
  }

  /** The cache before the loop: a foreign locale's own payload is already in. */
  function Started(d: Doc, locale: string, k: Section, payload: Json, stamp: nat): map<string, LocaleCache> {
    if Foreign(locale) then d.translations[locale := Cached(OwnCache(d, locale)[k := Entry(payload, stamp)])]
    else d.translations
  }

  lemma {:induction false} OtherVisited(d: Doc, locale: string, k: Section, payload: Json, stamp: nat, l: string)
    requires l != locale
    ensures var all := Visited(Started(d, locale, k, payload, stamp), {}, locale, k);
      var goal := Reconciled(d, k, locale, payload, stamp);
      (l in all <==> l in goal) && (l in all ==> all[l] == goal[l])
  {
    OtherStarted(d, locale, k, payload, stamp, l);
    BookContextTranslations.OtherLocale(d, k, locale, payload, stamp, l);
  }

  lemma {:induction false} OtherStarted(d: Doc, locale: string, k: Section, payload: Json, stamp: nat, l: string)
    requires l != locale
    ensures l in Started(d, locale, k, payload, stamp) <==> l in d.translations
    ensures l in d.translations ==> Started(d, locale, k, payload, stamp)[l] == d.translations[l]
  {}

  lemma {:induction false} OwnVisited(d: Doc, locale: string, k: Section, payload: Json, stamp: nat)
    ensures var all := Visited(Started(d, locale, k, payload, stamp), {}, locale, k);
      var goal := Reconciled(d, k, locale, payload, stamp);
      (locale in all <==> locale in goal) && (locale in all ==> all[locale] == goal[locale])
  {}

  class Service {
    var docs: map<string, Doc>
    const books: map<string, bool>

    constructor (books: map<string, bool>)
      ensures State() == Store(map[], books) && Sound(State())
    {
      this.docs := map[];
      this.books := books;
    }

    function State(): Store
      reads this
    {
      Store(docs, books)
    }

    method Approve(id: string, user: string, roles: seq<Role>, locale: string) returns (error: Option<Error>)
      modifies this
      ensures Ends(ReplyApprove(old(State()), id, user, roles, locale), old(State()), State(), error)
      ensures Sound(old(State())) ==> Sound(State())
    {
      var capable := Capable(roles);
      if capable == [] { return Some(NotAuthorized); }
      if id !in docs { return Some(NotFound); }
      var d := docs[id];
      if d.status != Draft && d.status != Review { return Some(Conflict); }
      var approvals := d.approvals;
      if exists a :: a in approvals && a.user == user { return Some(Conflict); }

      var approval := Approval(user, capable[0], capable, locale);
      var all := approvals + [approval];
      d := d.(approvals := all);
      var status := Decide(approvals, approval);
      d := d.(status := status);
      if d.status == Approved {
        d := d.(lockedBy := None, lockedAt := None);
        var hasActive := exists x :: x in docs && docs[x].book == d.book && docs[x].active;
        if !hasActive {
          d := d.(active := true);
        }
      }
      docs := docs[id := d];
      ApproveIsSound(old(State()), id, user, roles, locale);
      return None;
    }

    /** The status after `approval` joins the earlier ones. */
    method Decide(approvals: seq<Approval>, approval: Approval) returns (status: Status)
      requires approval.roles != []
      ensures status == if Quorum(approvals + [approval]) then Approved else Review
    {
      var all := approvals + [approval];
      assert forall a :: a in all <==> a in approvals || a == approval;
      var isAdmin := Admin in approval.roles;
      var hasPriorAdmin := exists a :: a in approvals && Admin in RolesOf(a);
      assert approval in all && RolesOf(approval) == approval.roles;
      assert Represented(all, Admin) <==> isAdmin || hasPriorAdmin;
      if isAdmin || hasPriorAdmin {
        status := Approved;
      } else {
        var users := set a | a in all :: a.user;
        var covered := Specialties(all);
        TwoPeopleByCount(all);
        assert covered >= SPECIALIST_ROLES <==> forall r :: r in SPECIALIST_ROLES ==> Represented(all, r);
        if |users| >= 2 && covered >= SPECIALIST_ROLES {
          status := Approved;
        } else {
          status := Review;
        }
      }
    }

    /** The specialties that appear among the roles of some approval. */
    method Specialties(approvals: seq<Approval>) returns (covered: set<Role>)
      ensures forall r :: r in covered <==> r in SPECIALIST_ROLES && Represented(approvals, r)
    {
      covered := {};
      for i := 0 to |approvals|
        invariant forall r :: r in covered <==> r in SPECIALIST_ROLES && Represented(approvals[..i], r)
      {
        covered := covered + set r | r in RolesOf(approvals[i]) && r in SPECIALIST_ROLES;
        assert forall a :: a in approvals[..i + 1] <==> a in approvals[..i] || a == approvals[i];
      }
      assert approvals[..|approvals|] == approvals;
    }

    method ApprovalStatus(id: string) returns (r: Report)
      ensures var approvals := if id in docs then docs[id].approvals else [];
        && (r.complete <==> SpecialistsAgree(approvals))
        && (forall x :: x in r.covered <==> x in SPECIALIST_ROLES && Represented(approvals, x))
        && r.missing == SPECIALIST_ROLES - r.covered
        && r.distinctReviewers == |set a | a in approvals :: a.user|
        && (r.hasEnglishReview <==> exists a :: a in approvals && a.locale == EN)
    {
      var approvals := if id in docs then docs[id].approvals else [];
      var covered := Specialties(approvals);
      var users := set a | a in approvals :: a.user;
      TwoPeopleByCount(approvals);
      r := Report(covered, SPECIALIST_ROLES - covered, |users|, |users| >= 2 && covered >= SPECIALIST_ROLES,
                  exists a :: a in approvals && a.locale == EN);
    }

    method SetActive(id: string) returns (error: Option<Error>)
      modifies this
      ensures Ends(ReplySetActive(old(State()), id), old(State()), State(), error)
      ensures Sound(old(State())) ==> Sound(State())
    {
      if id !in docs { return Some(NotFound); }
      var d := docs[id];
      if d.status == Generating { return Some(Conflict); }
      docs := Deactivated(docs, id, d.book);
      d := d.(approvals := []);
      if d.status == Approved {
        d := d.(status := Review);
      }
      d := d.(active := true, lockedBy := None, lockedAt := None);
      docs := docs[id := d];
      ActivateReply(old(State()), id, d);
      SetActiveIsSound(old(State()), id);
      return None;
    }

    method RequestRevision(id: string, role: Role) returns (error: Option<Error>)
      modifies this
      ensures Ends(ReplyRequestRevision(old(State()), id, role), old(State()), State(), error)
      ensures Sound(old(State())) ==> Sound(State())
    {
      if role != Admin { return Some(NotAuthorized); }
      if id !in docs { return Some(NotFound); }
      if docs[id].status == Generating { return Some(Conflict); }
      docs := docs[id := docs[id].(approvals := [])];
      docs := docs[id := docs[id].(status := Draft, lockedBy := None, lockedAt := None)];
      assert docs == old(docs)[id := old(docs)[id].(approvals := [], status := Draft, lockedBy := None,
                                                    lockedAt := None)];
      RequestRevisionIsSound(old(State()), id, role);
      return None;
    }

    method Lock(id: string, user: string, now: int) returns (error: Option<Error>)
      modifies this
      ensures Ends(ReplyLock(old(State()), id, user, now), old(State()), State(), error)
      ensures Sound(old(State())) ==> Sound(State())
    {
      if id !in docs { return Some(NotFound); }
      var d := docs[id];
      if d.status != Draft && d.status != Review { return Some(Conflict); }
      if d.lockedBy.Some? && d.lockedBy.value != user {
        if d.lockedAt.Some? && now - d.lockedAt.value > FOUR_HOURS {
          // an expired lock is taken over
        } else {
          return Some(Conflict);
        }
      }
      docs := docs[id := d.(lockedBy := Some(user), lockedAt := Some(now))];
      LockIsSound(old(State()), id, user, now);
      return None;
    }

    method Unlock(id: string, user: string, isAdmin: bool) returns (error: Option<Error>)
      modifies this
      ensures Ends(ReplyUnlock(old(State()), id, user, isAdmin), old(State()), State(), error)
      ensures Sound(old(State())) ==> Sound(State())
    {
      if id !in docs { return Some(NotFound); }
      var d := docs[id];
      if d.lockedBy == None { return None; }
      if d.lockedBy.value != user && !isAdmin { return Some(NotAuthorized); }
      docs := docs[id := d.(lockedBy := None, lockedAt := None)];
      UnlockIsSound(old(State()), id, user, isAdmin);
      return None;
    }

    /** The guards of an edit, in order. */
    method CheckEdit(id: string, k: Section, user: string) returns (error: Option<Error>)
      ensures error == EditRefusal(State(), id, k, user)
    {
      if id !in docs { return Some(NotFound); }
      var d := docs[id];
      if d.status == Approved { return Some(Conflict); }
      if d.status == Generating { return Some(Conflict); }
      if k.UnknownSection? { return Some(NotFound); }
      if d.lockedBy == None { return Some(Conflict); }
      if d.lockedBy.value != user { return Some(NotAuthorized); }
      return None;
    }

    method UpdateSection(id: string, k: Section, data: Json, user: string, locale: string, english: Option<Json>)
      returns (error: Option<Error>)
      modifies this
      ensures Ends(ReplyUpdateSection(old(State()), id, k, data, user, locale, english), old(State()), State(), error)
      ensures Sound(old(State())) ==> Sound(State())
    {
      error := CheckEdit(id, k, user);
      if error != None { return; }
      var d := docs[id];
      var value := BackTranslate(data, locale, english);
      if value == None { return Some(UpstreamFailed); }
      var edited := Edit(d, k, locale, data, value.value);
      docs := docs[id := edited];
      UpdateSectionIsSound(old(State()), id, k, data, user, locale, english);
      return None;
    }

    method BackTranslate(data: Json, locale: string, english: Option<Json>) returns (value: Option<Json>)
      ensures value == EnglishOf(data, locale, english)
    {
      value := Some(data);
      if Foreign(locale) && data.Object? {
        value := english;
      }
    }

    /** The English field is overwritten first, then the cache is reconciled. */
    method Edit(d: Doc, k: Section, locale: string, payload: Json, value: Json) returns (edited: Doc)
      ensures edited == Edited(d, k, locale, payload, value)
    {
      edited := Write(d, k, value);
      var translations := ReconcileCache(d, k, locale, payload, Edits(edited, k));
      edited := edited.(translations := translations);
    }

    /** The dictionary of cached locales, edited in place while its keys are visited. */
    method ReconcileCache(d: Doc, k: Section, locale: string, payload: Json, stamp: nat)
      returns (translations: map<string, LocaleCache>)
      ensures translations == Reconciled(d, k, locale, payload, stamp)
    {
      translations := d.translations;
      if Foreign(locale) {
        var own := OwnCache(d, locale);
        translations := translations[locale := Cached(own[k := Entry(payload, stamp)])];
      }
      ghost var start := translations;
      var keys := translations.Keys;
      while keys != {}
        invariant keys <= start.Keys
        invariant translations == Visited(start, keys, locale, k)
      {
        var l :| l in keys;
        VisitOne(start, keys, locale, k, l);
        keys := keys - {l};
        if l != locale {
          var sections := translations[l];
          if sections.Cached? {
            sections := Cached(sections.entries - {k});
            if sections.entries == map[] {
              translations := translations - {l};
            } else {
              translations := translations[l := sections];
            }
          } else {
            translations := translations - {l};
          }
        }
      }
      VisitedAll(d, start, locale, k, payload, stamp);
    }

    /** `sent` is what goes to the translator when nothing is cached for the language. */
    method Translate(id: string, language: string, reply: Option<LocaleReply>)
      returns (error: Option<Error>, served: Option<LocaleCache>, sent: map<Section, Json>)
      modifies this
      ensures Ends(ReplyTranslate(old(State()), id, language, reply), old(State()), State(), error)
      ensures Sound(old(State())) ==> Sound(State())
      ensures error == None ==>
        id in docs && language in docs[id].translations && served == Some(docs[id].translations[language])
      ensures id in docs && language !in old(docs)[id].translations ==> sent == ToTranslate(old(docs)[id])
    {
      served, sent := None, map[];
      if id !in docs { return Some(NotFound), served, sent; }
      var d := docs[id];
      if language in d.translations {
        if d.translations[language].NotADictionary? { return Some(UpstreamFailed), served, sent; }
        return None, Some(d.translations[language]), sent;
      }
      sent := CollectFilled(d, TRANSLATABLE_SECTIONS);
      if reply == None { return Some(UpstreamFailed), served, sent; }
      var translated := Stamped(d, reply.value);
      docs := docs[id := d.(translations := d.translations[language := translated])];
      TranslateIsSound(old(State()), id, language, reply);
      return None, Some(translated), sent;
    }

    /** The loop over the translatable sections. */
    method CollectFilled(d: Doc, keys: seq<Section>) returns (sent: map<Section, Json>)
      ensures sent == Filled(d, keys)
    {
      sent := map[];
      for i := 0 to |keys|
        invariant sent == Filled(d, keys[..i])
      {
        var value := Get(d, keys[i]);
        if value != Null {
          sent := sent[keys[i] := value];
        }
      }
      assert keys[..|keys|] == keys;
    }

    method StartGeneration(id: string, newId: string, user: string) returns (error: Option<Error>)
      modifies this
      ensures Ends(ReplyStartGeneration(old(State()), id, newId, user), old(State()), State(), error)
      ensures Sound(old(State())) ==> Sound(State())
    {
      if id !in docs { return Some(NotFound); }
      var d := docs[id];
      if d.status == Generating { return Some(InProgress); }
      if d.book !in books { return Some(NotFound); }
      if Get(d, StructuralOutline) == Null && Get(d, ParticipantRegister) == Null {
        docs := docs[id := d.(status := Generating, lockedBy := None, lockedAt := None)];
        StartGenerationIsSound(old(State()), id, newId, user);
        return None;
      }
      var target := NewDoc(d.book, d.version + 1, d.rangeStart, d.rangeEnd, Generating, user,
                           map[GenreContext := Get(d, GenreContext)]);
      error := Add(newId, target);
      StartGenerationIsSound(old(State()), id, newId, user);
    }

    method FinishGeneration(id: string, written: Option<map<Section, Json>>) returns (error: Option<Error>)
      modifies this
      ensures Ends(ReplyFinishGeneration(old(State()), id, written), old(State()), State(), error)
      ensures Sound(old(State())) ==> Sound(State())
    {
      if id !in docs { return Some(NotFound); }
      var d := docs[id];
      if d.status != Generating { return Some(Conflict); }
      if written == None {
        docs := docs[id := d.(status := Draft)];
        FinishGenerationIsSound(old(State()), id, written);
        return None;
      }
      docs := docs[id := WriteAll(d, StoredSections(written.value)).(status := Review)];
      FinishGenerationIsSound(old(State()), id, written);
      return None;
    }

    method CancelGeneration(id: string) returns (error: Option<Error>)
      modifies this
      ensures Ends(ReplyCancelGeneration(old(State()), id), old(State()), State(), error)
      ensures Sound(old(State())) ==> Sound(State())
    {
      if id !in docs { return Some(NotFound); }
      if docs[id].status != Generating { return Some(Conflict); }
      docs := docs - {id};
      CancelGenerationIsSound(old(State()), id);
      return None;
    }

    method NewVersion(id: string, newId: string, user: string) returns (error: Option<Error>)
      modifies this
      ensures Ends(ReplyNewVersion(old(State()), id, newId, user), old(State()), State(), error)
      ensures Sound(old(State())) ==> Sound(State())
    {
      if id !in docs { return Some(NotFound); }
      var d := docs[id];
      if d.status != Approved { return Some(Conflict); }
      error := Add(newId, NewDoc(d.book, d.version + 1, d.rangeStart, d.rangeEnd, Draft, user, d.sections));
      NewVersionIsSound(old(State()), id, newId, user);
    }

    method Create(newId: string, book: string, user: string, genre: string,
                  rangeStart: Option<int>, rangeEnd: Option<int>) returns (error: Option<Error>)
      modifies this
      ensures Ends(ReplyCreate(old(State()), newId, book, user, genre, rangeStart, rangeEnd),
                   old(State()), State(), error)
      ensures Sound(old(State())) ==> Sound(State())
    {
      if book !in books || !books[book] { return Some(NotAuthorized); }
      var maxVersion := LatestVersion(book, rangeStart, rangeEnd);
      error := Add(newId,
        NewDoc(book, maxVersion + 1, rangeStart, rangeEnd, Draft, user, map[GenreContext := Object(genre)]));
      CreateIsSound(old(State()), newId, book, user, genre, rangeStart, rangeEnd);
    }

    /** The query for the latest version of a range; 0 without one. */
    method LatestVersion(book: string, rangeStart: Option<int>, rangeEnd: Option<int>) returns (latest: int)
      ensures latest == MaxVersion(VersionsInRange(State(), book, rangeStart, rangeEnd))
    {
      ghost var versions := VersionsInRange(State(), book, rangeStart, rangeEnd);
      latest := 0;
      var ids := docs.Keys;
      while ids != {}
        invariant ids <= docs.Keys && latest >= 0
        invariant latest == 0 || latest in versions
        invariant forall x :: x in docs && x !in ids && SameRange(docs[x], book, rangeStart, rangeEnd) ==>
          docs[x].version <= latest
      {
        var x :| x in ids;
        ids := ids - {x};
        if SameRange(docs[x], book, rangeStart, rangeEnd) && docs[x].version > latest {
          latest := docs[x].version;
        }
      }
      MaxVersionBounds(versions);
    }

    /** Inserting a row under the table's primary and unique keys. */
    method Add(newId: string, d: Doc) returns (error: Option<Error>)
      modifies this
      ensures Ends(Insert(old(State()), newId, d), old(State()), State(), error)
    {
      if newId in docs { return Some(Integrity); }
      if d.rangeStart.Some? && d.rangeEnd.Some?
         && exists x ::
             x in docs && SameRange(docs[x], d.book, d.rangeStart, d.rangeEnd) && docs[x].version == d.version {
        return Some(Integrity);
      }
      docs := docs[newId := d];
      return None;
    }
  }
}
