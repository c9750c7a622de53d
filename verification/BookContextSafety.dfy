/** What every run of the Book Context workflow keeps. */
module BookContextSafety {
  import opened Options
  import opened BookContext

  // ---- The invariant -----------------------------------------------------------------------

  ghost predicate DistinctApprovers(approvals: seq<Approval>) {
    forall i, j :: 0 <= i < j < |approvals| ==> approvals[i].user != approvals[j].user
  }

  ghost predicate SoundDoc(d: Doc) {
    && (d.status == Approved ==> Quorum(d.approvals))
    && DistinctApprovers(d.approvals)
    && (forall a :: a in d.approvals ==> a.roles != [] && forall r :: r in a.roles ==> r in APPROVE_CAPABLE)
    && (d.lockedBy.Some? ==> d.lockedAt.Some? && (d.status == Draft || d.status == Review))
  }

  ghost predicate OneActivePerBook(s: Store) {
    forall x, y ::
      x in s.docs && y in s.docs && s.docs[x].active && s.docs[y].active && s.docs[x].book == s.docs[y].book
      ==> x == y
  }

  predicate SameRangedVersion(d: Doc, e: Doc) {
    && d.rangeStart.Some? && d.rangeEnd.Some?
    && SameRange(e, d.book, d.rangeStart, d.rangeEnd) && e.version == d.version
  }

  /** A range that is fully given numbers its documents without repetition. */
  ghost predicate RangedVersionsDistinct(s: Store) {
    forall x, y :: x in s.docs && y in s.docs && SameRangedVersion(s.docs[x], s.docs[y]) ==> x == y
  }

  ghost predicate Sound(s: Store) {
    && (forall x :: x in s.docs ==> SoundDoc(s.docs[x]))
    && OneActivePerBook(s)
    && RangedVersionsDistinct(s)
  }

  lemma {:induction false} CapableKeepsExactly(roles: seq<Role>)
    ensures forall r :: r in Capable(roles) <==> r in roles && r in APPROVE_CAPABLE
  {
    if roles != [] {
      CapableKeepsExactly(roles[1..]);
      assert roles == [roles[0]] + roles[1..];
    }
  }

  /** Rewriting one document keeps the store sound if its identity and its claim to be active are kept. */
  lemma {:induction false} PutIsSound(s: Store, id: string, d: Doc)
    requires Sound(s) && id in s.docs && SoundDoc(d)
    requires d.book == s.docs[id].book && d.version == s.docs[id].version
    requires d.rangeStart == s.docs[id].rangeStart && d.rangeEnd == s.docs[id].rangeEnd
    requires d.active ==> s.docs[id].active || !BookHasActive(s, d.book)
    ensures Sound(Put(s, id, d))
  {}

  lemma {:induction false} InsertIsSound(s: Store, newId: string, d: Doc)
    requires Sound(s) && SoundDoc(d) && !d.active
    ensures Insert(s, newId, d).Ok? ==> Sound(Insert(s, newId, d).store)
  {}

  /** A capable person who has not approved yet extends the approvals soundly. */
  lemma {:induction false} ApprovalsGrow(approvals: seq<Approval>, user: string, roles: seq<Role>, locale: string)
    requires DistinctApprovers(approvals) && Capable(roles) != [] && forall a :: a in approvals ==> a.user != user
    ensures DistinctApprovers(approvals + [Approval(user, Capable(roles)[0], Capable(roles), locale)])
    ensures forall r :: r in Capable(roles) ==> r in APPROVE_CAPABLE
  {
    CapableKeepsExactly(roles);
  }

  /** The document after one more approval, whatever becomes of its active mark. */
  lemma {:induction false} ApprovedIsSound(d: Doc, user: string, roles: seq<Role>, locale: string, active: bool)
    requires SoundDoc(d) && (d.status == Draft || d.status == Review)
    requires Capable(roles) != [] && forall a :: a in d.approvals ==> a.user != user
    ensures var all := d.approvals + [Approval(user, Capable(roles)[0], Capable(roles), locale)];
      SoundDoc(if Quorum(all) then Unlocked(d).(approvals := all, status := Approved, active := active)
               else d.(approvals := all, status := Review))
  {
    ApprovalsGrow(d.approvals, user, roles, locale);
  }

  lemma {:induction false} ApproveIsSound(s: Store, id: string, user: string, roles: seq<Role>, locale: string)
    ensures Sound(s) ==> Sound(Left(s, ReplyApprove(s, id, user, roles, locale)))
  {
    if Sound(s) {
      var r := ReplyApprove(s, id, user, roles, locale);
      if r.Ok? {
        var d := s.docs[id];
        ApprovedIsSound(d, user, roles, locale, d.active || !BookHasActive(s, d.book));
        PutIsSound(s, id, r.store.docs[id]);
      }
    }
  }

  /** What activating `id` does to each document. */
  lemma {:induction false} Activated(s: Store, id: string, x: string)
    requires ReplySetActive(s, id).Ok? && x in s.docs && SoundDoc(s.docs[x])
    ensures var d, e := s.docs[x], ReplySetActive(s, id).store.docs[x];
      && SoundDoc(e) && e.book == d.book && e.version == d.version
      && e.rangeStart == d.rangeStart && e.rangeEnd == d.rangeEnd
      && (e.active <==> x == id || (d.active && d.book != s.docs[id].book))
  {}

  lemma {:induction false} SetActiveIsSound(s: Store, id: string)
    ensures Sound(s) ==> Sound(Left(s, ReplySetActive(s, id)))
  {
    if Sound(s) {
      if ReplySetActive(s, id).Ok? {
        var after := ReplySetActive(s, id).store;
        forall x | x in s.docs
          ensures x in after.docs && SoundDoc(after.docs[x]) && SameIdentity(s.docs[x], after.docs[x])
          ensures after.docs[x].active <==> x == id || (s.docs[x].active && s.docs[x].book != s.docs[id].book)
        {
          Activated(s, id, x);
        }
        assert OneActivePerBook(after);
        SameIdentities(s, after);
      }
    }
  }

  predicate SameIdentity(d: Doc, e: Doc) {
    e.book == d.book && e.version == d.version && e.rangeStart == d.rangeStart && e.rangeEnd == d.rangeEnd
  }

  /** Documents that keep book, range and version keep their versions apart. */
  lemma {:induction false} SameIdentities(s: Store, after: Store)
    requires RangedVersionsDistinct(s) && after.docs.Keys == s.docs.Keys
    requires forall x :: x in s.docs ==> SameIdentity(s.docs[x], after.docs[x])
    ensures RangedVersionsDistinct(after)
  {
    forall x, y | x in after.docs && y in after.docs && SameRangedVersion(after.docs[x], after.docs[y]) ensures x == y {
      assert SameRangedVersion(s.docs[x], s.docs[y]);
    }
  }

  lemma {:induction false} Forgotten(s: Store, user: string, x: string)
    requires ReplyDeleteUser(s, user).Ok? && x in s.docs && SoundDoc(s.docs[x])
    ensures var d, e := s.docs[x], ReplyDeleteUser(s, user).store.docs[x];
      SoundDoc(e) && SameIdentity(d, e) && e.active == d.active
  {}

  lemma {:induction false} DeleteUserIsSound(s: Store, user: string)
    ensures Sound(s) ==> Sound(Left(s, ReplyDeleteUser(s, user)))
  {
    if Sound(s) {
      if ReplyDeleteUser(s, user).Ok? {
        var after := ReplyDeleteUser(s, user).store;
        forall x | x in s.docs
          ensures x in after.docs && SoundDoc(after.docs[x]) && SameIdentity(s.docs[x], after.docs[x])
          ensures after.docs[x].active == s.docs[x].active
        {
          Forgotten(s, user, x);
        }
        assert OneActivePerBook(after);
        SameIdentities(s, after);
      }
    }
  }

  lemma {:induction false} CreateIsSound(s: Store, newId: string, book: string, user: string, genre: string,
                                         rangeStart: Option<int>, rangeEnd: Option<int>)
    ensures Sound(s) ==> Sound(Left(s, ReplyCreate(s, newId, book, user, genre, rangeStart, rangeEnd)))
  {
    if Sound(s) {
      var version := MaxVersion(VersionsInRange(s, book, rangeStart, rangeEnd)) + 1;
      var sections := map[GenreContext := Object(genre)];
      InsertIsSound(s, newId, NewDoc(book, version, rangeStart, rangeEnd, Draft, user, sections));
    }
  }

  lemma {:induction false} NewVersionIsSound(s: Store, id: string, newId: string, user: string)
    ensures Sound(s) ==> Sound(Left(s, ReplyNewVersion(s, id, newId, user)))
  {
    if Sound(s) {
      if id in s.docs {
        var d := s.docs[id];
        InsertIsSound(s, newId, NewDoc(d.book, d.version + 1, d.rangeStart, d.rangeEnd, Draft, user, d.sections));
      }
    }
  }

  lemma {:induction false} StartGenerationIsSound(s: Store, id: string, newId: string, user: string)
    ensures Sound(s) ==> Sound(Left(s, ReplyStartGeneration(s, id, newId, user)))
  {
    if Sound(s) {
      if id in s.docs {
        var d := s.docs[id];
        assert SoundDoc(d);
        if HasContent(d) {
          InsertIsSound(s, newId, NewDoc(d.book, d.version + 1, d.rangeStart, d.rangeEnd, Generating, user,
                                         map[GenreContext := Get(d, GenreContext)]));
        } else {
          PutIsSound(s, id, Unlocked(d).(status := Generating));
        }
      }
    }
  }

  lemma {:induction false} RequestRevisionIsSound(s: Store, id: string, role: Role)
    ensures Sound(s) ==> Sound(Left(s, ReplyRequestRevision(s, id, role)))
  {
    if Sound(s) {
      if ReplyRequestRevision(s, id, role).Ok? { PutIsSound(s, id, ReplyRequestRevision(s, id, role).store.docs[id]); }
    }
  }

  lemma {:induction false} FinishGenerationIsSound(s: Store, id: string, written: Option<map<Section, Json>>)
    ensures Sound(s) ==> Sound(Left(s, ReplyFinishGeneration(s, id, written)))
  {
    if Sound(s) {
      if ReplyFinishGeneration(s, id, written).Ok? {
        assert SoundDoc(s.docs[id]);
        PutIsSound(s, id, ReplyFinishGeneration(s, id, written).store.docs[id]);
      }
    }
  }

  lemma {:induction false} CancelGenerationIsSound(s: Store, id: string)
    ensures Sound(s) ==> Sound(Left(s, ReplyCancelGeneration(s, id)))
  {}

  lemma {:induction false} LockIsSound(s: Store, id: string, user: string, now: int)
    ensures Sound(s) ==> Sound(Left(s, ReplyLock(s, id, user, now)))
  {
    if Sound(s) {
      if ReplyLock(s, id, user, now).Ok? { PutIsSound(s, id, ReplyLock(s, id, user, now).store.docs[id]); }
    }
  }

  lemma {:induction false} UnlockIsSound(s: Store, id: string, user: string, isAdmin: bool)
    ensures Sound(s) ==> Sound(Left(s, ReplyUnlock(s, id, user, isAdmin)))
  {
    if Sound(s) {
      if id in s.docs { PutIsSound(s, id, Unlocked(s.docs[id])); }
    }
  }

  lemma {:induction false} UpdateSectionIsSound(s: Store, id: string, k: Section, data: Json, user: string,
                                                locale: string, english: Option<Json>)
    ensures Sound(s) ==> Sound(Left(s, ReplyUpdateSection(s, id, k, data, user, locale, english)))
  {
    if Sound(s) {
      var r := ReplyUpdateSection(s, id, k, data, user, locale, english);
      if r.Ok? { PutIsSound(s, id, r.store.docs[id]); }
    }
  }

  lemma {:induction false} TranslateIsSound(s: Store, id: string, language: string, reply: Option<LocaleReply>)
    ensures Sound(s) ==> Sound(Left(s, ReplyTranslate(s, id, language, reply)))
  {
    if Sound(s) {
      var r := ReplyTranslate(s, id, language, reply);
      if r.Ok? { PutIsSound(s, id, r.store.docs[id]); }
    }
  }

  /** Every call keeps the store sound. */
  lemma {:induction false} StepIsSound(s: Store, op: Op)
    requires Sound(s)
    ensures Sound(After(s, op))
  {
    match op
    case Create(newId, book, user, genre, a, b) => CreateIsSound(s, newId, book, user, genre, a, b);
    case NewVersion(id, newId, user) => NewVersionIsSound(s, id, newId, user);
    case StartGeneration(id, newId, user) => StartGenerationIsSound(s, id, newId, user);
    case Approve(id, user, roles, locale) => ApproveIsSound(s, id, user, roles, locale);
    case SetActive(id) => SetActiveIsSound(s, id);
    case DeleteUser(user) => DeleteUserIsSound(s, user);
    case Lock(id, user, now) => LockIsSound(s, id, user, now);
    case Unlock(id, user, isAdmin) => UnlockIsSound(s, id, user, isAdmin);
    case UpdateSection(id, k, data, user, locale, english) =>
      UpdateSectionIsSound(s, id, k, data, user, locale, english);
    case Translate(id, language, reply) => TranslateIsSound(s, id, language, reply);
    case RequestRevision(id, role) => RequestRevisionIsSound(s, id, role);
    case FinishGeneration(id, written) => FinishGenerationIsSound(s, id, written);
    case CancelGeneration(id) => CancelGenerationIsSound(s, id);
  }

  lemma {:induction false} RunIsSound(t: Run, n: nat)
    requires IsRun(t) && n < |t.states|
    ensures Sound(t.states[n])
  {
    if n > 0 {
      RunIsSound(t, n - 1);
      StepIsSound(t.states[n - 1], t.ops[n - 1]);
    }
  }

  /** The calls that insert a document. */
  predicate Inserts(op: Op) {
    op.Create? || op.NewVersion? || op.StartGeneration?
  }

  lemma {:induction false} InsertsKeepGenerating(s: Store, op: Op, id: string)
    requires Inserts(op) && id in s.docs && s.docs[id].status == Generating
    ensures id in After(s, op).docs && After(s, op).docs[id].status == Generating
  {}

  lemma {:induction false} OthersKeepGenerating(s: Store, op: Op, id: string)
    requires !Inserts(op) && id in s.docs && s.docs[id].status == Generating
    ensures id in After(s, op).docs ==>
      After(s, op).docs[id].status == Generating || (op.FinishGeneration? && op.id == id)
    ensures id !in After(s, op).docs ==> op == CancelGeneration(id)
  {}

  /** A generating document stays generating until its run ends or it is cancelled. */
  lemma {:induction false} GeneratingIsStable(s: Store, op: Op, id: string)
    requires id in s.docs && s.docs[id].status == Generating
    ensures id in After(s, op).docs ==>
      After(s, op).docs[id].status == Generating || (op.FinishGeneration? && op.id == id)
    ensures id !in After(s, op).docs ==> op == CancelGeneration(id)
  {
    if Inserts(op) { InsertsKeepGenerating(s, op, id); } else { OthersKeepGenerating(s, op, id); }
  }

  lemma {:induction false} MaxVersionBounds(versions: set<int>)
    ensures MaxVersion(versions) >= 0
    ensures forall v :: v in versions ==> v <= MaxVersion(versions)
    ensures MaxVersion(versions) == 0 || MaxVersion(versions) in versions
  {
    if v0 :| v0 in versions {
      var v :| v in versions && MaxVersion(versions) ==
        if v > MaxVersion(versions - {v}) then v else MaxVersion(versions - {v});
      MaxVersionBounds(versions - {v});
      forall w | w in versions ensures w <= MaxVersion(versions) {
        assert w == v || w in versions - {v};
      }
    }
  }

  /** Creation numbers a document above every other of its range, so the unique key never refuses it. */
  lemma {:induction false} CreateNeverCollides(s: Store, newId: string, book: string, user: string, genre: string,
                            rangeStart: Option<int>, rangeEnd: Option<int>)
    requires book in s.books && s.books[book] && newId !in s.docs
    ensures ReplyCreate(s, newId, book, user, genre, rangeStart, rangeEnd).Ok?
    ensures var d := ReplyCreate(s, newId, book, user, genre, rangeStart, rangeEnd).store.docs[newId];
      d.version >= 1
      && forall x :: x in s.docs && SameRange(s.docs[x], book, rangeStart, rangeEnd) ==> s.docs[x].version < d.version
  {
    var versions := VersionsInRange(s, book, rangeStart, rangeEnd);
    MaxVersionBounds(versions);
    assert forall x :: x in s.docs && SameRange(s.docs[x], book, rangeStart, rangeEnd) ==>
      s.docs[x].version in versions;
  }
}
