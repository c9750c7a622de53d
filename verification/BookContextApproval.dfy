/**
  The quorum: when it is reached, that the order of approvals does not matter, and which calls keep
  the status of a document in step with its stored approvals.
*/
module BookContextApproval {
  import opened Options
  import opened BookContext
  import opened BookContextSafety
  import opened BookContextScenario

  // ---- Order independence ------------------------------------------------------------------

  datatype Vote = Vote(user: string, roles: seq<Role>, locale: string)

  /** Casting votes one after another; a refused vote changes nothing. */
  ghost function Cast(s: Store, id: string, votes: seq<Vote>): Store
    decreases |votes|
  {
    if votes == [] then s
    else Cast(After(s, Approve(id, votes[0].user, votes[0].roles, votes[0].locale)), id, votes[1..])
  }

  ghost predicate Offered(votes: seq<Vote>, r: Role) {
    exists v :: v in votes && r in v.roles
  }

  ghost predicate TwoVoters(votes: seq<Vote>) {
    exists v, w :: v in votes && w in votes && v.user != w.user
  }

  /** The whole electorate suffices: an admin, or two people covering every specialty. */
  ghost predicate Suffices(votes: seq<Vote>) {
    Offered(votes, Admin) || (TwoVoters(votes) && forall r :: r in SPECIALIST_ROLES ==> Offered(votes, r))
  }

  ghost predicate Electorate(votes: seq<Vote>) {
    && (forall v :: v in votes ==> Capable(v.roles) != [])
    && (forall i, j :: 0 <= i < j < |votes| ==> votes[i].user != votes[j].user)
  }

  function Row(v: Vote): Approval
    requires Capable(v.roles) != []
  {
    Approval(v.user, Capable(v.roles)[0], Capable(v.roles), v.locale)
  }

  /** The approvals stored for a document are those of the votes `past`, in order. */
  ghost predicate Recorded(approvals: seq<Approval>, past: seq<Vote>) {
    && |approvals| == |past|
    && (forall i :: 0 <= i < |past| ==> Capable(past[i].roles) != [] && approvals[i] == Row(past[i]))
  }

  lemma {:induction false} RowRoles(v: Vote)
    requires Capable(v.roles) != []
    ensures forall r :: r in APPROVE_CAPABLE ==> (r in RolesOf(Row(v)) <==> r in v.roles)
  {
    CapableKeepsExactly(v.roles);
  }

  lemma {:induction false} SomeRecorded(approvals: seq<Approval>, past: seq<Vote>, r: Role)
    requires Recorded(approvals, past) && r in APPROVE_CAPABLE
    ensures Represented(approvals, r) <==> Offered(past, r)
  {
    forall i | 0 <= i < |past| ensures r in RolesOf(approvals[i]) <==> r in past[i].roles { RowRoles(past[i]); }
    if a :| a in approvals && r in RolesOf(a) {
      var i :| 0 <= i < |approvals| && approvals[i] == a;
      assert past[i] in past && r in past[i].roles;
    }
    if v :| v in past && r in v.roles {
      var i :| 0 <= i < |past| && past[i] == v;
      assert approvals[i] in approvals && r in RolesOf(approvals[i]);
    }
  }

  lemma {:induction false} TwoRecorded(approvals: seq<Approval>, past: seq<Vote>)
    requires Recorded(approvals, past)
    ensures TwoPeople(approvals) <==> TwoVoters(past)
  {
    if a, b :| a in approvals && b in approvals && a.user != b.user {
      var i :| 0 <= i < |approvals| && approvals[i] == a;
      var j :| 0 <= j < |approvals| && approvals[j] == b;
      assert past[i] in past && past[j] in past;
    }
    if v, w :| v in past && w in past && v.user != w.user {
      var i :| 0 <= i < |past| && past[i] == v;
      var j :| 0 <= j < |past| && past[j] == w;
      assert approvals[i] in approvals && approvals[j] in approvals;
    }
  }

  lemma {:induction false} RecordedQuorum(approvals: seq<Approval>, past: seq<Vote>)
    requires Recorded(approvals, past)
    ensures Quorum(approvals) <==> Suffices(past)
  {
    SomeRecorded(approvals, past, Admin);
    SomeRecorded(approvals, past, Exegete);
    SomeRecorded(approvals, past, BiblicalLanguageSpecialist);
    SomeRecorded(approvals, past, TranslationSpecialist);
    TwoRecorded(approvals, past);
  }

  lemma {:induction false} SufficesMonotone(small: seq<Vote>, large: seq<Vote>)
    requires Suffices(small) && forall v :: v in small ==> v in large
    ensures Suffices(large)
  {
    assert forall r :: Offered(small, r) ==> Offered(large, r);
  }

  lemma {:induction false} ApprovedIgnoresVotes(s: Store, id: string, votes: seq<Vote>)
    requires id in s.docs && s.docs[id].status == Approved
    ensures Cast(s, id, votes) == s
  {
    if votes != [] {
      ApprovedIgnoresVotes(s, id, votes[1..]);
    }
  }

  /** One more vote by a newcomer, while the earlier ones do not suffice. */
  lemma {:induction false} CastOne(s: Store, id: string, past: seq<Vote>, v: Vote)
    requires id in s.docs && (s.docs[id].status == Draft || s.docs[id].status == Review) && Capable(v.roles) != []
    requires Recorded(s.docs[id].approvals, past) && forall p :: p in past ==> p.user != v.user
    ensures var after := After(s, Approve(id, v.user, v.roles, v.locale));
      && id in after.docs && Recorded(after.docs[id].approvals, past + [v])
      && after.docs[id].status == if Suffices(past + [v]) then Approved else Review
  {
    var d := s.docs[id];
    forall a | a in d.approvals ensures a.user != v.user {
      var i :| 0 <= i < |past| && a == d.approvals[i];
      assert past[i] in past;
    }
    var all := d.approvals + [Row(v)];
    assert Recorded(all, past + [v]);
    RecordedQuorum(all, past + [v]);
    assert Left(s, ReplyApprove(s, id, v.user, v.roles, v.locale)).docs[id].approvals == all;
  }

  lemma {:induction false} CastFrom(s: Store, id: string, past: seq<Vote>, votes: seq<Vote>)
    requires Electorate(past + votes)
    requires id in s.docs && (s.docs[id].status == Draft || s.docs[id].status == Review)
    requires Recorded(s.docs[id].approvals, past) && !Suffices(past)
    requires past == [] <==> s.docs[id].status == Draft
    ensures id in Cast(s, id, votes).docs
    ensures Cast(s, id, votes).docs[id].status ==
      if Suffices(past + votes) then Approved else if past + votes == [] then Draft else Review
    decreases |votes|
  {
    if votes == [] {
      assert past + votes == past;
    } else {
      var v := votes[0];
      var next := past + [v];
      assert past + votes == next + votes[1..];
      assert (past + votes)[|past|] == v;
      assert forall i :: 0 <= i < |past| ==> (past + votes)[i] == past[i];
      CastOne(s, id, past, v);
      var s' := After(s, Approve(id, v.user, v.roles, v.locale));
      if Suffices(next) {
        SufficesMonotone(next, past + votes);
        ApprovedIgnoresVotes(s', id, votes[1..]);
      } else {
        CastFrom(s', id, next, votes[1..]);
      }
    }
  }

  /** A draft without approvals ends approved exactly when the electorate as a whole suffices. */
  lemma {:induction false} VotesDecide(s: Store, id: string, votes: seq<Vote>)
    requires id in s.docs && s.docs[id].status == Draft && s.docs[id].approvals == []
    requires Electorate(votes)
    ensures id in Cast(s, id, votes).docs
    ensures Cast(s, id, votes).docs[id].status == Approved <==> Suffices(votes)
    ensures !Suffices(votes) ==> Cast(s, id, votes).docs[id].status == if votes == [] then Draft else Review
  {
    assert [] + votes == votes;
    CastFrom(s, id, [], votes);
  }

  /** Whatever order the same votes arrive in, the document ends in the same status. */
  lemma {:induction false} VoteOrderIrrelevant(s: Store, id: string, votes: seq<Vote>, shuffled: seq<Vote>)
    requires id in s.docs && s.docs[id].status == Draft && s.docs[id].approvals == []
    requires Electorate(votes) && Electorate(shuffled)
    requires multiset(votes) == multiset(shuffled)
    ensures id in Cast(s, id, votes).docs && id in Cast(s, id, shuffled).docs
    ensures Cast(s, id, votes).docs[id].status == Cast(s, id, shuffled).docs[id].status
  {
    forall v ensures v in votes <==> v in shuffled {
      assert v in votes <==> v in multiset(votes);
      assert v in shuffled <==> v in multiset(shuffled);
    }
    assert Suffices(votes) <==> Suffices(shuffled) by {
      if Suffices(votes) { SufficesMonotone(votes, shuffled); }
      if Suffices(shuffled) { SufficesMonotone(shuffled, votes); }
    }
    assert |votes| == |multiset(votes)| == |multiset(shuffled)| == |shuffled|;
    VotesDecide(s, id, votes);
    VotesDecide(s, id, shuffled);
  }

  // ---- Status and stored approvals ---------------------------------------------------------

  ghost predicate SettledDoc(d: Doc) {
    d.status == Approved <==> Quorum(d.approvals)
  }

  /** Approved documents, and only they, hold a quorum of approvals. */
  ghost predicate Settled(s: Store) {
    forall x :: x in s.docs ==> SettledDoc(s.docs[x])
  }

  /** Generating in place on an approved document that has neither outline nor participants. */
  predicate RestartsApproved(s: Store, op: Op) {
    && op.StartGeneration? && op.id in s.docs && s.docs[op.id].book in s.books
    && s.docs[op.id].status == Approved && !HasContent(s.docs[op.id])
  }

  lemma {:induction false} NoQuorumYet()
    ensures !Quorum([])
  {}

  lemma {:induction false} InsertIsSettled(s: Store, newId: string, d: Doc)
    requires Settled(s) && d.status != Approved && d.approvals == []
    ensures Settled(Left(s, Insert(s, newId, d)))
  {
    NoQuorumYet();
  }

  lemma {:induction false} PutIsSettled(s: Store, id: string, d: Doc)
    requires Settled(s) && SettledDoc(d)
    ensures Settled(Put(s, id, d))
  {}

  lemma {:induction false} CreateIsSettled(s: Store, newId: string, book: string, user: string, genre: string,
                                           rangeStart: Option<int>, rangeEnd: Option<int>)
    requires Settled(s)
    ensures Settled(Left(s, ReplyCreate(s, newId, book, user, genre, rangeStart, rangeEnd)))
  {
    var version := MaxVersion(VersionsInRange(s, book, rangeStart, rangeEnd)) + 1;
    var sections := map[GenreContext := Object(genre)];
    InsertIsSettled(s, newId, NewDoc(book, version, rangeStart, rangeEnd, Draft, user, sections));
  }

  lemma {:induction false} NewVersionIsSettled(s: Store, id: string, newId: string, user: string)
    requires Settled(s)
    ensures Settled(Left(s, ReplyNewVersion(s, id, newId, user)))
  {
    if id in s.docs {
      var d := s.docs[id];
      InsertIsSettled(s, newId, NewDoc(d.book, d.version + 1, d.rangeStart, d.rangeEnd, Draft, user, d.sections));
    }
  }

  lemma {:induction false} StartIsSettled(s: Store, id: string, newId: string, user: string)
    requires Settled(s)
      && (id in s.docs && s.docs[id].status == Approved && s.docs[id].book in s.books ==> HasContent(s.docs[id]))
    ensures Settled(Left(s, ReplyStartGeneration(s, id, newId, user)))
  {
    if id in s.docs {
      var d := s.docs[id];
      if HasContent(d) {
        InsertIsSettled(s, newId, NewDoc(d.book, d.version + 1, d.rangeStart, d.rangeEnd, Generating, user,
                                         map[GenreContext := Get(d, GenreContext)]));
      } else if d.book in s.books {
        assert SettledDoc(d);
        PutIsSettled(s, id, Unlocked(d).(status := Generating));
      }
    }
  }

  lemma {:induction false} ApproveIsSettled(s: Store, id: string, user: string, roles: seq<Role>, locale: string)
    requires Settled(s)
    ensures Settled(Left(s, ReplyApprove(s, id, user, roles, locale)))
  {
    var r := ReplyApprove(s, id, user, roles, locale);
    if r.Ok? { PutIsSettled(s, id, r.store.docs[id]); }
  }

  lemma {:induction false} SetActiveIsSettled(s: Store, id: string)
    requires Settled(s)
    ensures Settled(Left(s, ReplySetActive(s, id)))
  {
    NoQuorumYet();
  }

  lemma {:induction false} RequestRevisionIsSettled(s: Store, id: string, role: Role)
    requires Settled(s)
    ensures Settled(Left(s, ReplyRequestRevision(s, id, role)))
  {
    NoQuorumYet();
  }

  lemma {:induction false} UpdateSectionIsSettled(s: Store, id: string, k: Section, data: Json, user: string,
                                                  locale: string, english: Option<Json>)
    requires Settled(s)
    ensures Settled(Left(s, ReplyUpdateSection(s, id, k, data, user, locale, english)))
  {
    var r := ReplyUpdateSection(s, id, k, data, user, locale, english);
    if r.Ok? { PutIsSettled(s, id, r.store.docs[id]); }
  }

  lemma {:induction false} TranslateIsSettled(s: Store, id: string, language: string, reply: Option<LocaleReply>)
    requires Settled(s)
    ensures Settled(Left(s, ReplyTranslate(s, id, language, reply)))
  {
    var r := ReplyTranslate(s, id, language, reply);
    if r.Ok? { PutIsSettled(s, id, r.store.docs[id]); }
  }

  lemma {:induction false} LockIsSettled(s: Store, id: string, user: string, now: int)
    requires Settled(s)
    ensures Settled(Left(s, ReplyLock(s, id, user, now)))
  {}

  lemma {:induction false} UnlockIsSettled(s: Store, id: string, user: string, isAdmin: bool)
    requires Settled(s)
    ensures Settled(Left(s, ReplyUnlock(s, id, user, isAdmin)))
  {}

  lemma {:induction false} FinishGenerationIsSettled(s: Store, id: string, written: Option<map<Section, Json>>)
    requires Settled(s)
    ensures Settled(Left(s, ReplyFinishGeneration(s, id, written)))
  {
    var r := ReplyFinishGeneration(s, id, written);
    if r.Ok? {
      assert SettledDoc(s.docs[id]);
      PutIsSettled(s, id, r.store.docs[id]);
    }
  }

  lemma {:induction false} CancelGenerationIsSettled(s: Store, id: string)
    requires Settled(s)
    ensures Settled(Left(s, ReplyCancelGeneration(s, id)))
  {}

  lemma {:induction false} DeleteUserIsSettled(s: Store, user: string)
    requires Settled(s)
    ensures Settled(Left(s, ReplyDeleteUser(s, user)))
  {}

  lemma {:induction false} StepKeepsSettled(s: Store, op: Op)
    requires Settled(s) && !RestartsApproved(s, op)
    ensures Settled(After(s, op))
  {
    match op
    case Create(newId, book, user, genre, a, b) => CreateIsSettled(s, newId, book, user, genre, a, b);
    case NewVersion(id, newId, user) => NewVersionIsSettled(s, id, newId, user);
    case StartGeneration(id, newId, user) => StartIsSettled(s, id, newId, user);
    case Approve(id, user, roles, locale) => ApproveIsSettled(s, id, user, roles, locale);
    case SetActive(id) => SetActiveIsSettled(s, id);
    case RequestRevision(id, role) => RequestRevisionIsSettled(s, id, role);
    case Lock(id, user, now) => LockIsSettled(s, id, user, now);
    case Unlock(id, user, isAdmin) => UnlockIsSettled(s, id, user, isAdmin);
    case UpdateSection(id, k, data, user, locale, english) =>
      UpdateSectionIsSettled(s, id, k, data, user, locale, english);
    case Translate(id, language, reply) => TranslateIsSettled(s, id, language, reply);
    case FinishGeneration(id, written) => FinishGenerationIsSettled(s, id, written);
    case CancelGeneration(id) => CancelGenerationIsSettled(s, id);
    case DeleteUser(user) => DeleteUserIsSettled(s, user);
  }

  /** One call leaves the one step exactly when it restarts an approved, empty document. */
  lemma {:induction false} SettledUnlessRestarted(s: Store, op: Op)
    requires Settled(s)
    ensures Settled(After(s, op)) <==> !RestartsApproved(s, op)
  {
    if RestartsApproved(s, op) {
      var after := After(s, op);
      assert after.docs[op.id].status == Generating && Quorum(after.docs[op.id].approvals);
    } else {
      StepKeepsSettled(s, op);
    }
  }

  lemma {:induction false} RunIsSettled(t: Run, n: nat)
    requires IsRun(t) && n < |t.states|
    requires forall i :: 0 <= i < n ==> !RestartsApproved(t.states[i], t.ops[i])
    ensures Settled(t.states[n])
  {
    if n > 0 {
      RunIsSettled(t, n - 1);
      StepKeepsSettled(t.states[n - 1], t.ops[n - 1]);
    }
  }

  /** In such runs the status report is complete only for documents that are approved. */
  lemma {:induction false} CompleteReportMeansApproved(t: Run, n: nat, id: string)
    requires IsRun(t) && n < |t.states| && id in t.states[n].docs
    requires forall i :: 0 <= i < n ==> !RestartsApproved(t.states[i], t.ops[i])
    ensures SpecialistsAgree(t.states[n].docs[id].approvals) ==> t.states[n].docs[id].status == Approved
  {
    RunIsSettled(t, n);
  }

  lemma {:induction false} QuorumGrows(before: seq<Approval>, a: Approval)
    requires Quorum(before)
    ensures Quorum(before + [a])
  {
    var all := before + [a];
    assert forall b :: b in before ==> b in all;
    assert forall r :: Represented(before, r) ==> Represented(all, r);
  }

  /** While approvals still form a quorum, one more capable newcomer approves whatever is there now. */
  lemma {:induction false} LeftoverQuorumApprovesAnything(s: Store, id: string, user: string, roles: seq<Role>,
                                                          locale: string)
    requires id in s.docs && (s.docs[id].status == Draft || s.docs[id].status == Review)
    requires Quorum(s.docs[id].approvals) && Capable(roles) != []
    requires forall a :: a in s.docs[id].approvals ==> a.user != user
    ensures After(s, Approve(id, user, roles, locale)).docs[id].status == Approved
  {
    QuorumGrows(s.docs[id].approvals, Approval(user, Capable(roles)[0], Capable(roles), locale));
  }

  function TwoRoles(user: string): Approval {
    Approval(user, Exegete, [Exegete, BiblicalLanguageSpecialist], EN)
  }

  function OneRole(user: string): Approval {
    Approval(user, TranslationSpecialist, [TranslationSpecialist], EN)
  }

  lemma {:induction false} OneIsNotEnough(ana: string)
    ensures !Quorum([TwoRoles(ana)])
  {
    assert forall a :: a in [TwoRoles(ana)] ==> a == TwoRoles(ana);
  }

  lemma {:induction false} TwoSpecialistsSuffice(ana: string, bo: string)
    requires ana != bo
    ensures SpecialistsAgree([TwoRoles(ana), OneRole(bo)])
  {
    var all := [TwoRoles(ana), OneRole(bo)];
    assert TwoRoles(ana) in all && OneRole(bo) in all;
    assert Exegete in RolesOf(all[0]) && BiblicalLanguageSpecialist in RolesOf(all[0]);
    assert TranslationSpecialist in RolesOf(all[1]);
  }

  function ReviewedOnce(book: string, ana: string): Doc {
    NewDraft(book, ana).(approvals := [TwoRoles(ana)], status := Review)
  }

  function ApprovedEmpty(book: string, ana: string, bo: string): Doc {
    ApprovedWith(NewDraft(book, ana), [TwoRoles(ana), OneRole(bo)])
  }

  lemma {:induction false} FirstReply(id: string, book: string, ana: string)
    ensures ReplyApprove(Only(id, NewDraft(book, ana)), id, ana, TwoRoles(ana).roles, EN) ==
      Ok(Only(id, ReviewedOnce(book, ana)))
  {
    OneIsNotEnough(ana);
    assert NewDraft(book, ana).approvals + [TwoRoles(ana)] == [TwoRoles(ana)];
    ApproveOnly(id, NewDraft(book, ana), TwoRoles(ana));
  }

  lemma {:induction false} SecondReply(id: string, book: string, ana: string, bo: string)
    requires ana != bo
    ensures ReplyApprove(Only(id, ReviewedOnce(book, ana)), id, bo, OneRole(bo).roles, EN)
      == Ok(Only(id, ApprovedEmpty(book, ana, bo)))
  {
    TwoSpecialistsSuffice(ana, bo);
    assert ReviewedOnce(book, ana).approvals + [OneRole(bo)] == [TwoRoles(ana), OneRole(bo)];
    ApproveOnly(id, ReviewedOnce(book, ana), OneRole(bo));
  }

  /** The run that leads to a document approved while empty. */
  lemma {:induction false} ApprovedWhileEmpty(id: string, book: string, ana: string, bo: string) returns (t: Run)
    requires ana != bo
    ensures EndsWith(t, id, ApprovedEmpty(book, ana, bo)) && |t.ops| == 3
  {
    t := FirstCreated(id, book, ana);
    FirstReply(id, book, ana);
    t := ThenApproved(t, id, NewDraft(book, ana), TwoRoles(ana), ReviewedOnce(book, ana));
    SecondReply(id, book, ana, bo);
    t := ThenApproved(t, id, ReviewedOnce(book, ana), OneRole(bo), ApprovedEmpty(book, ana, bo));
  }

  /** An approved document without content goes through a generation in place. */
  lemma {:induction false} Restarted(t: Run, id: string, d: Doc, user: string, values: map<Section, Json>)
    returns (u: Run)
    requires EndsWith(t, id, d) && d.status == Approved && !HasContent(d) && Unlocked(d) == d
    ensures EndsWith(u, id, Generated(d.(status := Generating), values)) && |u.ops| == |t.ops| + 2
    ensures u.states[|t.ops|] == Only(id, d) && u.ops[|t.ops|] == StartGeneration(id, id, user)
  {
    u := ThenStarted(t, id, d, user);
    var begun := u;
    assert begun.states[..|t.states|][|t.ops|] == Only(id, d);
    u := ThenFinished(u, id, d.(status := Generating), values);
    assert u.states[..|begun.states|][|t.ops|] == begun.states[|t.ops|];
  }

  /**
    The run that breaks the rule, for any book and people: a new document is approved by two
    specialists while still empty, then generated in place. Whatever the generation wrote comes back
    in review with a complete report.
  */
  lemma {:induction false} RestartLeavesReviewComplete(id: string, book: string, ana: string, bo: string,
                                                       values: map<Section, Json>) returns (t: Run)
    requires ana != bo
    ensures IsRun(t) && |t.ops| == 5 && RestartsApproved(t.states[3], t.ops[3])
    ensures id in t.states[5].docs && t.states[5].docs[id].status == Review
    ensures SpecialistsAgree(t.states[5].docs[id].approvals)
  {
    t := ApprovedWhileEmpty(id, book, ana, bo);
    TwoSpecialistsSuffice(ana, bo);
    t := Restarted(t, id, ApprovedEmpty(book, ana, bo), ana, values);
  }
}
