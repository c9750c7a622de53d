/** Building concrete runs over a single document, one call at a time. */
module BookContextScenario {
  import opened Options
  import opened BookContext

  /** A store with one document, whose book exists. */
  function Only(id: string, d: Doc): Store {
    Store(map[id := d], map[d.book := true])
  }

  function Nothing(book: string): Store {
    Store(map[], map[book := true])
  }

  /** The run ends with this document. */
  ghost predicate EndsWith(t: Run, id: string, d: Doc) {
    IsRun(t) && t.states[|t.ops|] == Only(id, d)
  }

  /** `u` is `t` and one more call, which leaves this document. */
  ghost predicate Extends(u: Run, t: Run, op: Op, id: string, d: Doc) {
    EndsWith(u, id, d) && u.ops == t.ops + [op] && |u.states| == |t.states| + 1 && u.states[..|t.states|] == t.states
  }

  lemma {:induction false} Extend(t: Run, s: Store, op: Op, next: Store) returns (u: Run)
    requires IsRun(t) && t.states[|t.ops|] == s && After(s, op) == next
    ensures IsRun(u) && u.ops == t.ops + [op] && u.states == t.states + [next]
  {
    u := Run(t.states + [next], t.ops + [op]);
  }

  // ---- What each call makes of the document ------------------------------------------------

  lemma {:induction false} CreateOnly(id: string, book: string, author: string, genre: string)
    ensures ReplyCreate(Nothing(book), id, book, author, genre, None, None) ==
      Ok(Only(id, NewDoc(book, 1, None, None, Draft, author, map[GenreContext := Object(genre)])))
  {
    assert VersionsInRange(Nothing(book), book, None, None) == {};
  }

  function ApprovedWith(d: Doc, all: seq<Approval>): Doc {
    d.(approvals := all, status := Approved, active := true)
  }

  lemma {:induction false} NoneActive(id: string, d: Doc)
    requires !d.active
    ensures !BookHasActive(Only(id, d), d.book)
  {}

  lemma {:induction false} ApproveOnly(id: string, d: Doc, a: Approval)
    requires (d.status == Draft || d.status == Review) && !d.active && Unlocked(d) == d
    requires a.roles != [] && Capable(a.roles) == a.roles && a.role == a.roles[0]
    requires forall b :: b in d.approvals ==> b.user != a.user
    ensures var all := d.approvals + [a];
      ReplyApprove(Only(id, d), id, a.user, a.roles, a.locale) ==
      Ok(Only(id, if Quorum(all) then ApprovedWith(d, all) else d.(approvals := all, status := Review)))
  {
    NoneActive(id, d);
    PutOnly(id, d, ApprovedWith(d, d.approvals + [a]));
    PutOnly(id, d, d.(approvals := d.approvals + [a], status := Review));
    assert a == Approval(a.user, Capable(a.roles)[0], Capable(a.roles), a.locale);
  }

  lemma {:induction false} PutOnly(id: string, d: Doc, e: Doc)
    requires e.book == d.book
    ensures Put(Only(id, d), id, e) == Only(id, e)
  {}

  lemma {:induction false} StartOnly(id: string, d: Doc, user: string)
    requires d.status != Generating && !HasContent(d) && Unlocked(d) == d
    ensures ReplyStartGeneration(Only(id, d), id, id, user) == Ok(Only(id, d.(status := Generating)))
  {
    PutOnly(id, d, d.(status := Generating));
  }

  function Generated(d: Doc, values: map<Section, Json>): Doc {
    WriteAll(d, StoredSections(values)).(status := Review)
  }

  lemma {:induction false} FinishOnly(id: string, d: Doc, values: map<Section, Json>)
    requires d.status == Generating
    ensures ReplyFinishGeneration(Only(id, d), id, Some(values)) == Ok(Only(id, Generated(d, values)))
  {
    PutOnly(id, d, Generated(d, values));
  }

  function TranslatedTo(d: Doc, locale: string, reply: LocaleReply): Doc {
    d.(translations := map[locale := Stamped(d, reply)])
  }

  lemma {:induction false} TranslateOnly(id: string, d: Doc, locale: string, reply: LocaleReply)
    requires d.translations == map[]
    ensures ReplyTranslate(Only(id, d), id, locale, Some(reply)) == Ok(Only(id, TranslatedTo(d, locale, reply)))
  {
    PutOnly(id, d, TranslatedTo(d, locale, reply));
  }

  function Held(d: Doc, user: string): Doc {
    d.(lockedBy := Some(user), lockedAt := Some(0))
  }

  lemma {:induction false} LockOnly(id: string, d: Doc, user: string)
    requires d.status == Draft && d.lockedBy == None
    ensures ReplyLock(Only(id, d), id, user, 0) == Ok(Only(id, Held(d, user)))
  {
    PutOnly(id, d, Held(d, user));
  }

  /** A save from English into a document without translations. */
  lemma {:induction false} SaveOnly(id: string, d: Doc, k: Section, user: string, data: Json)
    requires d.status == Draft && d.lockedBy == Some(user) && d.translations == map[] && !k.UnknownSection?
    ensures ReplyUpdateSection(Only(id, d), id, k, data, user, EN, None) == Ok(Only(id, Write(d, k, data)))
  {
    assert Reconciled(d, k, EN, data, Edits(Write(d, k, data), k)) == map[];
    PutOnly(id, d, Write(d, k, data));
  }

  // ---- Runs, call by call ------------------------------------------------------------------

  function NewDraft(book: string, author: string): Doc {
    NewDoc(book, 1, None, None, Draft, author, map[GenreContext := Object(EN)])
  }

  lemma {:induction false} FirstCreated(id: string, book: string, author: string) returns (t: Run)
    ensures EndsWith(t, id, NewDraft(book, author)) && |t.ops| == 1
  {
    CreateOnly(id, book, author, EN);
    t := Run([Nothing(book), Only(id, NewDraft(book, author))], [Create(id, book, author, EN, None, None)]);
  }

  lemma {:induction false} ThenApproved(t: Run, id: string, d: Doc, a: Approval, e: Doc) returns (u: Run)
    requires EndsWith(t, id, d)
    requires ReplyApprove(Only(id, d), id, a.user, a.roles, a.locale) == Ok(Only(id, e))
    ensures Extends(u, t, Approve(id, a.user, a.roles, a.locale), id, e)
  {
    u := Extend(t, Only(id, d), Approve(id, a.user, a.roles, a.locale), Only(id, e));
  }

  lemma {:induction false} ThenStarted(t: Run, id: string, d: Doc, user: string) returns (u: Run)
    requires EndsWith(t, id, d) && d.status != Generating && !HasContent(d) && Unlocked(d) == d
    ensures Extends(u, t, StartGeneration(id, id, user), id, d.(status := Generating))
  {
    StartOnly(id, d, user);
    u := Extend(t, Only(id, d), StartGeneration(id, id, user), Only(id, d.(status := Generating)));
  }

  lemma {:induction false} ThenFinished(t: Run, id: string, d: Doc, values: map<Section, Json>) returns (u: Run)
    requires EndsWith(t, id, d) && d.status == Generating
    ensures Extends(u, t, FinishGeneration(id, Some(values)), id, Generated(d, values))
  {
    FinishOnly(id, d, values);
    u := Extend(t, Only(id, d), FinishGeneration(id, Some(values)), Only(id, Generated(d, values)));
  }

  lemma {:induction false} ThenTranslated(t: Run, id: string, d: Doc, locale: string, reply: LocaleReply)
    returns (u: Run)
    requires EndsWith(t, id, d) && d.translations == map[]
    ensures Extends(u, t, Translate(id, locale, Some(reply)), id, TranslatedTo(d, locale, reply))
  {
    TranslateOnly(id, d, locale, reply);
    u := Extend(t, Only(id, d), Translate(id, locale, Some(reply)), Only(id, TranslatedTo(d, locale, reply)));
  }

  lemma {:induction false} ThenLocked(t: Run, id: string, d: Doc, user: string) returns (u: Run)
    requires EndsWith(t, id, d) && d.status == Draft && d.lockedBy == None
    ensures Extends(u, t, Lock(id, user, 0), id, Held(d, user))
  {
    LockOnly(id, d, user);
    u := Extend(t, Only(id, d), Lock(id, user, 0), Only(id, Held(d, user)));
  }

  lemma {:induction false} ThenSaved(t: Run, id: string, d: Doc, k: Section, user: string, data: Json) returns (u: Run)
    requires EndsWith(t, id, d) && d.status == Draft && d.lockedBy == Some(user)
    requires d.translations == map[] && !k.UnknownSection?
    ensures Extends(u, t, UpdateSection(id, k, data, user, EN, None), id, Write(d, k, data))
  {
    SaveOnly(id, d, k, user, data);
    u := Extend(t, Only(id, d), UpdateSection(id, k, data, user, EN, None), Only(id, Write(d, k, data)));
  }
}
