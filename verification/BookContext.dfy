/**
  Book Context Documents as a state machine.

  A `Store` holds the documents together with their approval rows. Every service function ends in
  one commit, so a call is one atomic `Op`; `Reply` says what the call does to the store or which
  error it raises, and `After` is the store left behind in either case.
*/
module BookContext {
  import opened Options

  datatype Role =
    | Admin
    | Exegete
    | BiblicalLanguageSpecialist
    | TranslationSpecialist
    | OtherRole(name: string)

  const SPECIALIST_ROLES: set<Role> := {Exegete, BiblicalLanguageSpecialist, TranslationSpecialist}
  const APPROVE_CAPABLE: set<Role> := {Admin} + SPECIALIST_ROLES

  datatype Status = Generating | Draft | Review | Approved

  /** The nine stored sections; any other key a caller may name is an `UnknownSection`. */
  datatype Section =
    | StructuralOutline
    | ParticipantRegister
    | DiscourseThreads
    | TheologicalSpine
    | Places
    | Objects
    | Institutions
    | GenreContext
    | MaintenanceNotes
    | UnknownSection(name: string)

  const TRANSLATABLE_SECTIONS: seq<Section> :=
    [StructuralOutline, ParticipantRegister, DiscourseThreads, TheologicalSpine,
     Places, Objects, Institutions, GenreContext]

  /** A JSON value. The program only asks whether it is null and whether it is an object. */
  datatype Json = Null | Object(text: string) | Other(text: string)

  /**
    A cached translation of one section. `derivedAt` is an observation that no branch reads: the
    number of writes the English section had seen when this entry was derived from it.
  */
  datatype Entry = Entry(value: Json, derivedAt: nat)

  /** What is cached for one locale: normally a dictionary of sections. */
  datatype LocaleCache = Cached(entries: map<Section, Entry>) | NotADictionary(text: string)

  const EN := "en"

  /** LOCK_TIMEOUT in microseconds. */
  const FOUR_HOURS: int := 4 * 60 * 60 * 1_000_000

  datatype Approval = Approval(user: string, role: Role, roles: seq<Role>, locale: string)

  /** `edits` counts the writes to each English section; like `derivedAt`, no branch reads it. */
  datatype Doc = Doc(
    book: string,
    version: int,
    rangeStart: Option<int>,
    rangeEnd: Option<int>,
    status: Status,
    active: bool,
    preparedBy: string,
    sections: map<Section, Json>,
    edits: map<Section, nat>,
    translations: map<string, LocaleCache>,
    lockedBy: Option<string>,
    lockedAt: Option<int>,
    approvals: seq<Approval>)

  /** `books` maps each known Bible book to whether it belongs to the Old Testament. */
  datatype Store = Store(docs: map<string, Doc>, books: map<string, bool>)

  datatype Error = NotFound | NotAuthorized | Conflict | InProgress | Integrity | UpstreamFailed

  datatype Reply = Ok(store: Store) | Err(error: Error)

  /**
    The calls. A call to a language model appears as its outcome: `None` when it raised, otherwise
    the value it returned. `now` is the clock reading of the call and `newId` the generated key.
  */
  datatype Op =
    | Create(newId: string, book: string, user: string, genre: string,
             rangeStart: Option<int>, rangeEnd: Option<int>)
    | NewVersion(id: string, newId: string, user: string)
    | Approve(id: string, user: string, roles: seq<Role>, locale: string)
    | SetActive(id: string)
    | RequestRevision(id: string, role: Role)
    | Lock(id: string, user: string, now: int)
    | Unlock(id: string, user: string, isAdmin: bool)
    | UpdateSection(id: string, section: Section, data: Json, user: string, locale: string,
                    english: Option<Json>)
    | Translate(id: string, language: string, reply: Option<LocaleReply>)
    | StartGeneration(id: string, newId: string, user: string)
    | FinishGeneration(id: string, written: Option<map<Section, Json>>)
    | CancelGeneration(id: string)
    | DeleteUser(user: string)

  datatype LocaleReply = Translated(values: map<Section, Json>) | Garbled(text: string)

  // ---- Reading a document ------------------------------------------------------------------

  function Get(d: Doc, k: Section): Json {
    if k in d.sections then d.sections[k] else Null
  }

  function Edits(d: Doc, k: Section): nat {
    if k in d.edits then d.edits[k] else 0
  }

  /** The entry a cache has for a section in a locale, if any. */
  function EntryIn(cache: map<string, LocaleCache>, locale: string, k: Section): Option<Entry> {
    if locale in cache && cache[locale].Cached? && k in cache[locale].entries then Some(cache[locale].entries[k])
    else None
  }

  function CachedEntry(d: Doc, locale: string, k: Section): Option<Entry> {
    EntryIn(d.translations, locale, k)
  }

  function Holder(s: Store, id: string): Option<string> {
    if id in s.docs then s.docs[id].lockedBy else None
  }

  predicate HasContent(d: Doc) {
    Get(d, StructuralOutline) != Null || Get(d, ParticipantRegister) != Null
  }

  function RolesOf(a: Approval): seq<Role> {
    if a.roles != [] then a.roles else [a.role]
  }

  ghost predicate Represented(approvals: seq<Approval>, r: Role) {
    exists a :: a in approvals && r in RolesOf(a)
  }

  ghost predicate TwoPeople(approvals: seq<Approval>) {
    exists a, b :: a in approvals && b in approvals && a.user != b.user
  }

  /** Two different people, and every specialty represented. */
  ghost predicate SpecialistsAgree(approvals: seq<Approval>) {
    TwoPeople(approvals) && forall r :: r in SPECIALIST_ROLES ==> Represented(approvals, r)
  }

  ghost predicate Quorum(approvals: seq<Approval>) {
    Represented(approvals, Admin) || SpecialistsAgree(approvals)
  }

  // ---- Writing a document ------------------------------------------------------------------

  function Put(s: Store, id: string, d: Doc): Store {
    s.(docs := s.docs[id := d])
  }

  function Unlocked(d: Doc): Doc {
    d.(lockedBy := None, lockedAt := None)
  }

  function Capable(roles: seq<Role>): seq<Role> {
    if roles == [] then []
    else (if roles[0] in APPROVE_CAPABLE then [roles[0]] else []) + Capable(roles[1..])
  }

  ghost predicate BookHasActive(s: Store, book: string) {
    exists x :: x in s.docs && s.docs[x].book == book && s.docs[x].active
  }

  /** The unique key on (book, range, version): rows with a null range never clash. */
  ghost predicate VersionTaken(s: Store, d: Doc) {
    d.rangeStart.Some? && d.rangeEnd.Some? &&
    exists x :: x in s.docs && SameRange(s.docs[x], d.book, d.rangeStart, d.rangeEnd) && s.docs[x].version == d.version
  }

  predicate SameRange(d: Doc, book: string, rangeStart: Option<int>, rangeEnd: Option<int>) {
    d.book == book && d.rangeStart == rangeStart && d.rangeEnd == rangeEnd
  }

  ghost function Insert(s: Store, newId: string, d: Doc): Reply {
    if newId in s.docs || VersionTaken(s, d) then Err(Integrity) else Ok(Put(s, newId, d))
  }

  /** A row as the model's column defaults leave it. */
  function NewDoc(book: string, version: int, rangeStart: Option<int>, rangeEnd: Option<int>,
                  status: Status, user: string, sections: map<Section, Json>): Doc
  {
    Doc(book, version, rangeStart, rangeEnd, status, false, user, sections, map[], map[], None, None, [])
  }

  /** Writing an English section. */
  function Write(d: Doc, k: Section, value: Json): Doc {
    d.(sections := d.sections[k := value], edits := d.edits[k := Edits(d, k) + 1])
  }

  /** Writing many English sections at once. */
  function WriteAll(d: Doc, values: map<Section, Json>): Doc {
    d.(sections := d.sections + values,
       edits := d.edits + map k | k in values :: Edits(d, k) + 1)
  }

  predicate Foreign(locale: string) {
    locale != "" && locale != EN
  }

  /** The cache of a locale other than the saving one once `k` has been dropped from it. */
  function Dropped(c: LocaleCache, k: Section): LocaleCache {
    if c.Cached? then Cached(c.entries - {k}) else c
  }

  predicate KeptAfterDrop(c: LocaleCache, k: Section) {
    c.Cached? && c.entries - {k} != map[]
  }

  function OwnCache(d: Doc, locale: string): map<Section, Entry> {
    if locale in d.translations && d.translations[locale].Cached? then d.translations[locale].entries else map[]
  }

  /** The translation cache after section `k` was saved from `locale` with the given payload. */
  function Reconciled(d: Doc, k: Section, locale: string, payload: Json, stamp: nat): map<string, LocaleCache> {
    var others :=
      map l | l in d.translations && l != locale && KeptAfterDrop(d.translations[l], k)
        :: Dropped(d.translations[l], k);
    if Foreign(locale) then others[locale := Cached(OwnCache(d, locale)[k := Entry(payload, stamp)])]
    else if locale in d.translations then others[locale := d.translations[locale]]
    else others
  }

  // ---- The calls ---------------------------------------------------------------------------

  /** The latest of a set of version numbers, 0 when there is none or none is positive. */
  ghost function MaxVersion(versions: set<int>): int {
    if forall v :: v !in versions then 0
    else
      var v :| v in versions;
      var rest := MaxVersion(versions - {v});
      if v > rest then v else rest
  }

  ghost function VersionsInRange(s: Store, book: string, rangeStart: Option<int>, rangeEnd: Option<int>): set<int> {
    set x | x in s.docs && SameRange(s.docs[x], book, rangeStart, rangeEnd) :: s.docs[x].version
  }

  ghost function ReplyCreate(s: Store, newId: string, book: string, user: string, genre: string,
                             rangeStart: Option<int>, rangeEnd: Option<int>): Reply
  {
    if book !in s.books || !s.books[book] then Err(NotAuthorized)
    else
      var version := MaxVersion(VersionsInRange(s, book, rangeStart, rangeEnd)) + 1;
      Insert(s, newId, NewDoc(book, version, rangeStart, rangeEnd, Draft, user, map[GenreContext := Object(genre)]))
  }

  ghost function ReplyNewVersion(s: Store, id: string, newId: string, user: string): Reply {
    if id !in s.docs then Err(NotFound)
    else
      var d := s.docs[id];
      if d.status != Approved then Err(Conflict)
      else Insert(s, newId, NewDoc(d.book, d.version + 1, d.rangeStart, d.rangeEnd, Draft, user, d.sections))
  }

  ghost function ReplyApprove(s: Store, id: string, user: string, roles: seq<Role>, locale: string): Reply {
    var capable := Capable(roles);
    if capable == [] then Err(NotAuthorized)
    else if id !in s.docs then Err(NotFound)
    else
      var d := s.docs[id];
      if d.status != Draft && d.status != Review then Err(Conflict)
      else if exists a :: a in d.approvals && a.user == user then Err(Conflict)
      else
        var all := d.approvals + [Approval(user, capable[0], capable, locale)];
        if Quorum(all) then
          Ok(Put(s, id,
            Unlocked(d).(approvals := all, status := Approved, active := d.active || !BookHasActive(s, d.book))))
        else
          Ok(Put(s, id, d.(approvals := all, status := Review)))
  }

  function ReplySetActive(s: Store, id: string): Reply {
    if id !in s.docs then Err(NotFound)
    else
      var d := s.docs[id];
      if d.status == Generating then Err(Conflict)
      else
        var chosen := Unlocked(d).(approvals := [], active := true,
                                   status := if d.status == Approved then Review else d.status);
        Ok(s.(docs := map x | x in s.docs ::
                 if x == id then chosen
                 else if s.docs[x].book == d.book then s.docs[x].(active := false)
                 else s.docs[x]))
  }

  function ReplyRequestRevision(s: Store, id: string, role: Role): Reply {
    if role != Admin then Err(NotAuthorized)
    else if id !in s.docs then Err(NotFound)
    else if s.docs[id].status == Generating then Err(Conflict)
    else Ok(Put(s, id, Unlocked(s.docs[id]).(approvals := [], status := Draft)))
  }

  function ReplyLock(s: Store, id: string, user: string, now: int): Reply {
    if id !in s.docs then Err(NotFound)
    else
      var d := s.docs[id];
      if d.status != Draft && d.status != Review then Err(Conflict)
      else if d.lockedBy.Some? && d.lockedBy.value != user
              && !(d.lockedAt.Some? && now - d.lockedAt.value > FOUR_HOURS) then Err(Conflict)
      else Ok(Put(s, id, d.(lockedBy := Some(user), lockedAt := Some(now))))
  }

  function ReplyUnlock(s: Store, id: string, user: string, isAdmin: bool): Reply {
    if id !in s.docs then Err(NotFound)
    else
      var d := s.docs[id];
      if d.lockedBy.None? then Ok(s)
      else if d.lockedBy.value != user && !isAdmin then Err(NotAuthorized)
      else Ok(Put(s, id, Unlocked(d)))
  }

  /** Why an edit of a section is refused, if it is. */
  function EditRefusal(s: Store, id: string, k: Section, user: string): Option<Error> {
    if id !in s.docs then Some(NotFound)
    else
      var d := s.docs[id];
      if d.status == Approved || d.status == Generating then Some(Conflict)
      else if k.UnknownSection? then Some(NotFound)
      else if d.lockedBy.None? then Some(Conflict)
      else if d.lockedBy.value != user then Some(NotAuthorized)
      else None
  }

  /** The document after section `k` was saved from `locale`: English value, edit count and cache. */
  function Edited(d: Doc, k: Section, locale: string, payload: Json, value: Json): Doc {
    var w := Write(d, k, value);
    w.(translations := Reconciled(d, k, locale, payload, Edits(w, k)))
  }

  /** What is stored as the English section: a foreign object's back-translation, anything else as it is. */
  function EnglishOf(data: Json, locale: string, english: Option<Json>): Option<Json> {
    if Foreign(locale) && data.Object? then english else Some(data)
  }

  function ReplyUpdateSection(s: Store, id: string, k: Section, data: Json, user: string, locale: string,
                              english: Option<Json>): Reply
  {
    var refusal := EditRefusal(s, id, k, user);
    var value := EnglishOf(data, locale, english);
    if refusal.Some? then Err(refusal.value)
    else if value.None? then Err(UpstreamFailed)
    else Ok(Put(s, id, Edited(s.docs[id], k, locale, data, value.value)))
  }

  /** Those of the sections that are not null. */
  function Filled(d: Doc, keys: seq<Section>): map<Section, Json> {
    map k | k in keys && Get(d, k) != Null :: Get(d, k)
  }

  /** The sections handed to the translator. */
  function ToTranslate(d: Doc): map<Section, Json> {
    Filled(d, TRANSLATABLE_SECTIONS)
  }

  function Stamped(d: Doc, reply: LocaleReply): LocaleCache {
    match reply
    case Translated(values) => Cached(map k | k in values :: Entry(values[k], Edits(d, k)))
    case Garbled(text) => NotADictionary(text)
  }

  function ReplyTranslate(s: Store, id: string, language: string, reply: Option<LocaleReply>): Reply {
    if id !in s.docs then Err(NotFound)
    else
      var d := s.docs[id];
      if language in d.translations then
        (if d.translations[language].Cached? then Ok(s) else Err(UpstreamFailed))
      else if reply.None? then Err(UpstreamFailed)
      else Ok(Put(s, id, d.(translations := d.translations[language := Stamped(d, reply.value)])))
  }

  ghost function ReplyStartGeneration(s: Store, id: string, newId: string, user: string): Reply {
    if id !in s.docs then Err(NotFound)
    else
      var d := s.docs[id];
      if d.status == Generating then Err(InProgress)
      else if d.book !in s.books then Err(NotFound)
      else if !HasContent(d) then Ok(Put(s, id, Unlocked(d).(status := Generating)))
      else Insert(s, newId, NewDoc(d.book, d.version + 1, d.rangeStart, d.rangeEnd, Generating, user,
                                   map[GenreContext := Get(d, GenreContext)]))
  }

  /**
    The end of a background run: sections and status on success, only the status on failure. The
    run is started for a generating document, which stays generating until here or is deleted (see
    `GeneratingIsStable`), so nothing else is asked of the document.
  */
  function ReplyFinishGeneration(s: Store, id: string, written: Option<map<Section, Json>>): Reply {
    if id !in s.docs then Err(NotFound)
    else
      var d := s.docs[id];
      if d.status != Generating then Err(Conflict)
      else if written.None? then Ok(Put(s, id, d.(status := Draft)))
      else Ok(Put(s, id, WriteAll(d, StoredSections(written.value)).(status := Review)))
  }

  /** Only the nine section columns are copied from a run's result. */
  function StoredSections(values: map<Section, Json>): map<Section, Json> {
    map k | k in values && !k.UnknownSection? :: values[k]
  }

  function ReplyCancelGeneration(s: Store, id: string): Reply {
    if id !in s.docs then Err(NotFound)
    else if s.docs[id].status != Generating then Err(Conflict)
    else Ok(s.(docs := s.docs - {id}))
  }

  /** Deleting an account: refused while it prepared or approved something, and it frees its locks. */
  ghost function ReplyDeleteUser(s: Store, user: string): Reply {
    if exists x ::
         x in s.docs && (s.docs[x].preparedBy == user || exists a :: a in s.docs[x].approvals && a.user == user)
    then Err(Integrity)
    else Ok(s.(docs := map x | x in s.docs ::
                 if s.docs[x].lockedBy == Some(user) then s.docs[x].(lockedBy := None) else s.docs[x]))
  }

  ghost function ReplyTo(s: Store, op: Op): Reply {
    match op
    case Create(newId, book, user, genre, a, b) => ReplyCreate(s, newId, book, user, genre, a, b)
    case NewVersion(id, newId, user) => ReplyNewVersion(s, id, newId, user)
    case Approve(id, user, roles, locale) => ReplyApprove(s, id, user, roles, locale)
    case SetActive(id) => ReplySetActive(s, id)
    case RequestRevision(id, role) => ReplyRequestRevision(s, id, role)
    case Lock(id, user, now) => ReplyLock(s, id, user, now)
    case Unlock(id, user, isAdmin) => ReplyUnlock(s, id, user, isAdmin)
    case UpdateSection(id, k, data, user, locale, english) => ReplyUpdateSection(s, id, k, data, user, locale, english)
    case Translate(id, language, reply) => ReplyTranslate(s, id, language, reply)
    case StartGeneration(id, newId, user) => ReplyStartGeneration(s, id, newId, user)
    case FinishGeneration(id, written) => ReplyFinishGeneration(s, id, written)
    case CancelGeneration(id) => ReplyCancelGeneration(s, id)
    case DeleteUser(user) => ReplyDeleteUser(s, user)
  }

  /** The store left behind by a call that ends so. */
  function Left(s: Store, r: Reply): Store {
    if r.Ok? then r.store else s
  }

  ghost function After(s: Store, op: Op): Store {
    Left(s, ReplyTo(s, op))
  }

  /** A run from a database without documents: `states[i + 1]` is what call `ops[i]` leaves. */
  datatype Run = Run(states: seq<Store>, ops: seq<Op>)

  ghost predicate IsRun(t: Run) {
    && |t.states| == |t.ops| + 1
    && t.states[0].docs == map[]
    && (forall i :: 0 <= i < |t.ops| ==> t.states[i + 1] == After(t.states[i], t.ops[i]))
  }
}
