/** What a reader entering a passage already knows: the book context cut off at the passage's first verse. */
module EntryBrief {
  import opened Options
  import Decimal

  /** A verse as the book context stores it; either number may be missing. */
  datatype Ref = Ref(chapter: Option<int>, verse: Option<int>)

  datatype Place = Place(chapter: int, verse: int)

  /** A state on a participant's arc, or a status of a thread. */
  datatype Moment = Moment(at: Ref, text: string)

  /** `others` stands for the fields that are carried along unread. */
  datatype Participant = Participant(name: string, gloss: string, entry: Ref, arc: seq<Moment>, others: string)

  datatype Thread = Thread(title: string, openedAt: Ref, resolvedAt: Option<Ref>, statuses: seq<Moment>,
                           resolvedAtEntry: bool, others: string)

  /** An institution, a place or an object. */
  datatype Entity = Entity(name: string, gloss: string, appears: Ref, about: string)

  datatype Category = PersonItem | EventItem | InstitutionItem | PlaceItem | ObjectItem

  datatype Item = Item(category: Category, name: string, gloss: string, description: string, reference: string)

  function OrZero(n: Option<int>): int {
    if n.Some? then n.value else 0
  }

  function Where(ref: Ref): Place {
    Place(OrZero(ref.chapter), OrZero(ref.verse))
  }

  /** Reading order. */
  predicate Earlier(a: Place, b: Place) {
    a.chapter < b.chapter || (a.chapter == b.chapter && a.verse < b.verse)
  }

  predicate IsBefore(ref: Ref, target: Place) {
    var chapter, verse := OrZero(ref.chapter), OrZero(ref.verse);
    chapter < target.chapter || (chapter == target.chapter && verse < target.verse)
  }

  // ---- Slicing -----------------------------------------------------------------------------

  function MomentsBefore(arc: seq<Moment>, t: Place): seq<Moment> {
    if arc == [] then []
    else
      var n := |arc| - 1;
      MomentsBefore(arc[..n], t) + if IsBefore(arc[n].at, t) then [arc[n]] else []
  }

  function PersonAt(p: Participant, t: Place): Participant {
    p.(arc := MomentsBefore(p.arc, t))
  }

  predicate ResolvedBefore(th: Thread, t: Place) {
    th.resolvedAt.Some? && IsBefore(th.resolvedAt.value, t)
  }

  function ThreadAt(th: Thread, t: Place): Thread {
    th.(statuses := MomentsBefore(th.statuses, t), resolvedAtEntry := ResolvedBefore(th, t))
  }

  function People(register: seq<Participant>, t: Place): seq<Participant> {
    if register == [] then []
    else
      var n := |register| - 1;
      People(register[..n], t) + if IsBefore(register[n].entry, t) then [PersonAt(register[n], t)] else []
  }

  function Threads(threads: seq<Thread>, t: Place): seq<Thread> {
    if threads == [] then []
    else
      var n := |threads| - 1;
      Threads(threads[..n], t) + if IsBefore(threads[n].openedAt, t) then [ThreadAt(threads[n], t)] else []
  }

  function Appeared(items: seq<Entity>, t: Place): seq<Entity> {
    if items == [] then []
    else
      var n := |items| - 1;
      Appeared(items[..n], t) + if IsBefore(items[n].appears, t) then [items[n]] else []
  }

  method SliceMoments(arc: seq<Moment>, t: Place) returns (sliced: seq<Moment>)
    ensures sliced == MomentsBefore(arc, t)
  {
    sliced := [];
    for i := 0 to |arc|
      invariant sliced == MomentsBefore(arc[..i], t)
    {
      assert arc[..i + 1][..i] == arc[..i];
      if IsBefore(arc[i].at, t) { sliced := sliced + [arc[i]]; }
    }
    assert arc[..|arc|] == arc;
  }

  method SliceParticipants(register: Option<seq<Participant>>, t: Place) returns (result: seq<Participant>)
    ensures result == People(if register.Some? then register.value else [], t)
  {
    result := [];
    var all := if register.Some? then register.value else [];
    for i := 0 to |all|
      invariant result == People(all[..i], t)
    {
      assert all[..i + 1][..i] == all[..i];
      if !IsBefore(all[i].entry, t) { continue; }
      var arc := SliceMoments(all[i].arc, t);
      result := result + [all[i].(arc := arc)];
    }
    assert all[..|all|] == all;
  }

  method SliceThreads(threads: Option<seq<Thread>>, t: Place) returns (result: seq<Thread>)
    ensures result == Threads(if threads.Some? then threads.value else [], t)
  {
    result := [];
    var all := if threads.Some? then threads.value else [];
    for i := 0 to |all|
      invariant result == Threads(all[..i], t)
    {
      assert all[..i + 1][..i] == all[..i];
      if !IsBefore(all[i].openedAt, t) { continue; }
      var statuses := SliceMoments(all[i].statuses, t);
      var isResolved := all[i].resolvedAt.Some? && IsBefore(all[i].resolvedAt.value, t);
      result := result + [all[i].(statuses := statuses, resolvedAtEntry := isResolved)];
    }
    assert all[..|all|] == all;
  }

  // ---- Established items -------------------------------------------------------------------

  function Text(n: Option<int>): string {
    if n.Some? then Decimal.Format(n.value, 0) else ""
  }

  function Cite(ref: Ref): string {
    Text(ref.chapter) + ":" + Text(ref.verse)
  }

  /** The text of the last moment, empty without one. */
  function LastText(arc: seq<Moment>): string {
    if arc == [] then "" else arc[|arc| - 1].text
  }

  function PersonItemOf(p: Participant): Item {
    Item(PersonItem, p.name, p.gloss, p.name + ": " + LastText(p.arc), Cite(p.entry))
  }

  function EventItemOf(th: Thread): Item {
    Item(EventItem, th.title, "", LastText(th.statuses), Cite(th.openedAt))
  }

  function EntityItemOf(category: Category, e: Entity): Item {
    Item(category, e.name, if category == PlaceItem then e.gloss else "", e.about, Cite(e.appears))
  }

  function PersonItems(people: seq<Participant>): seq<Item> {
    seq(|people|, i requires 0 <= i < |people| => PersonItemOf(people[i]))
  }

  function EventItems(threads: seq<Thread>): seq<Item> {
    seq(|threads|, i requires 0 <= i < |threads| => EventItemOf(threads[i]))
  }

  function EntityItems(category: Category, entities: seq<Entity>): seq<Item> {
    seq(|entities|, i requires 0 <= i < |entities| => EntityItemOf(category, entities[i]))
  }

  /** The sliced threads that are not marked resolved. */
  function Unresolved(threads: seq<Thread>): seq<Thread> {
    if threads == [] then []
    else
      var n := |threads| - 1;
      Unresolved(threads[..n]) + if threads[n].resolvedAtEntry then [] else [threads[n]]
  }

  method BuildEstablishedItems(participants: seq<Participant>, threads: seq<Thread>, institutions: seq<Entity>,
                               places: Option<seq<Entity>>, objects: Option<seq<Entity>>) returns (items: seq<Item>)
    ensures items == PersonItems(participants) + EventItems(Unresolved(threads))
      + EntityItems(InstitutionItem, institutions)
      + EntityItems(PlaceItem, if places.Some? then places.value else [])
      + EntityItems(ObjectItem, if objects.Some? then objects.value else [])
  {
    items := [];
    for i := 0 to |participants|
      invariant items == PersonItems(participants[..i])
    {
      var p := participants[i];
      var latestState := "";
      if p.arc != [] { latestState := p.arc[|p.arc| - 1].text; }
      items := items + [Item(PersonItem, p.name, p.gloss, p.name + ": " + latestState, Cite(p.entry))];
    }
    assert participants[..|participants|] == participants;
    var events := AddEvents(threads);
    items := items + events;
    var entities := AddEntities(InstitutionItem, institutions);
    items := items + entities;
    entities := AddEntities(PlaceItem, if places.Some? then places.value else []);
    items := items + entities;
    entities := AddEntities(ObjectItem, if objects.Some? then objects.value else []);
    items := items + entities;
  }

  method AddEvents(threads: seq<Thread>) returns (items: seq<Item>)
    ensures items == EventItems(Unresolved(threads))
  {
    items := [];
    for i := 0 to |threads|
      invariant items == EventItems(Unresolved(threads[..i]))
    {
      assert threads[..i + 1][..i] == threads[..i];
      var th := threads[i];
      if th.resolvedAtEntry { continue; }
      var latestStatus := "";
      if th.statuses != [] { latestStatus := th.statuses[|th.statuses| - 1].text; }
      items := items + [Item(EventItem, th.title, "", latestStatus, Cite(th.openedAt))];
    }
    assert threads[..|threads|] == threads;
  }

  method AddEntities(category: Category, entities: seq<Entity>) returns (items: seq<Item>)
    ensures items == EntityItems(category, entities)
  {
    items := [];
    for i := 0 to |entities|
      invariant items == EntityItems(category, entities[..i])
    {
      var e := entities[i];
      items := items
        + [Item(category, e.name, if category == PlaceItem then e.gloss else "", e.about, Cite(e.appears))];
    }
    assert entities[..|entities|] == entities;
  }

  // ---- Slicing absorbs ---------------------------------------------------------------------

  /** `IsBefore` is reading order, with missing numbers read as zero; moving the target on keeps what was before it. */
  lemma {:induction false} BeforeIsReadingOrder(ref: Ref, t1: Place, t2: Place)
    requires !Earlier(t2, t1)
    ensures IsBefore(ref, t1) <==> Earlier(Where(ref), t1)
    ensures IsBefore(ref, t1) ==> IsBefore(ref, t2)
  {}

  lemma {:induction false} MomentsAppend(a: seq<Moment>, b: seq<Moment>, t: Place)
    ensures MomentsBefore(a + b, t) == MomentsBefore(a, t) + MomentsBefore(b, t)
  {
    if b == [] {
      assert a + b == a;
    } else {
      var n := |b| - 1;
      MomentsAppend(a, b[..n], t);
      assert (a + b)[..|a| + n] == a + b[..n];
    }
  }

  lemma {:induction false} MomentsAbsorb(arc: seq<Moment>, t1: Place, t2: Place)
    requires !Earlier(t2, t1)
    ensures MomentsBefore(MomentsBefore(arc, t2), t1) == MomentsBefore(arc, t1)
  {
    if arc != [] {
      var n := |arc| - 1;
      var last := if IsBefore(arc[n].at, t2) then [arc[n]] else [];
      MomentsAbsorb(arc[..n], t1, t2);
      MomentsAppend(MomentsBefore(arc[..n], t2), last, t1);
      BeforeIsReadingOrder(arc[n].at, t1, t2);
    }
  }

  lemma {:induction false} PeopleAppend(a: seq<Participant>, b: seq<Participant>, t: Place)
    requires |b| <= 1
    ensures People(a + b, t) == People(a, t) + People(b, t)
  {
    if b == [] {
      assert a + b == a;
    } else {
      assert (a + b)[..|a|] == a && People(b[..0], t) == [];
    }
  }

  lemma {:induction false} PeopleAbsorb(register: seq<Participant>, t1: Place, t2: Place)
    requires !Earlier(t2, t1)
    ensures People(People(register, t2), t1) == People(register, t1)
  {
    if register != [] {
      var n := |register| - 1;
      var p := register[n];
      var last := if IsBefore(p.entry, t2) then [PersonAt(p, t2)] else [];
      PeopleAbsorb(register[..n], t1, t2);
      PeopleAppend(People(register[..n], t2), last, t1);
      MomentsAbsorb(p.arc, t1, t2);
      BeforeIsReadingOrder(p.entry, t1, t2);
    }
  }

  lemma {:induction false} ThreadsAppend(a: seq<Thread>, b: seq<Thread>, t: Place)
    requires |b| <= 1
    ensures Threads(a + b, t) == Threads(a, t) + Threads(b, t)
  {
    if b == [] {
      assert a + b == a;
    } else {
      assert (a + b)[..|a|] == a && Threads(b[..0], t) == [];
    }
  }

  lemma {:induction false} ThreadsAbsorb(threads: seq<Thread>, t1: Place, t2: Place)
    requires !Earlier(t2, t1)
    ensures Threads(Threads(threads, t2), t1) == Threads(threads, t1)
  {
    if threads != [] {
      var n := |threads| - 1;
      var th := threads[n];
      var last := if IsBefore(th.openedAt, t2) then [ThreadAt(th, t2)] else [];
      ThreadsAbsorb(threads[..n], t1, t2);
      ThreadsAppend(Threads(threads[..n], t2), last, t1);
      MomentsAbsorb(th.statuses, t1, t2);
      BeforeIsReadingOrder(th.openedAt, t1, t2);
    }
  }

  lemma {:induction false} AppearedAbsorb(items: seq<Entity>, t1: Place, t2: Place)
    requires !Earlier(t2, t1)
    ensures Appeared(Appeared(items, t2), t1) == Appeared(items, t1)
  {
    if items != [] {
      var n := |items| - 1;
      AppearedAbsorb(items[..n], t1, t2);
      BeforeIsReadingOrder(items[n].appears, t1, t2);
      var init := Appeared(items[..n], t2);
      if IsBefore(items[n].appears, t2) {
        assert Appeared(items, t2) == init + [items[n]];
        assert (init + [items[n]])[..|init|] == init;
      } else {
        assert Appeared(items, t2) == init;
      }
    }
  }

  // ---- From passage to passage -------------------------------------------------------------

  lemma {:induction false} PeopleMembers(register: seq<Participant>, t: Place, q: Participant)
    ensures q in People(register, t) <==> exists p :: p in register && IsBefore(p.entry, t) && q == PersonAt(p, t)
  {
    if register != [] {
      var n := |register| - 1;
      PeopleMembers(register[..n], t, q);
      assert register == register[..n] + [register[n]];
    }
  }

  lemma {:induction false} ThreadMembers(threads: seq<Thread>, t: Place, q: Thread)
    ensures q in Threads(threads, t) <==> exists th :: th in threads && IsBefore(th.openedAt, t) && q == ThreadAt(th, t)
  {
    if threads != [] {
      var n := |threads| - 1;
      ThreadMembers(threads[..n], t, q);
      assert threads == threads[..n] + [threads[n]];
    }
  }

  /** What appeared is what the lists hold and the reading has passed. */
  lemma {:induction false} AppearedMembers(items: seq<Entity>, t: Place, e: Entity)
    ensures e in Appeared(items, t) <==> e in items && Earlier(Where(e.appears), t)
    ensures multiset(Appeared(items, t))[e] == if Earlier(Where(e.appears), t) then multiset(items)[e] else 0
  {
    if items != [] {
      var n := |items| - 1;
      AppearedMembers(items[..n], t, e);
      assert items == items[..n] + [items[n]];
    }
  }

  /** A list of moments cut off at the target: each moment before it as often as before, no other. */
  ghost predicate CutAt(arc: seq<Moment>, t: Place, cut: seq<Moment>) {
    forall m :: multiset(cut)[m] == if Earlier(Where(m.at), t) then multiset(arc)[m] else 0
  }

  lemma {:induction false} MomentsAreCut(arc: seq<Moment>, t: Place)
    ensures CutAt(arc, t, MomentsBefore(arc, t))
  {
    if arc != [] {
      var n := |arc| - 1;
      MomentsAreCut(arc[..n], t);
      assert arc == arc[..n] + [arc[n]];
    }
  }

  /** The participant as the brief shows them: everything but the later part of the arc. */
  ghost predicate ShownPerson(p: Participant, t: Place, q: Participant) {
    q.name == p.name && q.gloss == p.gloss && q.entry == p.entry && q.others == p.others && CutAt(p.arc, t, q.arc)
  }

  /** The thread as the brief shows it, marked resolved exactly when that happened before the target. */
  ghost predicate ShownThread(th: Thread, t: Place, q: Thread) {
    && q.title == th.title && q.openedAt == th.openedAt && q.resolvedAt == th.resolvedAt && q.others == th.others
    && CutAt(th.statuses, t, q.statuses)
    && (q.resolvedAtEntry <==> th.resolvedAt.Some? && Earlier(Where(th.resolvedAt.value), t))
  }

  /** The participants shown are those that enter before the target. */
  lemma {:induction false} PeopleShown(register: seq<Participant>, t: Place)
    ensures forall q :: q in People(register, t) ==>
      exists p :: p in register && Earlier(Where(p.entry), t) && ShownPerson(p, t, q)
    ensures forall p :: p in register && Earlier(Where(p.entry), t) ==>
      exists q :: q in People(register, t) && ShownPerson(p, t, q)
  {
    forall q | q in People(register, t)
      ensures exists p :: p in register && Earlier(Where(p.entry), t) && ShownPerson(p, t, q)
    {
      PeopleMembers(register, t, q);
      var p :| p in register && IsBefore(p.entry, t) && q == PersonAt(p, t);
      MomentsAreCut(p.arc, t);
    }
    forall p | p in register && Earlier(Where(p.entry), t)
      ensures exists q :: q in People(register, t) && ShownPerson(p, t, q)
    {
      PeopleMembers(register, t, PersonAt(p, t));
      MomentsAreCut(p.arc, t);
      assert ShownPerson(p, t, PersonAt(p, t));
    }
  }

  /** The threads shown are those opened before the target. */
  lemma {:induction false} ThreadsShown(threads: seq<Thread>, t: Place)
    ensures forall q :: q in Threads(threads, t) ==>
      exists th :: th in threads && Earlier(Where(th.openedAt), t) && ShownThread(th, t, q)
    ensures forall th :: th in threads && Earlier(Where(th.openedAt), t) ==>
      exists q :: q in Threads(threads, t) && ShownThread(th, t, q)
  {
    forall q | q in Threads(threads, t)
      ensures exists th :: th in threads && Earlier(Where(th.openedAt), t) && ShownThread(th, t, q)
    {
      ThreadMembers(threads, t, q);
      var th :| th in threads && IsBefore(th.openedAt, t) && q == ThreadAt(th, t);
      MomentsAreCut(th.statuses, t);
    }
    forall th | th in threads && Earlier(Where(th.openedAt), t)
      ensures exists q :: q in Threads(threads, t) && ShownThread(th, t, q)
    {
      ThreadMembers(threads, t, ThreadAt(th, t));
      MomentsAreCut(th.statuses, t);
      assert ShownThread(th, t, ThreadAt(th, t));
    }
  }

  /** A missing number counts as zero. */
  lemma {:induction false} MissingIsZero(ref: Ref)
    ensures Where(ref).chapter == (if ref.chapter.Some? then ref.chapter.value else 0)
    ensures Where(ref).verse == (if ref.verse.Some? then ref.verse.value else 0)
  {}

  /** Every entry of an earlier passage is, cut off at that passage, an entry of every later one. */
  lemma {:induction false} LaterPassagesKeepPeople(register: seq<Participant>, t1: Place, t2: Place, q: Participant)
    requires !Earlier(t2, t1) && q in People(register, t1)
    ensures exists later :: later in People(register, t2) && q == PersonAt(later, t1)
  {
    PeopleMembers(register, t1, q);
    var p :| p in register && IsBefore(p.entry, t1) && q == PersonAt(p, t1);
    BeforeIsReadingOrder(p.entry, t1, t2);
    PeopleMembers(register, t2, PersonAt(p, t2));
    MomentsAbsorb(p.arc, t1, t2);
    assert q == PersonAt(PersonAt(p, t2), t1);
  }

  /** A thread stays in every later passage, and once resolved it stays resolved. */
  lemma {:induction false} LaterPassagesKeepThreads(threads: seq<Thread>, t1: Place, t2: Place, q: Thread)
    requires !Earlier(t2, t1) && q in Threads(threads, t1)
    ensures exists later ::
      later in Threads(threads, t2) && q == ThreadAt(later, t1) && (q.resolvedAtEntry ==> later.resolvedAtEntry)
  {
    ThreadMembers(threads, t1, q);
    var th :| th in threads && IsBefore(th.openedAt, t1) && q == ThreadAt(th, t1);
    BeforeIsReadingOrder(th.openedAt, t1, t2);
    ThreadMembers(threads, t2, ThreadAt(th, t2));
    MomentsAbsorb(th.statuses, t1, t2);
    if ResolvedBefore(th, t1) { BeforeIsReadingOrder(th.resolvedAt.value, t1, t2); }
    assert q == ThreadAt(ThreadAt(th, t2), t1);
  }

  /** Opened before the target and not resolved before it. */
  predicate OpenAt(th: Thread, t: Place) {
    IsBefore(th.openedAt, t) && !ResolvedBefore(th, t)
  }

  function OpenThreads(threads: seq<Thread>, t: Place): seq<Thread> {
    if threads == [] then []
    else
      var n := |threads| - 1;
      OpenThreads(threads[..n], t) + if OpenAt(threads[n], t) then [threads[n]] else []
  }

  /** The event for an open thread: its status is the last one before the target. */
  function OpenEvent(th: Thread, t: Place): Item {
    Item(EventItem, th.title, "", LastText(MomentsBefore(th.statuses, t)), Cite(th.openedAt))
  }

  function OpenEvents(open: seq<Thread>, t: Place): seq<Item> {
    seq(|open|, i requires 0 <= i < |open| => OpenEvent(open[i], t))
  }

  /** Slicing and then dropping the resolved threads leaves the open ones, each cut off at the target. */
  lemma {:induction false} UnresolvedAreOpen(threads: seq<Thread>, t: Place)
    ensures var open, left := OpenThreads(threads, t), Unresolved(Threads(threads, t));
      |left| == |open| && forall i :: 0 <= i < |open| ==> left[i] == ThreadAt(open[i], t)
  {
    if threads != [] {
      var n := |threads| - 1;
      UnresolvedAreOpen(threads[..n], t);
      var earlier := Threads(threads[..n], t);
      if IsBefore(threads[n].openedAt, t) {
        assert (earlier + [ThreadAt(threads[n], t)])[..|earlier|] == earlier;
      } else {
        assert Threads(threads, t) == earlier;
      }
    }
  }

  /** The events of a brief are exactly the threads open at its target, in order. */
  lemma {:induction false} EventsAreOpenThreads(threads: seq<Thread>, t: Place)
    ensures EventItems(Unresolved(Threads(threads, t))) == OpenEvents(OpenThreads(threads, t), t)
  {
    UnresolvedAreOpen(threads, t);
  }

  /** A thread is open over one stretch of the book: it does not open twice. */
  lemma {:induction false} OpenOnce(th: Thread, t1: Place, t2: Place, t3: Place)
    requires !Earlier(t2, t1) && !Earlier(t3, t2)
    requires OpenAt(th, t1) && OpenAt(th, t3)
    ensures OpenAt(th, t2)
  {
    BeforeIsReadingOrder(th.openedAt, t1, t2);
    if ResolvedBefore(th, t2) { BeforeIsReadingOrder(th.resolvedAt.value, t2, t3); }
  }

  // ---- The reported state ------------------------------------------------------------------

  predicate InVerseOrder(arc: seq<Moment>) {
    forall i, j :: 0 <= i < j < |arc| ==> !Earlier(Where(arc[j].at), Where(arc[i].at))
  }

  /** `k` is the last place in the list that is before the target. */
  predicate LastBefore(arc: seq<Moment>, t: Place, k: nat) {
    k < |arc| && IsBefore(arc[k].at, t) && forall j :: k < j < |arc| ==> !IsBefore(arc[j].at, t)
  }

  lemma {:induction false} LastListed(arc: seq<Moment>, t: Place, k: nat)
    requires LastBefore(arc, t, k)
    ensures MomentsBefore(arc, t) != [] && LastText(MomentsBefore(arc, t)) == arc[k].text
  {
    var n := |arc| - 1;
    if k < n {
      assert !IsBefore(arc[n].at, t);
      LastListed(arc[..n], t, k);
    }
  }

  lemma {:induction false} NoneListed(arc: seq<Moment>, t: Place)
    ensures MomentsBefore(arc, t) == [] <==> forall j :: 0 <= j < |arc| ==> !IsBefore(arc[j].at, t)
  {
    if arc != [] { NoneListed(arc[..|arc| - 1], t); }
  }

  lemma {:induction false} ReportsLastListed(arc: seq<Moment>, t: Place)
    ensures MomentsBefore(arc, t) == [] <==> forall j :: 0 <= j < |arc| ==> !IsBefore(arc[j].at, t)
    ensures forall k: nat :: LastBefore(arc, t, k) ==>
      MomentsBefore(arc, t) != [] && LastText(MomentsBefore(arc, t)) == arc[k].text
  {
    NoneListed(arc, t);
    forall k: nat | LastBefore(arc, t, k)
      ensures MomentsBefore(arc, t) != [] && LastText(MomentsBefore(arc, t)) == arc[k].text
    {
      LastListed(arc, t, k);
    }
  }

  /** For an arc kept in verse order, no moment before the target is later than the one reported. */
  lemma {:induction false} ReportsLatest(arc: seq<Moment>, t: Place, k: nat)
    requires InVerseOrder(arc) && LastBefore(arc, t, k)
    ensures LastText(MomentsBefore(arc, t)) == arc[k].text
    ensures forall j :: 0 <= j < |arc| && IsBefore(arc[j].at, t) ==> !Earlier(Where(arc[k].at), Where(arc[j].at))
  {
    ReportsLastListed(arc, t);
    forall j | 0 <= j < |arc| && IsBefore(arc[j].at, t) ensures !Earlier(Where(arc[k].at), Where(arc[j].at)) {
      assert j <= k;
    }
  }

  /** Such an arc is cut, not filtered: what is left is its beginning. */
  lemma {:induction false} KeepsBeginning(arc: seq<Moment>, t: Place, k: nat)
    requires InVerseOrder(arc) && LastBefore(arc, t, k)
    ensures MomentsBefore(arc, t) == arc[..k + 1]
  {
    var head, tail := arc[..k + 1], arc[k + 1..];
    forall j | 0 <= j < |head| ensures IsBefore(head[j].at, t) { EarlierIsBefore(arc, t, k, j); }
    AllBefore(head, t);
    NoneBefore(tail, t);
    MomentsAppend(head, tail, t);
    assert arc == head + tail;
  }

  lemma {:induction false} EarlierIsBefore(arc: seq<Moment>, t: Place, k: nat, j: nat)
    requires InVerseOrder(arc) && j <= k < |arc| && IsBefore(arc[k].at, t)
    ensures IsBefore(arc[j].at, t)
  {
    if j < k { assert !Earlier(Where(arc[k].at), Where(arc[j].at)); }
  }

  lemma {:induction false} AllBefore(arc: seq<Moment>, t: Place)
    requires forall j :: 0 <= j < |arc| ==> IsBefore(arc[j].at, t)
    ensures MomentsBefore(arc, t) == arc
  {
    if arc != [] { AllBefore(arc[..|arc| - 1], t); }
  }

  lemma {:induction false} NoneBefore(arc: seq<Moment>, t: Place)
    requires forall j :: 0 <= j < |arc| ==> !IsBefore(arc[j].at, t)
    ensures MomentsBefore(arc, t) == []
  {
    if arc != [] { NoneBefore(arc[..|arc| - 1], t); }
  }

  // ---- The text of the items ---------------------------------------------------------------

  /** The digits before the colon of a citation are the chapter, those behind it the verse. */
  lemma {:induction false} CiteReads(chapter: nat, verse: nat) returns (colon: nat)
    ensures var cite := Cite(Ref(Some(chapter), Some(verse)));
      && colon < |cite| && cite[colon] == ':'
      && Reads(cite[..colon], chapter) && Reads(cite[colon + 1..], verse)
  {
    colon := |Text(Some(chapter))|;
    Decimal.FormatShape(chapter, 0);
    Decimal.FormatShape(verse, 0);
    var cite := Cite(Ref(Some(chapter), Some(verse)));
    assert cite[..colon] == Text(Some(chapter)) && cite[colon + 1..] == Text(Some(verse));
  }

  predicate Reads(s: string, n: nat) {
    s != [] && Decimal.AllDigits(s) && Decimal.Value(s) == n
  }

  /** A missing number leaves its side of the colon empty. */
  lemma {:induction false} CiteMissing(ref: Ref)
    ensures ref.chapter == None ==> Cite(ref)[0] == ':'
    ensures ref.verse == None ==> Cite(ref)[|Cite(ref)| - 1] == ':'
    ensures ref.chapter == None && ref.verse == None ==> Cite(ref) == ":"
  {}

  /** The item of a participant: who it is, and the state reached. */
  predicate TellsPerson(item: Item, p: Participant) {
    && item.category == PersonItem && item.name == p.name && item.gloss == p.gloss && item.reference == Cite(p.entry)
    && item.description == p.name + ": " + if p.arc == [] then "" else p.arc[|p.arc| - 1].text
  }

  predicate TellsEvent(item: Item, th: Thread) {
    && item.category == EventItem && item.name == th.title && item.gloss == "" && item.reference == Cite(th.openedAt)
    && item.description == if th.statuses == [] then "" else th.statuses[|th.statuses| - 1].text
  }

  /** The item of a place, an object or an institution; only places carry their gloss. */
  predicate TellsEntity(item: Item, category: Category, e: Entity) {
    && item.category == category && item.name == e.name && item.description == e.about
    && item.gloss == (if category == PlaceItem then e.gloss else "") && item.reference == Cite(e.appears)
  }

  predicate TellsEntities(items: seq<Item>, category: Category, entities: seq<Entity>) {
    |items| == |entities| && forall i :: 0 <= i < |items| ==> TellsEntity(items[i], category, entities[i])
  }

  /** The items a brief is built from, list by list. */
  lemma {:induction false} ItemsTell(participants: seq<Participant>, threads: seq<Thread>, category: Category,
                                     entities: seq<Entity>)
    ensures var items := PersonItems(participants);
      |items| == |participants| && forall i :: 0 <= i < |items| ==> TellsPerson(items[i], participants[i])
    ensures var items := EventItems(threads);
      |items| == |threads| && forall i :: 0 <= i < |items| ==> TellsEvent(items[i], threads[i])
    ensures TellsEntities(EntityItems(category, entities), category, entities)
  {}
}
