/** Writing the archive: every planned file is looked up, found, and written once. */
module ExportBundle {
  import opened Options
  import opened TextOrder
  import opened Naming
  import opened Studio
  import opened StudioFacts
  import opened ExportPlan
  import opened ExportPlanFacts
  import opened ExportGather

  /** A file of the archive: the object stored under `key`, as `file`. */
  datatype Entry = Entry(file: string, key: string)

  /** `sorted(files)` for a set of file names. */
  method SortedOf(files: set<string>) returns (xs: seq<string>)
    ensures Enumerates(xs, files) && SortedBy(TextLeq, xs)
  {
    var listed := Listed(files);
    TextLeqIsTotalOrder();
    xs := Sort(TextLeq, listed);
    SortCorrect(TextLeq, listed);
    SortMembers(TextLeq, listed);
    SortKeepsDistinct(TextLeq, listed);
  }

  /** One entry for each wanted file, in order of the names, with the object the dictionary names. */
  ghost predicate Written(wanted: set<string>, files: map<string, string>, entries: seq<Entry>) {
    && (forall i, j :: 0 <= i < j < |entries| ==>
         entries[i].file != entries[j].file && TextLeq(entries[i].file, entries[j].file))
    && (forall i :: 0 <= i < |entries| ==> entries[i].file in wanted)
    && (forall f :: f in wanted ==> f in files && Entry(f, files[f]) in entries)
  }

  /** Looks the wanted files up; a name the dictionary lacks fails the export. */
  method WriteAll(wanted: set<string>, files: map<string, string>) returns (r: Option<seq<Entry>>)
    ensures r.Some? <==> wanted <= files.Keys
    ensures r.Some? ==> Written(wanted, files, r.value)
  {
    var names := SortedOf(wanted);
    var entries: seq<Entry> := [];
    for i := 0 to |names|
      invariant |entries| == i
      invariant forall k :: 0 <= k < i ==> names[k] in files && entries[k] == Entry(names[k], files[names[k]])
    {
      assert names[i] in wanted;
      if names[i] !in files { return None; }
      entries := entries + [Entry(names[i], files[names[i]])];
    }
    forall f | f in wanted ensures f in files && Entry(f, files[f]) in entries {
      assert f in names;
      var k :| 0 <= k < |names| && names[k] == f;
      assert entries[k] == Entry(f, files[f]);
    }
    forall i | 0 <= i < |entries| ensures entries[i].file in wanted { assert names[i] in names; }
    return Some(entries);
  }

  datatype Bundle = Bundle(tierA: seq<Entry>, tierB: seq<Entry>)

  method Assemble(includedA: set<string>, includedB: set<string>, filesA: map<string, string>,
                  filesB: map<string, string>)
    returns (bundle: Option<Bundle>)
    ensures bundle.Some? <==> includedA <= filesA.Keys && includedB <= filesB.Keys
    ensures bundle.Some? ==>
      Written(includedA, filesA, bundle.value.tierA) && Written(includedB, filesB, bundle.value.tierB)
  {
    var a := WriteAll(includedA, filesA);
    if a == None { return None; }
    var b := WriteAll(includedB, filesB);
    if b == None { return None; }
    return Some(Bundle(a.value, b.value));
  }

  // ---- The whole export --------------------------------------------------------------------

  /** The entry is the stored object of the one stored recording of that name. */
  ghost predicate OwnObject(rows: map<string, Object>, stored: set<string>, e: Entry) {
    exists r :: r in stored && r in rows && rows[r] == Object(e.file, e.key)
      && forall q :: q in stored && SameFile(rows, r, q) ==> q == r
  }

  /** The archive holds exactly the wanted files, each once, each the recording's own object. */
  ghost predicate Faithful(rows: map<string, Object>, stored: set<string>, wanted: set<string>, entries: seq<Entry>) {
    && (forall i, j :: 0 <= i < j < |entries| ==> entries[i].file != entries[j].file)
    && (forall f :: f in wanted <==> exists e :: e in entries && e.file == f)
    && (forall e :: e in entries ==> OwnObject(rows, stored, e))
  }

  lemma {:induction false} WrittenIsFaithful(rows: map<string, Object>, stored: set<string>, files: map<string, string>,
                                             wanted: set<string>, entries: seq<Entry>)
    requires Indexes(rows, stored, files) && wanted <= files.Keys && Written(wanted, files, entries)
    requires NamesDiffer(rows, stored)
    ensures Faithful(rows, stored, wanted, entries)
  {
    forall f ensures f in wanted <==> exists e :: e in entries && e.file == f {
      if f in wanted { assert Entry(f, files[f]) in entries; }
    }
    forall e | e in entries ensures OwnObject(rows, stored, e) {
      var r :| r in stored && r in rows && rows[r].file == e.file;
      EntryKey(wanted, files, entries, e);
    }
  }

  lemma {:induction false} EntryKey(wanted: set<string>, files: map<string, string>, entries: seq<Entry>, e: Entry)
    requires Written(wanted, files, entries) && e in entries
    ensures e.file in files && e.key == files[e.file]
  {
    var i :| 0 <= i < |entries| && entries[i] == e;
    var j :| 0 <= j < |entries| && entries[j] == Entry(e.file, files[e.file]);
    assert i == j;
  }

  /** The planner's Tier A files are names of stored recordings. */
  lemma {:induction false} PlannedA(db: Db, language: string, ids: seq<string>, inputs: seq<TierAInput>,
                                    files: map<string, string>)
    requires GatheredA(db, language, ids, inputs) && Indexes(ObjectsA(db), StoredA(db, language), files)
    ensures PlanTierA(inputs).included <= files.Keys
  {
    TierARows(inputs);
    forall f | f in PlanTierA(inputs).included ensures f in files {
      var row :| row in PlanTierA(inputs).rows && row.file == f;
      var i :| 0 <= i < |inputs| && inputs[i] == row;
      assert ids[i] in ids;
      assert Leads(files, ObjectsA(db)[ids[i]]);
    }
  }

  lemma {:induction false} SideFileStored(db: Db, language: string, pair: string, side: Side, files: seq<string>,
                                          f: string, table: map<string, string>)
    requires SideFiles(db, Takes(db, StoredB(db, language), pair, side), files) && f in files
    requires Indexes(ObjectsB(db), StoredB(db, language), table)
    ensures f in table
  {
    var takes := Takes(db, StoredB(db, language), pair, side);
    var ids :| Enumerates(ids, takes) && (forall r :: r in ids ==> r in db.bRecs) && files == FilesAt(db, ids);
    var i :| 0 <= i < |files| && files[i] == f;
    assert ids[i] in ids;
    assert Leads(table, ObjectsB(db)[ids[i]]);
  }

  /** The file of every side of every input is in the dictionary. */
  ghost predicate SidesIndexed(inputs: seq<TierBInput>, table: map<string, string>) {
    forall p, f :: p in inputs && (f in p.aFiles || f in p.bFiles) ==> f in table
  }

  lemma {:induction false} InputsIndexed(db: Db, language: string, ids: seq<string>, inputs: seq<TierBInput>,
                                         table: map<string, string>)
    requires GatheredB(db, language, ids, inputs) && Indexes(ObjectsB(db), StoredB(db, language), table)
    ensures SidesIndexed(inputs, table)
  {
    forall p, f | p in inputs && (f in p.aFiles || f in p.bFiles) ensures f in table {
      var i :| 0 <= i < |inputs| && inputs[i] == p;
      assert InputOf(db, language, ids[i], p);
      if f in p.aFiles { SideFileStored(db, language, ids[i], SideA, p.aFiles, f, table); }
      else { SideFileStored(db, language, ids[i], SideB, p.bFiles, f, table); }
    }
  }

  lemma {:induction false} RowsIndexed(inputs: seq<TierBInput>, table: map<string, string>, rows: seq<Row>)
    requires SidesIndexed(inputs, table)
    requires Alternates(rows, Stride(SamePool(inputs), Balance(inputs)), Stride(DiffPool(inputs), Balance(inputs)))
    ensures Files(rows) <= table.Keys
  {
    PlanSound(inputs, rows);
    forall r | r in rows ensures r.fileA in table && r.fileB in table {
      RowOfPair(inputs, rows, r);
    }
  }

  lemma {:induction false} PlannedB(db: Db, language: string, ids: seq<string>, inputs: seq<TierBInput>,
                                    table: map<string, string>, rows: seq<Row>)
    requires GatheredB(db, language, ids, inputs) && Indexes(ObjectsB(db), StoredB(db, language), table)
    requires Alternates(rows, Stride(SamePool(inputs), Balance(inputs)), Stride(DiffPool(inputs), Balance(inputs)))
    ensures Files(rows) <= table.Keys
  {
    InputsIndexed(db, language, ids, inputs, table);
    RowsIndexed(inputs, table, rows);
  }

  lemma {:induction false} RowOfPair(inputs: seq<TierBInput>, rows: seq<Row>, r: Row)
    requires |rows| == 2 * Balance(inputs) && r in rows
    requires forall i :: 0 <= i < Balance(inputs) ==> SameFrom(rows[2 * i], inputs) && DiffFrom(rows[2 * i + 1], inputs)
    ensures exists p ::
      p in inputs && (r.fileA in p.aFiles || r.fileA in p.bFiles) && (r.fileB in p.aFiles || r.fileB in p.bFiles)
  {
    var k :| 0 <= k < |rows| && rows[k] == r;
    assert k == 2 * (k / 2) || k == 2 * (k / 2) + 1;
    if k == 2 * (k / 2) {
      assert SameFrom(rows[2 * (k / 2)], inputs);
      var p :| p in inputs && OneSide(r, p);
    } else {
      assert DiffFrom(rows[2 * (k / 2) + 1], inputs);
      var p :| p in inputs && AcrossSides(r, p);
    }
  }

  // ---- Storage keys ------------------------------------------------------------------------

  /** No object is delivered twice. */
  ghost predicate KeysOnce(entries: seq<Entry>) {
    forall i, j :: 0 <= i < j < |entries| ==> entries[i].key != entries[j].key
  }

  lemma {:induction false} TierKeysOnce(rows: map<string, Object>, stored: set<string>, entries: seq<Entry>)
    requires forall r, q :: r in rows && q in rows && rows[r].key == rows[q].key ==> r == q
    requires forall e :: e in entries ==> OwnObject(rows, stored, e)
    requires forall i, j :: 0 <= i < j < |entries| ==> entries[i].file != entries[j].file
    ensures KeysOnce(entries)
  {
    forall i, j | 0 <= i < j < |entries| ensures entries[i].key != entries[j].key {
      assert entries[i] in entries && entries[j] in entries;
      var r :| r in stored && r in rows && rows[r] == Object(entries[i].file, entries[i].key);
      var q :| q in stored && q in rows && rows[q] == Object(entries[j].file, entries[j].key);
    }
  }

  /** Files of the archive with different names are different objects, whichever tier they belong to. */
  lemma {:induction false} BundleKeysOnce(db: Db, language: string, wantedA: set<string>, wantedB: set<string>,
                                          bundle: Bundle)
    requires Sound(db) && CodesKeyable(db.languages)
    requires Faithful(ObjectsA(db), StoredA(db, language), wantedA, bundle.tierA)
    requires Faithful(ObjectsB(db), StoredB(db, language), wantedB, bundle.tierB)
    ensures KeysOnce(bundle.tierA + bundle.tierB)
  {
    SoundKeysDiffer(db);
    TierKeysOnce(ObjectsA(db), StoredA(db, language), bundle.tierA);
    TierKeysOnce(ObjectsB(db), StoredB(db, language), bundle.tierB);
    forall a, b | a in bundle.tierA && b in bundle.tierB ensures a.key != b.key {
      var r :| r in StoredA(db, language) && r in ObjectsA(db) && ObjectsA(db)[r] == Object(a.file, a.key);
      var q :| q in StoredB(db, language) && q in ObjectsB(db) && ObjectsB(db)[q] == Object(b.file, b.key);
      assert db.aRecs[r].key != db.bRecs[q].key;
    }
    AppendedOnce(bundle.tierA, bundle.tierB);
  }

  lemma {:induction false} AppendedOnce(a: seq<Entry>, b: seq<Entry>)
    requires KeysOnce(a) && KeysOnce(b) && forall e, f :: e in a && f in b ==> e.key != f.key
    ensures KeysOnce(a + b)
  {
    forall i, j | 0 <= i < j < |a + b| ensures (a + b)[i].key != (a + b)[j].key {
      if i < |a| <= j { assert a[i] in a && b[j - |a|] in b; }
    }
  }

  // ---- Delivery ----------------------------------------------------------------------------

  /** What an export of a language delivers. */
  datatype Delivery = Delivery(planA: TierAPlan, planB: TierBPlan, bundle: Bundle)

  /**
    Building the export of a known language never fails on a lookup, and the archive holds exactly the
    files of the two plans, each once, each with the bytes of the recording that bears the name, and
    no two of them with the same bytes.
  */
  method BuildExport(db: Db, language: string) returns (delivery: Option<Delivery>)
    requires Sound(db)
    ensures delivery.Some? <==> language in db.languages
    ensures delivery.Some? ==>
      && Faithful(ObjectsA(db), StoredA(db, language), delivery.value.planA.included, delivery.value.bundle.tierA)
      && Faithful(ObjectsB(db), StoredB(db, language), delivery.value.planB.included, delivery.value.bundle.tierB)
    ensures delivery.Some? && CodesKeyable(db.languages) ==>
      KeysOnce(delivery.value.bundle.tierA + delivery.value.bundle.tierB)
    ensures delivery.Some? ==> exists idsA, inputsA ::
      GatheredA(db, language, idsA, inputsA) && delivery.value.planA == PlanTierA(inputsA)
    ensures delivery.Some? ==> exists idsB, inputsB ::
      GatheredB(db, language, idsB, inputsB) && PlannedFrom(inputsB, delivery.value.planB)
  {
    if language !in db.languages { return None; }
    var inputsA, filesA, idsA := GatherA(db, language);
    var inputsB, filesB, idsB := GatherB(db, language);
    var planA := PlanTierA(inputsA);
    var planB := PlanTierB(inputsB);
    PlannedA(db, language, idsA, inputsA, filesA);
    PlannedB(db, language, idsB, inputsB, filesB, planB.rows);
    var bundle := Assemble(planA.included, planB.included, filesA, filesB);
    DistinctA(db, language);
    DistinctB(db, language);
    WrittenIsFaithful(ObjectsA(db), StoredA(db, language), filesA, planA.included, bundle.value.tierA);
    WrittenIsFaithful(ObjectsB(db), StoredB(db, language), filesB, planB.included, bundle.value.tierB);
    if CodesKeyable(db.languages) {
      BundleKeysOnce(db, language, planA.included, planB.included, bundle.value);
    }
    return Some(Delivery(planA, planB, bundle.value));
  }

  ghost predicate PlannedFrom(inputs: seq<TierBInput>, plan: TierBPlan) {
    && Alternates(plan.rows, Stride(SamePool(inputs), Balance(inputs)), Stride(DiffPool(inputs), Balance(inputs)))
    && plan.included == Files(plan.rows)
  }
}
