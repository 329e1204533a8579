/**
 * `importPhenotypes`: normalise every row, sequence parents first, append the
 * test phenotypes, then for each record in order insert it (unless only
 * partitions are wanted) and reconcile its partitions. Returns the number of
 * records processed.
 */
module ImportDriver {
  import opened Common
  import opened PhenotypeRecord
  import opened Sequencer
  import opened TestFixtures
  import opened PartitionStore

  /** The records `on_record` produces, in file order. */
  function Parsed(rows: seq<seq<string>>): (records: seq<Phenotype>)
    requires forall i :: 0 <= i < |rows| ==> |rows[i]| == COLUMNS
    ensures |records| == |rows|
    ensures forall i :: 0 <= i < |rows| ==> records[i] == NormalizedRecord(rows[i])
  {
    seq(|rows|, i requires 0 <= i < |rows| => NormalizedRecord(rows[i]))
  }

  /** `orderedRecords` once the test phenotypes are appended. */
  function ImportSequence(rows: seq<seq<string>>): seq<Phenotype>
    requires forall i :: 0 <= i < |rows| ==> |rows[i]| == COLUMNS
  {
    var ordered := Sequence(Parsed(rows));
    ordered + Fixtures(FixtureBase(ordered))
  }

  /** Every record has a numeric id. */
  predicate Numbered(records: seq<Phenotype>)
  {
    forall i :: 0 <= i < |records| ==> records[i].id.Int?
  }

  /** No two records share an id. */
  predicate DistinctIds(records: seq<Phenotype>)
  {
    forall i, j :: 0 <= i < j < |records| ==> records[i].id != records[j].id
  }

  /**
   * Every statement of the run is accepted: all ids are numbers, and when
   * records are inserted no id repeats.
   */
  predicate Importable(records: seq<Phenotype>, partitionsOnly: bool)
  {
    Numbered(records) && (!partitionsOnly ==> DistinctIds(records))
  }

  /**
   * Record `k` is the first whose statement is rejected: the records before
   * it are importable, and adding it makes the run fail.
   */
  predicate FirstRejected(records: seq<Phenotype>, k: int, partitionsOnly: bool)
  {
    0 <= k < |records| && Importable(records[..k], partitionsOnly) && !Importable(records[..k + 1], partitionsOnly)
  }

  /** The error a rejected record reports: an invalid statement for a NaN id, otherwise a duplicate key. */
  function Rejection(record: Phenotype): StoreError
  {
    if record.id.NaN? then InvalidStatement else DuplicateEntry(record.id.value)
  }

  /** `parse` with `on_record`: each 7-field row normalised, in file order. */
  method ParseRecords(rows: seq<seq<string>>) returns (records: seq<Phenotype>)
    requires forall i :: 0 <= i < |rows| ==> |rows[i]| == COLUMNS
    ensures records == Parsed(rows)
  {
    records := [];
    for i := 0 to |rows|
      invariant |records| == i
      invariant forall j :: 0 <= j < i ==> records[j] == Parsed(rows)[j]
    {
      var record := NormalizeRecord(rows[i]);
      records := records + [record];
    }
  }

  /**
   * The body of the `for...of` loop for one record: insert it (unless only
   * partitions are wanted), then reconcile its partitions. A NaN id or, when
   * inserting, an id already in the table stops it.
   */
  method ImportRecord(store: Store, record: Phenotype, partitionsOnly: bool) returns (err: Option<StoreError>)
    modifies store
    ensures err.None? <==> record.id.Int? && (!partitionsOnly ==> !IdTaken(old(store.phenotypes), record.id))
    ensures err.Some? ==> err.value == Rejection(record)
    ensures store.partitions == if err.Some? then old(store.partitions) else Reconciled(old(store.partitions), record.id.value)
    ensures store.phenotypes == if partitionsOnly || err.Some? then old(store.phenotypes) else old(store.phenotypes) + [record]
  {
    if !partitionsOnly {
      err := store.Insert(record);
      if err.Some? {
        return;
      }
    }
    err := Reconcile(store, record.id);
  }

  /**
   * The `for...of` loop over the ordered records, importing each in turn; the
   * first rejected statement ends the run. When it completes, the layout is
   * the one reconciling every id in order gives.
   */
  method ImportInOrder(store: Store, orderedRecords: seq<Phenotype>, partitionsOnly: bool) returns (result: Result<nat, StoreError>)
    requires !partitionsOnly ==> store.phenotypes == []
    modifies store
    ensures result.Ok? <==> Importable(orderedRecords, partitionsOnly)
    ensures result.Ok? ==> result.value == |orderedRecords|
    ensures partitionsOnly ==> store.phenotypes == old(store.phenotypes)
    ensures !partitionsOnly && result.Ok? ==> store.phenotypes == orderedRecords
    ensures result.Ok? ==> store.partitions == ReconciledAll(old(store.partitions), orderedRecords)
    ensures result.Err? ==> exists k :: (FirstRejected(orderedRecords, k, partitionsOnly) &&
      result.error == Rejection(orderedRecords[k]) &&
      store.partitions == ReconciledAll(old(store.partitions), orderedRecords[..k]) &&
      (!partitionsOnly ==> store.phenotypes == orderedRecords[..k]))
  {
    ghost var start := store.partitions;
    for k := 0 to |orderedRecords|
      invariant Importable(orderedRecords[..k], partitionsOnly)
      invariant store.partitions == ReconciledAll(start, orderedRecords[..k])
      invariant store.phenotypes == if partitionsOnly then old(store.phenotypes) else orderedRecords[..k]
    {
      var err := ImportRecord(store, orderedRecords[k], partitionsOnly);
      if err.Some? {
        assert !Importable(orderedRecords, partitionsOnly) by {
          Rejected(orderedRecords, k, partitionsOnly);
        }
        assert FirstRejected(orderedRecords, k, partitionsOnly) by {
          assert orderedRecords[..k + 1][..k] == orderedRecords[..k];
          Rejected(orderedRecords[..k + 1], k, partitionsOnly);
        }
        return Err(err.value);
      }
      assert Importable(orderedRecords[..k + 1], partitionsOnly) by {
        ImportableGrows(orderedRecords, k, partitionsOnly);
      }
      assert store.partitions == ReconciledAll(start, orderedRecords[..k + 1]) by {
        ReconcileNext(start, orderedRecords, k);
      }
      assert orderedRecords[..k + 1] == orderedRecords[..k] + [orderedRecords[k]];
    }
    assert orderedRecords[..|orderedRecords|] == orderedRecords;
    return Ok(|orderedRecords|);
  }

  /**
   * The whole loop and its return value: when it succeeds, every processed id
   * passes the partition count check, one that failed it before holds exactly
   * the expected sub-partitions, and no other partition changed.
   */
  method InsertAll(store: Store, orderedRecords: seq<Phenotype>, partitionsOnly: bool) returns (result: Result<nat, StoreError>)
    requires !partitionsOnly ==> store.phenotypes == []
    modifies store
    ensures result.Ok? <==> Importable(orderedRecords, partitionsOnly)
    ensures result.Ok? ==> result.value == |orderedRecords|
    ensures partitionsOnly ==> store.phenotypes == old(store.phenotypes)
    ensures !partitionsOnly && result.Ok? ==> store.phenotypes == orderedRecords
    ensures result.Ok? ==> forall i :: 0 <= i < |orderedRecords| ==>
      MetadataRows(store.partitions, orderedRecords[i].id.value) == 6
    ensures result.Ok? ==> forall i :: 0 <= i < |orderedRecords| ==>
      MetadataRows(old(store.partitions), orderedRecords[i].id.value) != 6 ==> Settled(store.partitions, orderedRecords[i].id.value)
    ensures result.Ok? ==> forall t, q :: (forall i :: 0 <= i < |orderedRecords| ==> orderedRecords[i].id != Int(q)) ==>
      Entry(store.partitions, t, q) == Entry(old(store.partitions), t, q)
    ensures result.Ok? ==> store.partitions == ReconciledAll(old(store.partitions), orderedRecords)
    ensures result.Err? ==> exists k :: (FirstRejected(orderedRecords, k, partitionsOnly) &&
      result.error == Rejection(orderedRecords[k]) &&
      store.partitions == ReconciledAll(old(store.partitions), orderedRecords[..k]) &&
      (!partitionsOnly ==> store.phenotypes == orderedRecords[..k]))
  {
    result := ImportInOrder(store, orderedRecords, partitionsOnly);
    if result.Ok? {
      ReconciledRecords(old(store.partitions), orderedRecords);
    }
  }

  /** A record with a numeric id that, when inserting, none of the records before it has keeps the run importable. */
  lemma ImportableGrows(records: seq<Phenotype>, k: nat, partitionsOnly: bool)
    requires k < |records| && records[k].id.Int?
    requires Importable(records[..k], partitionsOnly)
    requires !partitionsOnly ==> !IdTaken(records[..k], records[k].id)
    ensures Importable(records[..k + 1], partitionsOnly)
  {
    var prefix := records[..k + 1];
    assert prefix[..k] == records[..k];
    if !partitionsOnly {
      forall i, j | 0 <= i < j < k + 1
        ensures prefix[i].id != prefix[j].id
      {
        if j < k {
          assert prefix[i] == records[..k][i] && prefix[j] == records[..k][j];
        } else {
          assert prefix[i] == records[..k][i];
        }
      }
    }
  }

  /** Reconciling one more record extends the fold by its id. */
  lemma ReconcileNext(before: Layout, records: seq<Phenotype>, k: nat)
    requires k < |records| && records[k].id.Int?
    ensures ReconciledAll(before, records[..k + 1]) == Reconciled(ReconciledAll(before, records[..k]), records[k].id.value)
  {
    assert records[..k + 1][..k] == records[..k];
  }

  /**
   * Once every record is reconciled, each record's id passes the count check
   * and ids of no record are untouched.
   */
  lemma ReconciledRecords(before: Layout, records: seq<Phenotype>)
    requires Numbered(records)
    ensures forall i :: 0 <= i < |records| ==> MetadataRows(ReconciledAll(before, records), records[i].id.value) == 6
    ensures forall i :: 0 <= i < |records| ==>
      MetadataRows(before, records[i].id.value) != 6 ==> Settled(ReconciledAll(before, records), records[i].id.value)
    ensures forall t, q :: (forall i :: 0 <= i < |records| ==> records[i].id != Int(q)) ==>
      Entry(ReconciledAll(before, records), t, q) == Entry(before, t, q)
  {
    forall i | 0 <= i < |records|
      ensures MetadataRows(ReconciledAll(before, records), records[i].id.value) == 6
      ensures MetadataRows(before, records[i].id.value) != 6 ==> Settled(ReconciledAll(before, records), records[i].id.value)
    {
      assert IdTaken(records, Int(records[i].id.value));
      ReconciledAllSettles(before, records, records[i].id.value);
    }
    forall t, q | forall i :: 0 <= i < |records| ==> records[i].id != Int(q)
      ensures Entry(ReconciledAll(before, records), t, q) == Entry(before, t, q)
    {
      ReconciledAllEntries(before, records, q);
    }
  }

  /**
   * The import. In partitions-only mode the phenotype table is untouched;
   * otherwise it is recreated and receives exactly the sequenced records, in
   * order. The run fails exactly when some statement is rejected; when it
   * succeeds, every processed id passes the partition count check (and one
   * that failed it before holds exactly the expected sub-partitions), no other
   * partition changed, and the count returned is the rows plus the 4 fixtures.
   */
  method ImportPhenotypes(store: Store, rows: seq<seq<string>>, partitionsOnly: bool) returns (result: Result<nat, StoreError>)
    requires forall i :: 0 <= i < |rows| ==> |rows[i]| == COLUMNS
    modifies store
    ensures result.Ok? <==> Importable(ImportSequence(rows), partitionsOnly)
    ensures result.Ok? ==> result.value == |rows| + 4
    ensures partitionsOnly ==> store.phenotypes == old(store.phenotypes)
    ensures !partitionsOnly && result.Ok? ==> store.phenotypes == ImportSequence(rows)
    ensures result.Ok? ==> forall i :: 0 <= i < |ImportSequence(rows)| ==>
      MetadataRows(store.partitions, ImportSequence(rows)[i].id.value) == 6
    ensures result.Ok? ==> forall i :: 0 <= i < |ImportSequence(rows)| ==>
      MetadataRows(old(store.partitions), ImportSequence(rows)[i].id.value) != 6 ==> Settled(store.partitions, ImportSequence(rows)[i].id.value)
    ensures result.Ok? ==> forall t, q :: (forall i :: 0 <= i < |ImportSequence(rows)| ==> ImportSequence(rows)[i].id != Int(q)) ==>
      Entry(store.partitions, t, q) == Entry(old(store.partitions), t, q)
    ensures result.Ok? ==> store.partitions == ReconciledAll(old(store.partitions), ImportSequence(rows))
    ensures result.Err? ==> exists k :: (FirstRejected(ImportSequence(rows), k, partitionsOnly) &&
      result.error == Rejection(ImportSequence(rows)[k]) &&
      store.partitions == ReconciledAll(old(store.partitions), ImportSequence(rows)[..k]) &&
      (!partitionsOnly ==> store.phenotypes == ImportSequence(rows)[..k]))
  {
    if !partitionsOnly {
      store.RecreateSchema();
    }
    var records := ParseRecords(rows);
    var orderedRecords, log := OrderRecords(records);
    SequenceIsPermutation(records);
    var parentId := FixtureBase(orderedRecords);
    orderedRecords := orderedRecords + Fixtures(parentId);
    assert orderedRecords == ImportSequence(rows);
    result := InsertAll(store, orderedRecords, partitionsOnly);
  }

  /**
   * An INSERT rejected at record k, after the records before it went in,
   * means the records are not importable.
   */
  lemma Rejected(records: seq<Phenotype>, k: nat, partitionsOnly: bool)
    requires k < |records|
    requires records[k].id.NaN? || (!partitionsOnly && IdTaken(records[..k], records[k].id))
    ensures !Importable(records, partitionsOnly)
  {
    if records[k].id.Int? {
      var i :| 0 <= i < k && records[..k][i].id == records[k].id;
      assert records[i].id == records[k].id;
    }
  }

  /** A prefix of an importable run is importable. */
  lemma ImportablePrefix(records: seq<Phenotype>, n: nat, m: nat, partitionsOnly: bool)
    requires n <= m <= |records|
    requires Importable(records[..m], partitionsOnly)
    ensures Importable(records[..n], partitionsOnly)
  {
    assert forall i :: 0 <= i < n ==> records[..n][i] == records[..m][i];
  }

  /**
   * At most one record is the first rejected one, so a failed run leaves one
   * determined state.
   */
  lemma FirstRejectedUnique(records: seq<Phenotype>, k: int, j: int, partitionsOnly: bool)
    requires FirstRejected(records, k, partitionsOnly) && FirstRejected(records, j, partitionsOnly)
    ensures k == j
  {
    if k < j {
      ImportablePrefix(records, k + 1, j, partitionsOnly);
    } else if j < k {
      ImportablePrefix(records, j + 1, k, partitionsOnly);
    }
  }

  /** With numeric ids, the fixtures never collide with a real record or with each other. */
  lemma FixturesNeverCollide(ordered: seq<Phenotype>, partitionsOnly: bool)
    requires Importable(ordered, partitionsOnly)
    ensures Importable(ordered + Fixtures(FixtureBase(ordered)), partitionsOnly)
  {
    FixtureIdsFresh(ordered);
  }

  /**
   * On a forest of input records, every record the import inserts comes after
   * a record carrying its parent's id, so the parent is inserted first.
   */
  lemma ImportInsertsParentsFirst(rows: seq<seq<string>>, rank: map<int, nat>)
    requires forall i :: 0 <= i < |rows| ==> |rows[i]| == COLUMNS
    requires Ranked(Parsed(rows), rank)
    ensures ParentsBefore(ImportSequence(rows))
  {
    var records := Parsed(rows);
    var ordered := Sequence(records);
    SequenceOrdersParentsFirst(records, rank);
    SequenceIsPermutation(records);
    forall i | 0 <= i < |ordered|
      ensures ordered[i].id.Int?
    {
      assert ordered[i] in multiset(records);
    }
    FixtureIdsFresh(ordered);
    FixturesKeepParentsFirst(ordered, FixtureBase(ordered).value);
  }
}
