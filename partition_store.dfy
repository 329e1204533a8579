/**
 * The relational store as the import sees it: the `phenotype` table and the
 * list partitions of the two fact tables, `phenotype_variant` and
 * `phenotype_aggregate`, each partition `p` holding sub-partitions
 * `p_all`, `p_female` and `p_male`.
 */
module PartitionStore {
  import opened Common
  import opened JsString
  import opened PhenotypeRecord

  /** The two partitioned fact tables, in the order the reconciler visits them. */
  datatype Table = Variant | Aggregate
  const TABLES: seq<Table> := [Variant, Aggregate]

  /** Partitions: (table, phenotype id) to the names of its sub-partitions. */
  type Layout = map<(Table, int), seq<string>>

  /** What a statement the store rejects reports. */
  datatype StoreError = InvalidStatement | DuplicateEntry(id: int)

  /** One row of `INFORMATION_SCHEMA.PARTITIONS` for a partition. */
  datatype PartitionRow = PartitionRow(table: Table, partition: int, subpartition: Option<string>)

  /** `{id}_all`, `{id}_female`, `{id}_male`. */
  function SubPartitionNames(id: int): (names: seq<string>)
    ensures |names| == 3
  {
    [Decimal(id) + "_all", Decimal(id) + "_female", Decimal(id) + "_male"]
  }

  /**
   * The metadata rows one table has for partition `id`: one per sub-partition,
   * or a single row for a partition without sub-partitions.
   */
  function Rows(layout: Layout, table: Table, id: int): nat
  {
    if (table, id) !in layout then 0
    else if |layout[(table, id)]| == 0 then 1
    else |layout[(table, id)]|
  }

  /** `partitionRows.length`: the metadata rows for `id` across both tables. */
  function MetadataRows(layout: Layout, id: int): nat
  {
    Rows(layout, Variant, id) + Rows(layout, Aggregate, id)
  }

  /** Both tables hold partition `id` with exactly the expected sub-partitions. */
  predicate Settled(layout: Layout, id: int)
  {
    forall t :: (t, id) in layout && layout[(t, id)] == SubPartitionNames(id)
  }

  /** What a table holds for partition `id`, if anything. */
  function Entry(layout: Layout, t: Table, id: int): Option<seq<string>>
  {
    if (t, id) in layout then Some(layout[(t, id)]) else None
  }

  /**
   * The layout after reconciling `id`: untouched when the total row count is
   * 6; otherwise both tables get partition `id` with the expected sub-partitions.
   */
  function Reconciled(layout: Layout, id: int): Layout
  {
    if MetadataRows(layout, id) == 6 then layout
    else layout[(Variant, id) := SubPartitionNames(id)][(Aggregate, id) := SubPartitionNames(id)]
  }

  /** After reconciling, the count check for that id passes. */
  lemma ReconciledConverges(layout: Layout, id: int)
    ensures MetadataRows(Reconciled(layout, id), id) == 6
    ensures MetadataRows(layout, id) != 6 ==> Settled(Reconciled(layout, id), id)
  {
    var r := Reconciled(layout, id);
    if MetadataRows(layout, id) != 6 {
      forall t
        ensures (t, id) in r && r[(t, id)] == SubPartitionNames(id)
      {
        if t == Variant {
          assert (Variant, id) != (Aggregate, id);
        }
      }
    }
  }

  /** A settled id is left alone. */
  lemma SettledIsKept(layout: Layout, id: int)
    requires Settled(layout, id)
    ensures Reconciled(layout, id) == layout
  {
    assert (Variant, id) in layout && (Aggregate, id) in layout;
  }

  /** Reconciling twice is reconciling once. */
  lemma ReconcileIdempotent(layout: Layout, id: int)
    ensures Reconciled(Reconciled(layout, id), id) == Reconciled(layout, id)
  {
    ReconciledConverges(layout, id);
  }

  /** Partitions of every other id are untouched. */
  lemma ReconcileIsLocal(layout: Layout, id: int)
    ensures forall t, q :: q != id ==> Entry(Reconciled(layout, id), t, q) == Entry(layout, t, q)
    ensures forall q :: q != id ==> MetadataRows(Reconciled(layout, id), q) == MetadataRows(layout, q)
  {
  }

  /** Reconciling two different ids gives the same layout in either order. */
  lemma ReconcileCommutes(layout: Layout, p: int, q: int)
    requires p != q
    ensures Reconciled(Reconciled(layout, p), q) == Reconciled(Reconciled(layout, q), p)
  {
    ReconcileIsLocal(layout, p);
    ReconcileIsLocal(layout, q);
  }

  /**
   * The check is on the total, not per table: four sub-partitions on one table
   * and two on the other pass it, and nothing is repaired.
   */
  lemma SkewedLayoutPassesCheck(id: int, extra: string)
    ensures var skewed := map[(Variant, id) := SubPartitionNames(id) + [extra], (Aggregate, id) := ["x", "y"]];
      Reconciled(skewed, id) == skewed && !Settled(skewed, id)
  {
    var skewed := map[(Variant, id) := SubPartitionNames(id) + [extra], (Aggregate, id) := ["x", "y"]];
    assert MetadataRows(skewed, id) == 6;
    assert |skewed[(Variant, id)]| != |SubPartitionNames(id)|;
  }

  /** Some record carries `id`. */
  predicate IdTaken(records: seq<Phenotype>, id: Num)
  {
    exists i :: 0 <= i < |records| && records[i].id == id
  }

  /**
   * The layout after reconciling each record's id, first to last; a NaN id
   * matches no partition and changes nothing.
   */
  function ReconciledAll(layout: Layout, records: seq<Phenotype>): Layout
  {
    if records == [] then layout
    else
      var prior := ReconciledAll(layout, records[..|records| - 1]);
      var id := records[|records| - 1].id;
      if id.Int? then Reconciled(prior, id.value) else prior
  }

  /** Two layouts that agree on partition `id` agree on it once `id` is reconciled. */
  lemma ReconciledAtDependsOnEntries(a: Layout, b: Layout, id: int)
    requires forall t :: Entry(a, t, id) == Entry(b, t, id)
    ensures MetadataRows(a, id) == MetadataRows(b, id)
    ensures forall t :: Entry(Reconciled(a, id), t, id) == Entry(Reconciled(b, id), t, id)
  {
    assert Entry(a, Variant, id) == Entry(b, Variant, id);
    assert Entry(a, Aggregate, id) == Entry(b, Aggregate, id);
    if MetadataRows(a, id) != 6 {
      ReconciledConverges(a, id);
      ReconciledConverges(b, id);
      forall t
        ensures Entry(Reconciled(a, id), t, id) == Entry(Reconciled(b, id), t, id)
      {
        assert Entry(Reconciled(a, id), t, id) == Some(SubPartitionNames(id));
      }
    }
  }

  /**
   * Reconciling a list of records gives each id among them what reconciling it
   * alone gives, however often and wherever it occurs, and leaves every other
   * id as it was.
   */
  lemma {:induction false} ReconciledAllEntries(layout: Layout, records: seq<Phenotype>, q: int)
    ensures forall t ::
      Entry(ReconciledAll(layout, records), t, q) == (if IdTaken(records, Int(q)) then Entry(Reconciled(layout, q), t, q) else Entry(layout, t, q))
  {
    if records != [] {
      var init := records[..|records| - 1];
      var last := records[|records| - 1].id;
      var prior := ReconciledAll(layout, init);
      ReconciledAllEntries(layout, init, q);
      assert IdTaken(records, Int(q)) <==> IdTaken(init, Int(q)) || last == Int(q) by {
        if IdTaken(init, Int(q)) {
          var i :| 0 <= i < |init| && init[i].id == Int(q);
          assert records[i].id == Int(q);
        }
      }
      if last != Int(q) {
        if last.Int? {
          ReconcileIsLocal(prior, last.value);
        }
      } else if IdTaken(init, Int(q)) {
        ReconciledAtDependsOnEntries(prior, Reconciled(layout, q), q);
        ReconcileIdempotent(layout, q);
      } else {
        ReconciledAtDependsOnEntries(prior, layout, q);
      }
    }
  }

  /**
   * After reconciling a list of records, each id among them passes the count
   * check, and one that failed it before now holds exactly the expected
   * sub-partitions.
   */
  lemma ReconciledAllSettles(layout: Layout, records: seq<Phenotype>, q: int)
    requires IdTaken(records, Int(q))
    ensures MetadataRows(ReconciledAll(layout, records), q) == 6
    ensures MetadataRows(layout, q) != 6 ==> Settled(ReconciledAll(layout, records), q)
  {
    var after := ReconciledAll(layout, records);
    ReconciledAllEntries(layout, records, q);
    ReconciledConverges(layout, q);
    ReconciledAtDependsOnEntries(after, Reconciled(layout, q), q);
    if MetadataRows(layout, q) != 6 {
      forall t
        ensures (t, q) in after && after[(t, q)] == SubPartitionNames(q)
      {
        assert Entry(after, t, q) == Entry(Reconciled(layout, q), t, q);
      }
    }
  }

  /** Layouts that agree on every entry are the same layout. */
  lemma SameEntries(a: Layout, b: Layout)
    requires forall t, q :: Entry(a, t, q) == Entry(b, t, q)
    ensures a == b
  {
    forall key | key in a || key in b
      ensures key in a && key in b && a[key] == b[key]
    {
      assert Entry(a, key.0, key.1) == Entry(b, key.0, key.1);
    }
  }

  /**
   * Reconciling `earlier` and then `later` is reconciling `later` alone when
   * every numeric id of `earlier` occurs in `later`: the ids both lists share
   * end as reconciling once leaves them.
   */
  lemma ReconciledAllAbsorbs(layout: Layout, earlier: seq<Phenotype>, later: seq<Phenotype>)
    requires forall i :: 0 <= i < |earlier| && earlier[i].id.Int? ==> IdTaken(later, earlier[i].id)
    ensures ReconciledAll(ReconciledAll(layout, earlier), later) == ReconciledAll(layout, later)
  {
    var mid := ReconciledAll(layout, earlier);
    forall t, q
      ensures Entry(ReconciledAll(mid, later), t, q) == Entry(ReconciledAll(layout, later), t, q)
    {
      ReconciledAllEntries(mid, later, q);
      ReconciledAllEntries(layout, later, q);
      ReconciledAllEntries(layout, earlier, q);
      if IdTaken(later, Int(q)) {
        if IdTaken(earlier, Int(q)) {
          ReconciledAtDependsOnEntries(mid, Reconciled(layout, q), q);
          ReconcileIdempotent(layout, q);
        } else {
          ReconciledAtDependsOnEntries(mid, layout, q);
        }
      }
    }
    SameEntries(ReconciledAll(mid, later), ReconciledAll(layout, later));
  }

  /** Rerunning the partition step over the same records changes nothing. */
  lemma RunIdempotent(layout: Layout, records: seq<Phenotype>)
    ensures ReconciledAll(ReconciledAll(layout, records), records) == ReconciledAll(layout, records)
  {
    ReconciledAllAbsorbs(layout, records, records);
  }

  /**
   * A run that reconciled the first `k` records and then stopped, rerun over
   * all of them, ends where an uninterrupted run ends.
   */
  lemma RerunAfterPrefix(layout: Layout, records: seq<Phenotype>, k: nat)
    requires k <= |records|
    ensures ReconciledAll(ReconciledAll(layout, records[..k]), records) == ReconciledAll(layout, records)
  {
    forall i | 0 <= i < k && records[..k][i].id.Int?
      ensures IdTaken(records, records[..k][i].id)
    {
      assert records[i] == records[..k][i];
    }
    ReconciledAllAbsorbs(layout, records[..k], records);
  }

  /** The metadata rows of one table for partition `id`. */
  function TableRows(layout: Layout, t: Table, id: int): (rows: seq<PartitionRow>)
    ensures |rows| == Rows(layout, t, id)
    ensures forall k :: 0 <= k < |rows| ==> rows[k].table == t
  {
    if (t, id) !in layout then []
    else if |layout[(t, id)]| == 0 then [PartitionRow(t, id, None)]
    else seq(|layout[(t, id)]|, i requires 0 <= i < |layout[(t, id)]| => PartitionRow(t, id, Some(layout[(t, id)][i])))
  }

  /** The phenotype table and the partition layout, changed statement by statement. */
  class Store {
    var phenotypes: seq<Phenotype>
    var partitions: Layout

    constructor (phenotypes: seq<Phenotype>, partitions: Layout)
      ensures this.phenotypes == phenotypes && this.partitions == partitions
    {
      this.phenotypes := phenotypes;
      this.partitions := partitions;
    }

    /** Dropping and recreating `phenotype` and its dependent tables leaves it empty. */
    method RecreateSchema()
      modifies this
      ensures phenotypes == [] && partitions == old(partitions)
    {
      phenotypes := [];
    }

    /** `INSERT INTO phenotype`: a NaN id is an invalid value, a taken id a duplicate key. */
    method Insert(record: Phenotype) returns (err: Option<StoreError>)
      modifies this
      ensures record.id.NaN? ==> err == Some(InvalidStatement)
      ensures record.id.Int? && (exists i :: 0 <= i < |old(phenotypes)| && old(phenotypes)[i].id == record.id) ==>
        err == Some(DuplicateEntry(record.id.value))
      ensures err.None? <==> record.id.Int? && forall i :: 0 <= i < |old(phenotypes)| ==> old(phenotypes)[i].id != record.id
      ensures phenotypes == if err.None? then old(phenotypes) + [record] else old(phenotypes)
      ensures partitions == old(partitions)
    {
      if record.id.NaN? {
        return Some(InvalidStatement);
      }
      for i := 0 to |phenotypes|
        invariant forall j :: 0 <= j < i ==> phenotypes[j].id != record.id
      {
        if phenotypes[i].id == record.id {
          return Some(DuplicateEntry(record.id.value));
        }
      }
      phenotypes := phenotypes + [record];
      return None;
    }

    /**
     * The metadata query for partition `id` on both tables: one row per
     * sub-partition, or one for a partition without sub-partitions. A NaN id
     * matches no partition name.
     */
    method PartitionRows(id: Num) returns (rows: seq<PartitionRow>)
      ensures id.NaN? ==> rows == []
      ensures id.Int? ==> |rows| == MetadataRows(partitions, id.value)
      ensures id.Int? ==> forall t :: (exists k :: 0 <= k < |rows| && rows[k].table == t) <==> (t, id.value) in partitions
    {
      if id.NaN? {
        return [];
      }
      var variantRows := TableRows(partitions, Variant, id.value);
      var aggregateRows := TableRows(partitions, Aggregate, id.value);
      rows := variantRows + aggregateRows;
      forall t
        ensures (exists k :: 0 <= k < |rows| && rows[k].table == t) <==> (t, id.value) in partitions
      {
        if (t, id.value) in partitions {
          var k := if t == Variant then 0 else |variantRows|;
          assert rows[k].table == t;
        }
      }
    }

    /** `ALTER TABLE t DROP PARTITION p`; MySQL rejects dropping a missing partition. */
    method DropPartition(table: Table, id: int)
      requires (table, id) in partitions
      modifies this
      ensures partitions == old(partitions) - {(table, id)} && phenotypes == old(phenotypes)
    {
      partitions := partitions - {(table, id)};
    }

    /**
     * `ALTER TABLE t ADD PARTITION (PARTITION p VALUES IN (p) (...))`; MySQL
     * rejects an existing partition, and `VALUES IN (NaN)` is not valid SQL.
     */
    method AddPartition(table: Table, id: Num) returns (err: Option<StoreError>)
      requires id.Int? ==> (table, id.value) !in partitions
      modifies this
      ensures err.Some? <==> id.NaN?
      ensures err.Some? ==> err.value == InvalidStatement
      ensures partitions == if id.NaN? then old(partitions) else old(partitions)[(table, id.value) := SubPartitionNames(id.value)]
      ensures phenotypes == old(phenotypes)
    {
      if id.NaN? {
        return Some(InvalidStatement);
      }
      partitions := partitions[(table, id.value) := SubPartitionNames(id.value)];
      return None;
    }
  }

  /** A layout that holds the expected partitions for `id` and agrees elsewhere is the reconciled one. */
  lemma ReconciledEntries(before: Layout, after: Layout, id: int)
    requires MetadataRows(before, id) != 6
    requires forall t :: Entry(after, t, id) == Some(SubPartitionNames(id))
    requires forall t, q :: q != id ==> Entry(after, t, q) == Entry(before, t, q)
    ensures after == Reconciled(before, id)
  {
    var r := Reconciled(before, id);
    forall key | true
      ensures (key in after <==> key in r) && (key in after ==> after[key] == r[key])
    {
      if key.1 == id {
        assert Entry(r, key.0, id) == Some(SubPartitionNames(id)) by {
          ReconciledConverges(before, id);
        }
      }
      assert Entry(after, key.0, key.1) == Entry(r, key.0, key.1);
    }
  }

  /**
   * The partition step for one record: unless the metadata query returns 6
   * rows, each table in turn has partition `id` dropped if present and re-added.
   */
  method Reconcile(store: Store, id: Num) returns (err: Option<StoreError>)
    modifies store
    ensures err.Some? <==> id.NaN?
    ensures err.Some? ==> err.value == InvalidStatement
    ensures store.partitions == if id.NaN? then old(store.partitions) else Reconciled(old(store.partitions), id.value)
    ensures store.phenotypes == old(store.phenotypes)
  {
    var partitionRows := store.PartitionRows(id);
    err := None;
    if |partitionRows| != 6 {
      for k := 0 to |TABLES|
        invariant store.phenotypes == old(store.phenotypes) && err.None?
        invariant id.NaN? ==> k == 0 && store.partitions == old(store.partitions)
        invariant id.Int? ==> forall j :: k <= j < |TABLES| ==>
          Entry(store.partitions, TABLES[j], id.value) == Entry(old(store.partitions), TABLES[j], id.value)
        invariant id.Int? ==> forall j :: 0 <= j < k ==>
          Entry(store.partitions, TABLES[j], id.value) == Some(SubPartitionNames(id.value))
        invariant id.Int? ==> forall t, q :: q != id.value ==>
          Entry(store.partitions, t, q) == Entry(old(store.partitions), t, q)
      {
        var table := TABLES[k];
        if exists j :: 0 <= j < |partitionRows| && partitionRows[j].table == table {
          store.DropPartition(table, id.value);
        }
        err := store.AddPartition(table, id);
        if err.Some? {
          return;
        }
      }
      assert id.Int?;
      forall t
        ensures Entry(store.partitions, t, id.value) == Some(SubPartitionNames(id.value))
      {
        assert t == TABLES[0] || t == TABLES[1];
      }
      ReconciledEntries(old(store.partitions), store.partitions, id.value);
    }
  }
}
