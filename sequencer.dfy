/**
 * The parent-before-child sequencer of the phenotype import: a `while` loop
 * shifts records off the pool, and the recursive `addParent` splices a record's
 * missing ancestors out of the pool and pushes them onto the output first.
 *
 * `AddParentSpec`, `Step` and `Drain` are the specification; the methods
 * `AddParent` and `OrderRecords` are the step-by-step code, proved equal to it.
 */
module Sequencer {
  import opened Common
  import opened PhenotypeRecord

  /** `e.id === parentId`: a record is named by a present parent id. */
  predicate IsNamedBy(e: Phenotype, parentId: Option<Num>)
  {
    parentId.Some? && StrictEquals(e.id, parentId.value)
  }

  /** `records.findIndex(e => e.id === parentId)`. */
  function FindIndex(records: seq<Phenotype>, parentId: Option<Num>): (i: int)
    ensures -1 <= i < |records|
    ensures i >= 0 ==> IsNamedBy(records[i], parentId) && forall j :: 0 <= j < i ==> !IsNamedBy(records[j], parentId)
    ensures i == -1 ==> forall j :: 0 <= j < |records| ==> !IsNamedBy(records[j], parentId)
  {
    if |records| == 0 then -1
    else if IsNamedBy(records[0], parentId) then 0
    else
      var j := FindIndex(records[1..], parentId);
      if j < 0 then -1 else j + 1
  }

  /** `!!orderedRecords.find(e => e.id === parentId)`. */
  predicate HasParentIn(ordered: seq<Phenotype>, parentId: Option<Num>)
  {
    exists i :: 0 <= i < |ordered| && IsNamedBy(ordered[i], parentId)
  }

  /** `records.splice(i, 1)` leaves the pool without its i-th record. */
  function RemoveAt(records: seq<Phenotype>, i: nat): (rest: seq<Phenotype>)
    requires i < |records|
    ensures |rest| == |records| - 1
    ensures rest == records[..i] + records[i + 1..]
    ensures multiset(rest) + multiset{records[i]} == multiset(records)
  {
    assert records == records[..i] + [records[i]] + records[i + 1..];
    records[..i] + records[i + 1..]
  }

  /** The pool, the output and the records logged as "could not find all parents". */
  datatype SeqState = SeqState(pool: seq<Phenotype>, ordered: seq<Phenotype>, unresolved: seq<Phenotype>)

  /** Everything the state holds, pool and output together. */
  function Held(s: SeqState): multiset<Phenotype>
  {
    multiset(s.pool) + multiset(s.ordered)
  }

  /** `orderedRecords.push(r)`. */
  function Push(s: SeqState, r: Phenotype): SeqState
  {
    SeqState(s.pool, s.ordered + [r], s.unresolved)
  }

  /**
   * `addParent(record, records, orderedRecords)`: looks the parent up in the pool;
   * when found, splices it out, first places its own parent unless that is
   * already in the output, then pushes it; otherwise logs the record.
   */
  function AddParentSpec(record: Phenotype, s: SeqState): (t: SeqState)
    ensures |t.pool| <= |s.pool|
    decreases |s.pool|
  {
    var i := FindIndex(s.pool, record.parentId);
    if i == -1 then
      SeqState(s.pool, s.ordered, s.unresolved + [record])
    else
      var parent := s.pool[i];
      var rest := SeqState(RemoveAt(s.pool, i), s.ordered, s.unresolved);
      var placed := if !HasParentIn(rest.ordered, parent.parentId) then AddParentSpec(parent, rest) else rest;
      Push(placed, parent)
  }

  /** The output only grows at its end. */
  predicate Extends(t: SeqState, s: SeqState)
  {
    |t.ordered| >= |s.ordered| && t.ordered[..|s.ordered|] == s.ordered &&
    |t.unresolved| >= |s.unresolved| && t.unresolved[..|s.unresolved|] == s.unresolved
  }

  /** Each record `addParent` moves leaves the pool exactly once and is pushed exactly once. */
  lemma {:induction false} AddParentConserves(record: Phenotype, s: SeqState)
    ensures Held(AddParentSpec(record, s)) == Held(s)
    decreases |s.pool|
  {
    var i := FindIndex(s.pool, record.parentId);
    if i != -1 {
      var parent := s.pool[i];
      var rest := SeqState(RemoveAt(s.pool, i), s.ordered, s.unresolved);
      if !HasParentIn(rest.ordered, parent.parentId) {
        AddParentConserves(parent, rest);
      }
      assert Held(rest) + multiset{parent} == Held(s);
    }
  }

  /** `addParent` only appends, to the output and to the log. */
  lemma {:induction false} AddParentExtends(record: Phenotype, s: SeqState)
    ensures Extends(AddParentSpec(record, s), s)
    decreases |s.pool|
  {
    var i := FindIndex(s.pool, record.parentId);
    if i != -1 {
      var parent := s.pool[i];
      var rest := SeqState(RemoveAt(s.pool, i), s.ordered, s.unresolved);
      var placed := if !HasParentIn(rest.ordered, parent.parentId) then AddParentSpec(parent, rest) else rest;
      if !HasParentIn(rest.ordered, parent.parentId) {
        AddParentExtends(parent, rest);
      }
      assert (placed.ordered + [parent])[..|s.ordered|] == placed.ordered[..|s.ordered|];
    }
  }

  /** One turn of the `while` loop: shift a record, place its missing ancestors, push it. */
  function Step(s: SeqState): (t: SeqState)
    requires |s.pool| > 0
    ensures |t.pool| < |s.pool|
  {
    var record := s.pool[0];
    var rest := SeqState(s.pool[1..], s.ordered, s.unresolved);
    if record.parentId.None? || HasParentIn(rest.ordered, record.parentId) then
      Push(rest, record)
    else
      Push(AddParentSpec(record, rest), record)
  }

  /** A turn of the loop moves records from the pool to the output. */
  lemma StepConserves(s: SeqState)
    requires |s.pool| > 0
    ensures Held(Step(s)) == Held(s)
  {
    var record := s.pool[0];
    var rest := SeqState(s.pool[1..], s.ordered, s.unresolved);
    assert s.pool == [record] + s.pool[1..];
    assert Held(rest) + multiset{record} == Held(s);
    if !(record.parentId.None? || HasParentIn(rest.ordered, record.parentId)) {
      AddParentConserves(record, rest);
    }
  }

  /** A turn of the loop appends, and the shifted record comes last. */
  lemma StepExtends(s: SeqState)
    requires |s.pool| > 0
    ensures Extends(Step(s), s)
    ensures Step(s).ordered[|Step(s).ordered| - 1] == s.pool[0]
  {
    var record := s.pool[0];
    var rest := SeqState(s.pool[1..], s.ordered, s.unresolved);
    if !(record.parentId.None? || HasParentIn(rest.ordered, record.parentId)) {
      AddParentExtends(record, rest);
      var placed := AddParentSpec(record, rest);
      assert (placed.ordered + [record])[..|s.ordered|] == placed.ordered[..|s.ordered|];
    }
  }

  /** The loop run until the pool is empty. */
  function Drain(s: SeqState): (t: SeqState)
    ensures t.pool == []
    decreases |s.pool|
  {
    if |s.pool| == 0 then s else Drain(Step(s))
  }

  /** Draining empties the pool and loses or duplicates nothing. */
  lemma {:induction false} DrainConserves(s: SeqState)
    ensures Drain(s).pool == []
    ensures Held(Drain(s)) == Held(s)
    ensures Extends(Drain(s), s)
    decreases |s.pool|
  {
    if |s.pool| > 0 {
      StepConserves(s);
      StepExtends(s);
      DrainConserves(Step(s));
      var t := Drain(Step(s));
      assert t.ordered[..|s.ordered|] == t.ordered[..|Step(s).ordered|][..|s.ordered|];
      assert t.unresolved[..|s.unresolved|] == t.unresolved[..|Step(s).unresolved|][..|s.unresolved|];
    }
  }

  /** `orderedRecords` and the log after the loop, from the parsed records. */
  function Sequenced(records: seq<Phenotype>): (s: SeqState)
    ensures s.pool == []
  {
    Drain(SeqState(records, [], []))
  }

  /** `orderedRecords` after the loop. */
  function Sequence(records: seq<Phenotype>): seq<Phenotype>
  {
    Sequenced(records).ordered
  }

  /** The sequence is a permutation of the parsed records, and the pool ends empty. */
  lemma SequenceIsPermutation(records: seq<Phenotype>)
    ensures multiset(Sequence(records)) == multiset(records)
    ensures |Sequence(records)| == |records|
    ensures Sequenced(records).pool == []
  {
    DrainConserves(SeqState(records, [], []));
    var t := Sequenced(records);
    assert Held(SeqState(records, [], [])) == multiset(records);
    assert multiset(t.ordered) == multiset(records);
    assert |multiset(t.ordered)| == |t.ordered|;
  }

  /** Every record with a parent id comes after a record carrying that id. */
  predicate ParentsBefore(ordered: seq<Phenotype>)
  {
    forall j :: 0 <= j < |ordered| && ordered[j].parentId.Some? ==> HasParentIn(ordered[..j], ordered[j].parentId)
  }

  /**
   * The parent ids of `all` form a forest: every id is a number, every parent id
   * names a record of `all`, and `rank` strictly decreases from child to parent.
   */
  predicate Ranked(all: seq<Phenotype>, rank: map<int, nat>)
  {
    forall x :: x in all ==>
      x.id.Int? && x.id.value in rank &&
      (x.parentId.Some? ==>
        x.parentId.value.Int? && x.parentId.value.value in rank &&
        rank[x.parentId.value.value] < rank[x.id.value] &&
        HasParentIn(all, x.parentId))
  }

  /** Pushing a record whose parent is already placed keeps parents first. */
  lemma PushKeepsParentsBefore(ordered: seq<Phenotype>, r: Phenotype)
    requires ParentsBefore(ordered)
    requires r.parentId.Some? ==> HasParentIn(ordered, r.parentId)
    ensures ParentsBefore(ordered + [r])
  {
    var o := ordered + [r];
    forall j | 0 <= j < |o| && o[j].parentId.Some?
      ensures HasParentIn(o[..j], o[j].parentId)
    {
      if j < |ordered| {
        assert o[..j] == ordered[..j];
      } else {
        assert o[..j] == ordered;
      }
    }
  }

  /** A parent already in the output stays there once more records are pushed. */
  lemma PushKeepsParent(ordered: seq<Phenotype>, r: Phenotype, parentId: Option<Num>)
    requires HasParentIn(ordered, parentId) || IsNamedBy(r, parentId)
    ensures HasParentIn(ordered + [r], parentId)
  {
    if IsNamedBy(r, parentId) {
      assert (ordered + [r])[|ordered|] == r;
    } else {
      var i :| 0 <= i < |ordered| && IsNamedBy(ordered[i], parentId);
      assert (ordered + [r])[i] == ordered[i];
    }
  }

  /** Splicing the i-th record out of the pool keeps every other record in it. */
  lemma RemoveAtKeeps(records: seq<Phenotype>, i: nat, x: Phenotype)
    requires i < |records|
    requires x in records && x != records[i]
    ensures x in RemoveAt(records, i)
  {
    assert x in multiset(records);
    assert x in multiset(RemoveAt(records, i));
  }

  /**
   * In a forest, `addParent` places the record's parent (and, before it, every
   * missing ancestor) into the output, and keeps parents before children.
   * Records off both the pool and the output are the record and its
   * descendants being placed further up the recursion, ranked no lower.
   */
  lemma {:induction false} AddParentPlaces(record: Phenotype, s: SeqState, all: seq<Phenotype>, rank: map<int, nat>)
    requires Ranked(all, rank) && record in all
    requires forall x :: x in s.pool ==> x in all
    requires forall x :: x in all ==> x in s.pool || x in s.ordered || rank[x.id.value] >= rank[record.id.value]
    requires ParentsBefore(s.ordered)
    requires !HasParentIn(s.ordered, record.parentId)
    ensures ParentsBefore(AddParentSpec(record, s).ordered)
    ensures record.parentId.Some? ==> HasParentIn(AddParentSpec(record, s).ordered, record.parentId)
    decreases |s.pool|
  {
    var i := FindIndex(s.pool, record.parentId);
    if record.parentId.Some? {
      var k :| 0 <= k < |all| && IsNamedBy(all[k], record.parentId);
      var q := all[k];
      assert rank[q.id.value] < rank[record.id.value];
      assert q in s.pool;
      var n :| 0 <= n < |s.pool| && s.pool[n] == q;
      assert i != -1;
      var parent := s.pool[i];
      var rest := SeqState(RemoveAt(s.pool, i), s.ordered, s.unresolved);
      assert parent in all;
      forall x | x in all
        ensures x in rest.pool || x in rest.ordered || rank[x.id.value] >= rank[parent.id.value]
      {
        if x in s.pool && x != parent {
          RemoveAtKeeps(s.pool, i, x);
        }
      }
      var placed := if !HasParentIn(rest.ordered, parent.parentId) then AddParentSpec(parent, rest) else rest;
      if !HasParentIn(rest.ordered, parent.parentId) {
        forall x | x in rest.pool
          ensures x in all
        {
          assert x in multiset(rest.pool);
        }
        AddParentPlaces(parent, rest, all, rank);
      }
      PushKeepsParentsBefore(placed.ordered, parent);
      PushKeepsParent(placed.ordered, parent, record.parentId);
    }
  }

  /** The records of `all` are exactly those in the pool or the output. */
  ghost predicate Covers(s: SeqState, all: seq<Phenotype>)
  {
    forall x :: x in all <==> x in s.pool || x in s.ordered
  }

  /** Conservation keeps the same records on hand. */
  lemma HeldCovers(s: SeqState, t: SeqState, all: seq<Phenotype>)
    requires Held(s) == Held(t) && Covers(s, all)
    ensures Covers(t, all)
  {
    forall x
      ensures x in all <==> x in t.pool || x in t.ordered
    {
      assert x in Held(s) <==> x in s.pool || x in s.ordered;
      assert x in Held(t) <==> x in t.pool || x in t.ordered;
    }
  }

  /** Before the search for a shifted record's ancestors, every record not yet placed ranks at least as high as it. */
  lemma ShiftedRanksLowest(s: SeqState, all: seq<Phenotype>, rank: map<int, nat>)
    requires Ranked(all, rank) && |s.pool| > 0 && Covers(s, all)
    ensures var rest := SeqState(s.pool[1..], s.ordered, s.unresolved);
      forall x :: x in all ==> x in rest.pool || x in rest.ordered || rank[x.id.value] >= rank[s.pool[0].id.value]
  {
    assert s.pool == [s.pool[0]] + s.pool[1..];
  }

  /** A turn of the loop on a forest keeps parents before children. */
  lemma StepPlaces(s: SeqState, all: seq<Phenotype>, rank: map<int, nat>)
    requires Ranked(all, rank) && |s.pool| > 0
    requires Covers(s, all) && ParentsBefore(s.ordered)
    ensures Covers(Step(s), all) && ParentsBefore(Step(s).ordered)
  {
    StepConserves(s);
    HeldCovers(s, Step(s), all);
    var record := s.pool[0];
    var rest := SeqState(s.pool[1..], s.ordered, s.unresolved);
    if record.parentId.None? || HasParentIn(rest.ordered, record.parentId) {
      PushKeepsParentsBefore(rest.ordered, record);
    } else {
      ShiftedRanksLowest(s, all, rank);
      assert record in all;
      AddParentPlaces(record, rest, all, rank);
      var placed := AddParentSpec(record, rest);
      PushKeepsParentsBefore(placed.ordered, record);
      assert Step(s) == Push(placed, record);
    }
  }

  /** The whole loop on a forest keeps parents before children. */
  lemma {:induction false} DrainPlaces(s: SeqState, all: seq<Phenotype>, rank: map<int, nat>)
    requires Ranked(all, rank)
    requires Covers(s, all) && ParentsBefore(s.ordered)
    ensures ParentsBefore(Drain(s).ordered)
    decreases |s.pool|
  {
    if |s.pool| > 0 {
      StepPlaces(s, all, rank);
      DrainPlaces(Step(s), all, rank);
    }
  }

  /**
   * When every parent id names an input record and there is no cycle, each
   * record with a parent comes after a record carrying its parent's id.
   */
  lemma SequenceOrdersParentsFirst(records: seq<Phenotype>, rank: map<int, nat>)
    requires Ranked(records, rank)
    ensures ParentsBefore(Sequence(records))
  {
    DrainPlaces(SeqState(records, [], []), records, rank);
  }

  /**
   * A record whose parent is in neither the pool nor the output is logged
   * and still pushed at its turn, after the output so far.
   */
  lemma OrphanLoggedAndPlaced(s: SeqState)
    requires |s.pool| > 0 && s.pool[0].parentId.Some?
    requires !HasParentIn(s.ordered, s.pool[0].parentId)
    requires !HasParentIn(s.pool[1..], s.pool[0].parentId)
    ensures Step(s) == SeqState(s.pool[1..], s.ordered + [s.pool[0]], s.unresolved + [s.pool[0]])
  {
  }

  /** A record with only an id and a parent id, its other fields null. */
  function Node(id: int, parent: Option<int>): Phenotype
  {
    Phenotype(Int(id), if parent.None? then None else Some(Int(parent.value)), None, None, None, None, None)
  }

  /**
   * The input order [2 -> 1, 1 -> null] yields [1, 2]; the root reached
   * through `addParent` is logged as having no parent found.
   */
  lemma ChildBeforeRootExample()
    ensures Sequenced([Node(2, Some(1)), Node(1, None)]) == SeqState([], [Node(1, None), Node(2, Some(1))], [Node(1, None)])
  {
    var child, root := Node(2, Some(1)), Node(1, None);
    var s := SeqState([child, root], [], []);
    var rest := SeqState([root], [], []);
    assert FindIndex([root], child.parentId) == 0;
    assert RemoveAt([root], 0) == [];
    assert AddParentSpec(root, SeqState([], [], [])) == SeqState([], [], [root]);
    assert AddParentSpec(child, rest) == SeqState([], [root], [root]);
    assert Step(s) == SeqState([], [root, child], [root]);
  }

  /** `addParent`, recursing into itself with the pool and output it shares with the loop. */
  method AddParent(record: Phenotype, records: seq<Phenotype>, orderedRecords: seq<Phenotype>, log: seq<Phenotype>)
    returns (records': seq<Phenotype>, orderedRecords': seq<Phenotype>, log': seq<Phenotype>)
    ensures SeqState(records', orderedRecords', log') == AddParentSpec(record, SeqState(records, orderedRecords, log))
    decreases |records|
  {
    records', orderedRecords', log' := records, orderedRecords, log;
    var parentIndex := FindIndex(records', record.parentId);
    if parentIndex != -1 {
      var parent := records'[parentIndex];
      records' := RemoveAt(records', parentIndex);
      if !HasParentIn(orderedRecords', parent.parentId) {
        records', orderedRecords', log' := AddParent(parent, records', orderedRecords', log');
      }
      orderedRecords' := orderedRecords' + [parent];
    } else {
      // console.log('could not find all parents for ', record)
      log' := log' + [record];
    }
  }

  /**
   * The sequencing loop. The result is a permutation of the input, and it is
   * what the specification `Sequenced` describes.
   */
  method OrderRecords(parsed: seq<Phenotype>) returns (orderedRecords: seq<Phenotype>, log: seq<Phenotype>)
    ensures SeqState([], orderedRecords, log) == Sequenced(parsed)
    ensures multiset(orderedRecords) == multiset(parsed)
  {
    var records := parsed;
    orderedRecords, log := [], [];
    while |records| > 0
      invariant Drain(SeqState(records, orderedRecords, log)) == Sequenced(parsed)
      decreases |records|
    {
      ghost var before := SeqState(records, orderedRecords, log);
      var record := records[0];
      records := records[1..];
      var hasOrderedParent := HasParentIn(orderedRecords, record.parentId);
      if record.parentId.None? || hasOrderedParent {
        orderedRecords := orderedRecords + [record];
      } else if !hasOrderedParent {
        records, orderedRecords, log := AddParent(record, records, orderedRecords, log);
        orderedRecords := orderedRecords + [record];
      } else {
        // console.log('ERROR: Could not find parent for', record): unreachable
        assert false;
      }
      assert SeqState(records, orderedRecords, log) == Step(before);
    }
    SequenceIsPermutation(parsed);
  }
}
