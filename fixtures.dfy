/**
 * The test phenotypes appended after the real records: a root named "Test"
 * and three binary children, numbered from max(10000, maxId + 1).
 */
module TestFixtures {
  import opened Common
  import opened PhenotypeRecord
  import opened Sequencer

  /** `Math.max` on two numbers: NaN if either is NaN. */
  function JsMax(a: Num, b: Num): (m: Num)
    ensures m.Int? <==> a.Int? && b.Int?
    ensures m.Int? ==> m.value >= a.value && m.value >= b.value && (m.value == a.value || m.value == b.value)
  {
    if a.NaN? || b.NaN? then NaN else Int(if a.value >= b.value then a.value else b.value)
  }

  /** `+` on two numbers: NaN if either is NaN. */
  function JsAdd(a: Num, b: int): (m: Num)
    ensures m.Int? <==> a.Int?
    ensures m.Int? ==> m.value == a.value + b
  {
    if a.NaN? then NaN else Int(a.value + b)
  }

  /** `records.reduce((acc, curr) => Math.max(acc, curr.id), acc)`. */
  function MaxIdFrom(acc: Num, records: seq<Phenotype>): Num
    decreases |records|
  {
    if records == [] then acc else MaxIdFrom(JsMax(acc, records[0].id), records[1..])
  }

  /** `maxId`: the largest id, starting from 0. */
  function MaxId(records: seq<Phenotype>): Num
  {
    MaxIdFrom(Int(0), records)
  }

  /** `parentId = Math.max(10000, maxId + 1)`: the id of the first test phenotype. */
  function FixtureBase(records: seq<Phenotype>): Num
  {
    JsMax(Int(10000), JsAdd(MaxId(records), 1))
  }

  /** The four test phenotypes; the last three are binary children of the first. */
  function Fixtures(base: Num): (f: seq<Phenotype>)
    ensures |f| == 4
  {
    [ Phenotype(base, None, Some("Test"), None, None, None, None),
      TestChild(base, 1, "test_ewings_sarcoma", "Ewing's Sarcoma"),
      TestChild(base, 2, "test_melanoma", "Melanoma"),
      TestChild(base, 3, "test_renal_cell_carcinoma", "Renal Cell Carcinoma") ]
  }

  /** A binary test phenotype under the test root. */
  function TestChild(base: Num, offset: int, name: string, displayName: string): Phenotype
  {
    Phenotype(JsAdd(base, offset), Some(base), Some(displayName), Some(name), Some("Test Description"), Some("binary"), None)
  }

  /** Folding `Math.max` over numeric ids stays numeric and bounds every id from above. */
  lemma {:induction false} MaxIdFromBounds(acc: Num, records: seq<Phenotype>)
    requires acc.Int? && forall i :: 0 <= i < |records| ==> records[i].id.Int?
    ensures MaxIdFrom(acc, records).Int?
    ensures MaxIdFrom(acc, records).value >= acc.value
    ensures forall i :: 0 <= i < |records| ==> records[i].id.value <= MaxIdFrom(acc, records).value
    decreases |records|
  {
    if records != [] {
      var next := JsMax(acc, records[0].id);
      MaxIdFromBounds(next, records[1..]);
      forall i | 0 <= i < |records|
        ensures records[i].id.value <= MaxIdFrom(acc, records).value
      {
        if i > 0 {
          assert records[i] == records[1..][i - 1];
        }
      }
    }
  }

  /** One NaN id anywhere makes the whole fold NaN. */
  lemma {:induction false} MaxIdFromNaN(acc: Num, records: seq<Phenotype>)
    requires acc.NaN? || exists i :: 0 <= i < |records| && records[i].id.NaN?
    ensures MaxIdFrom(acc, records).NaN?
    decreases |records|
  {
    if records != [] {
      var next := JsMax(acc, records[0].id);
      if next.Int? {
        var i :| 0 <= i < |records| && records[i].id.NaN?;
        assert i > 0;
        assert records[1..][i - 1].id.NaN?;
      }
      MaxIdFromNaN(next, records[1..]);
    }
  }

  /**
   * With numeric ids, the test root gets an id of at least 10000 that exceeds
   * every real id, so the four fixture ids are fresh.
   */
  lemma FixtureIdsFresh(records: seq<Phenotype>)
    requires forall i :: 0 <= i < |records| ==> records[i].id.Int?
    ensures FixtureBase(records).Int? && FixtureBase(records).value >= 10000
    ensures forall i, k :: 0 <= i < |records| && 0 <= k < 4 ==>
      Fixtures(FixtureBase(records))[k].id.Int? && records[i].id.value < Fixtures(FixtureBase(records))[k].id.value
  {
    MaxIdFromBounds(Int(0), records);
  }

  /** A single NaN id makes every fixture id NaN. */
  lemma NaNIdPoisonsFixtures(records: seq<Phenotype>)
    requires exists i :: 0 <= i < |records| && records[i].id.NaN?
    ensures forall k :: 0 <= k < 4 ==> Fixtures(FixtureBase(records))[k].id.NaN?
  {
    MaxIdFromNaN(Int(0), records);
  }

  /**
   * Appending the fixtures keeps parents before children: the three children
   * follow their root.
   */
  lemma FixturesKeepParentsFirst(ordered: seq<Phenotype>, base: int)
    requires ParentsBefore(ordered)
    ensures ParentsBefore(ordered + Fixtures(Int(base)))
  {
    var f := Fixtures(Int(base));
    PushKeepsParentsBefore(ordered, f[0]);
    var o1 := ordered + [f[0]];
    PushKeepsParent(ordered, f[0], f[1].parentId);
    PushKeepsParentsBefore(o1, f[1]);
    var o2 := o1 + [f[1]];
    PushKeepsParent(o1, f[1], f[2].parentId);
    PushKeepsParentsBefore(o2, f[2]);
    var o3 := o2 + [f[2]];
    PushKeepsParent(o2, f[2], f[3].parentId);
    PushKeepsParentsBefore(o3, f[3]);
    assert o3 + [f[3]] == ordered + f;
  }
}
