/**
 * The action types and creators of the client store, and the page arithmetic
 * of the summary tables.
 */
module Actions {
  import opened Common
  import opened JsValue

  const UPDATE_SUMMARY_RESULTS := "UPDATE_SUMMARY_RESULTS"
  const UPDATE_SUMMARY_TABLE := "UPDATE_SUMMARY_TABLE"
  const UPDATE_SUMMARY_SNP_TABLE := "UPDATE_SUMMARY_SNP_TABLE"
  const UPDATE_SUMMARY_SNP := "UPDATE_SUMMARY_SNP"
  const UPDATE_VARIANT_LOOKUP := "UPDATE_VARIANT_LOOKUP"
  const UPDATE_PHENOTYPE_CORRELATIONS := "UPDATE_PHENOTYPE_CORRELATIONS"
  const UPDATE_PHENOTYPES := "UPDATE_PHENOTYPES"
  const UPDATE_PHENOTYPE_CATEGORIES := "UPDATE_PHENOTYPE_CATEGORIES"
  const UPDATE_PHENOTYPES_TREE := "UPDATE_PHENOTYPES_TREE"

  /** A phenotype as the selection controls hand it over: title, label and database value. */
  datatype PhenotypeOption = PhenotypeOption(title: Option<string>, labelText: string, value: string)

  /** `phenotype.title ? phenotype.title : phenotype.label`: a non-empty title, else the label. */
  function DisplayName(p: PhenotypeOption): string
  {
    if p.title.Some? && |p.title.value| > 0 then p.title.value else p.labelText
  }

  /** `{type, data}`, or `{type, key, data}` for the keyed table updates. */
  datatype Action = Action(kind: string, key: Option<string>, data: Value)

  function UpdatePhenotypes(data: Value): Action
  {
    Action(UPDATE_PHENOTYPES, None, data)
  }

  function UpdatePhenotypeCategories(data: Value): Action
  {
    Action(UPDATE_PHENOTYPE_CATEGORIES, None, data)
  }

  function UpdatePhenotypesTree(data: Value): Action
  {
    Action(UPDATE_PHENOTYPES_TREE, None, data)
  }

  function UpdateSummaryResults(data: Value): Action
  {
    Action(UPDATE_SUMMARY_RESULTS, None, data)
  }

  function UpdateSummaryTable(key: string, data: Value): Action
  {
    Action(UPDATE_SUMMARY_TABLE, Some(key), data)
  }

  /** `setSummaryTableLoading(loading)` is `updateSummaryTable('loading', loading)`. */
  function SetSummaryTableLoading(loading: Value): Action
  {
    UpdateSummaryTable("loading", loading)
  }

  function UpdateSummarySnp(key: string, data: Value): Action
  {
    Action(UPDATE_SUMMARY_SNP, Some(key), data)
  }

  function UpdateSummarySnpTable(key: string, data: Value): Action
  {
    Action(UPDATE_SUMMARY_SNP_TABLE, Some(key), data)
  }

  /** `setSummarySnpLoading(loading)` is `updateSummarySnp('loading', loading)`. */
  function SetSummarySnpLoading(loading: Value): Action
  {
    UpdateSummarySnp("loading", loading)
  }

  function UpdateVariantLookup(data: Value): Action
  {
    Action(UPDATE_VARIANT_LOOKUP, None, data)
  }

  function UpdatePhenotypeCorrelations(data: Value): Action
  {
    Action(UPDATE_PHENOTYPE_CORRELATIONS, None, data)
  }

  /** The nine action types are pairwise different strings. */
  lemma ActionTypesDistinct()
    ensures var types := [UPDATE_SUMMARY_RESULTS, UPDATE_SUMMARY_TABLE, UPDATE_SUMMARY_SNP_TABLE,
      UPDATE_SUMMARY_SNP, UPDATE_VARIANT_LOOKUP, UPDATE_PHENOTYPE_CORRELATIONS, UPDATE_PHENOTYPES,
      UPDATE_PHENOTYPE_CATEGORIES, UPDATE_PHENOTYPES_TREE];
      forall i, j :: 0 <= i < j < |types| ==> types[i] != types[j]
  {
    var types := [UPDATE_SUMMARY_RESULTS, UPDATE_SUMMARY_TABLE, UPDATE_SUMMARY_SNP_TABLE,
      UPDATE_SUMMARY_SNP, UPDATE_VARIANT_LOOKUP, UPDATE_PHENOTYPE_CORRELATIONS, UPDATE_PHENOTYPES,
      UPDATE_PHENOTYPE_CATEGORIES, UPDATE_PHENOTYPES_TREE];
    forall i, j | 0 <= i < j < |types|
      ensures types[i] != types[j]
    {
      if |types[i]| == |types[j]| {
        var k := if types[i][7] != types[j][7] then 7 else if types[i][8] != types[j][8] then 8 else 15;
        assert types[i][k] != types[j][k];
      }
    }
  }

  /** `Math.floor(offset / limit)` for a nonzero integer limit. */
  function FloorDiv(offset: int, limit: int): (q: int)
    requires limit != 0
    ensures limit > 0 ==> q * limit <= offset < (q + 1) * limit
    ensures limit < 0 ==> q * limit >= offset > (q + 1) * limit
  {
    if limit > 0 then offset / limit else (-offset) / (-limit)
  }

  /**
   * `1 + Math.floor(params.offset / params.limit)`; a zero limit divides to an
   * infinity or NaN and has no page number.
   */
  function PageNumber(offset: int, limit: int): (page: Option<int>)
    ensures page.Some? <==> limit != 0
    ensures limit > 0 && offset >= 0 ==> page.Some? && page.value >= 1
  {
    if limit == 0 then None else Some(1 + FloorDiv(offset, limit))
  }

  /** With a positive page size, page p holds rows (p-1)*limit to p*limit-1, the offset among them. */
  lemma PageContainsOffset(offset: int, limit: int)
    requires limit > 0
    ensures PageNumber(offset, limit).Some?
    ensures var p := PageNumber(offset, limit).value;
      (p - 1) * limit <= offset < p * limit
  {
    var q := FloorDiv(offset, limit);
    assert (1 + q - 1) * limit == q * limit;
  }

  /** Asking for the first row of page p gives back page p. */
  lemma FirstRowOfPage(page: int, limit: int)
    requires limit > 0
    ensures PageNumber((page - 1) * limit, limit) == Some(page)
  {
    var q := FloorDiv((page - 1) * limit, limit);
    if q < page - 1 {
      ScaleMonotone(q + 1, page - 1, limit);
    } else if q > page - 1 {
      ScaleMonotone(page, q, limit);
    }
  }

  lemma ScaleMonotone(a: int, b: int, limit: int)
    requires a <= b && limit > 0
    ensures a * limit <= b * limit
  {
    assert b * limit - a * limit == (b - a) * limit;
  }
}
