/**
 * `lookupVariants`: the variant the user typed becomes either an rsid or a
 * chromosome and position, and the rows each phenotype's database returns are
 * tagged and listed before one placeholder per phenotype without a hit.
 */
module VariantLookup {
  import opened Common
  import opened JsString
  import opened JsValue
  import opened Actions

  /** The `snp`, `chr` and `bp` parameters of the variant query; `None` is `null`. */
  datatype VariantQuery = VariantQuery(snp: Option<string>, chr: Option<string>, bp: Option<string>)

  /** `value ? value : null` for a string that may be missing. */
  function OrNull(value: Option<string>): Option<string>
  {
    if value.Some? && |value.value| > 0 then value else None
  }

  /** `variant.substring(0, 3)`. */
  function Prefix3(variant: string): string
  {
    if |variant| >= 3 then variant[..3] else variant
  }

  /**
   * A variant starting with `chr` in any case is lowercased, loses its first
   * `chr` and splits at `:` into chromosome and position; the rsid is sent
   * unless both of those are non-empty.
   */
  function ParseVariant(variant: string): (q: VariantQuery)
    ensures q.snp.Some? || (q.chr.Some? && q.bp.Some?)
    ensures q.chr.Some? || q.bp.Some? ==> AsciiLower(Prefix3(variant)) == "chr"
  {
    if AsciiLower(Prefix3(variant)) == "chr" then
      var rest := RemoveFirst(AsciiLower(variant), "chr");
      var coord := Split(rest, ':');
      var chr := Some(coord[0]);
      var bp := if |coord| > 1 then Some(coord[1]) else None;
      VariantQuery(if OrNull(chr).Some? && OrNull(bp).Some? then None else Some(rest), OrNull(chr), OrNull(bp))
    else
      VariantQuery(Some(variant), None, None)
  }

  /** Exactly one of the two ways to query is used: the rsid is null iff chromosome and position are both set. */
  lemma QueryKinds(variant: string)
    ensures var q := ParseVariant(variant);
      (q.snp.None? <==> q.chr.Some? && q.bp.Some?) &&
      (q.chr.Some? ==> |q.chr.value| > 0) && (q.bp.Some? ==> |q.bp.value| > 0)
  {
  }

  /** A variant not starting with `chr` is sent unchanged as the rsid. */
  lemma RsidPassesThrough(variant: string)
    requires AsciiLower(Prefix3(variant)) != "chr"
    ensures ParseVariant(variant) == VariantQuery(Some(variant), None, None)
  {
  }

  /**
   * `chr` (any case), a chromosome and a position, both lower case, non-empty
   * and free of `:`, come back as that chromosome and position.
   */
  lemma CoordinatesRoundTrip(chr: string, chromosome: string, position: string)
    requires |chr| == 3 && AsciiLower(chr) == "chr"
    requires |chromosome| > 0 && |position| > 0
    requires AsciiLower(chromosome) == chromosome && AsciiLower(position) == position
    requires forall i :: 0 <= i < |chromosome| ==> chromosome[i] != ':'
    requires forall i :: 0 <= i < |position| ==> position[i] != ':'
    ensures ParseVariant(chr + chromosome + ":" + position) == VariantQuery(None, Some(chromosome), Some(position))
  {
    var variant := chr + chromosome + ":" + position;
    assert Prefix3(variant) == chr;
    AsciiLowerConcat(chr + chromosome, ":" + position);
    AsciiLowerConcat(chr, chromosome);
    AsciiLowerConcat(":", position);
    assert AsciiLower(":") == ":";
    var lowered := AsciiLower(variant);
    assert lowered == "chr" + (chromosome + ":" + position);
    RemoveFirstOfPrefix(lowered, "chr");
    assert RemoveFirst(lowered, "chr") == chromosome + [':'] + position;
    SplitAt(chromosome, ':', position);
    SplitWithout(position, ':');
  }

  /** `chr1` without a position is sent both as rsid `1` and as chromosome `1`. */
  lemma ChromosomeWithoutPosition()
    ensures ParseVariant("chr1") == VariantQuery(Some("1"), Some("1"), None)
  {
    var variant := "chr1";
    assert Prefix3(variant) == "chr";
    assert AsciiLower(variant) == "chr1";
    RemoveFirstOfPrefix("chr1", "chr");
    SplitWithout("1", ':');
  }

  /** A database row; the lookup only sets its `phenotype` property. */
  type Row = map<string, Value>

  /** `data[j]['phenotype'] = title ? title : label`. */
  function Tag(p: PhenotypeOption, row: Row): Row
  {
    row["phenotype" := Str(DisplayName(p))]
  }

  /** `!data || data.length === 0`: the phenotype has no hit. */
  predicate NoHit(response: Option<seq<Row>>)
  {
    response.None? || |response.value| == 0
  }

  /** The dashes every placeholder shows. */
  function Dashes(p: PhenotypeOption): Row
  {
    map["phenotype" := Str(DisplayName(p)), "a1" := Str("-"), "a2" := Str("-"), "bp" := Str("-"),
        "chr" := Str("-"), "or" := Str("-"), "p" := Str("-")]
  }

  /**
   * The placeholder as written: `'not-found-' + title ? title : label` parses as
   * `('not-found-' + title) ? title : label`, and the concatenation is always
   * truthy, so `variant_id` is the title itself, `undefined` when there is none.
   */
  function NotFoundRowAsWritten(p: PhenotypeOption): Row
  {
    Dashes(p)["variant_id" := if p.title.Some? then Str(p.title.value) else Undefined]
  }

  /** The placeholder as intended: `variant_id` is `not-found-` and the display name. */
  function NotFoundRow(p: PhenotypeOption): Row
  {
    Dashes(p)["variant_id" := Str("not-found-" + DisplayName(p))]
  }

  /**
   * As written, no placeholder carries the intended `not-found-` id: it carries
   * the title, or `undefined`.
   */
  lemma NotFoundIdAsWritten(p: PhenotypeOption)
    ensures NotFoundRowAsWritten(p)["variant_id"] == if p.title.Some? then Str(p.title.value) else Undefined
    ensures NotFoundRowAsWritten(p)["variant_id"] != NotFoundRow(p)["variant_id"]
    ensures NotFoundRowAsWritten(p) != NotFoundRow(p)
  {
  }

  /** The intended placeholder's id starts with `not-found-` and ends with the display name. */
  lemma NotFoundIdIntended(p: PhenotypeOption)
    ensures var id := NotFoundRow(p)["variant_id"];
      id.Str? && |id.s| == 10 + |DisplayName(p)| &&
      id.s[..10] == "not-found-" && id.s[10..] == DisplayName(p)
  {
  }

  /** A phenotype's hits, tagged with its display name. */
  function Tagged(p: PhenotypeOption, rows: seq<Row>): (tagged: seq<Row>)
    ensures |tagged| == |rows| && forall j :: 0 <= j < |rows| ==> tagged[j] == Tag(p, rows[j])
  {
    seq(|rows|, j requires 0 <= j < |rows| => Tag(p, rows[j]))
  }

  /** `tableList`: the tagged hits, phenotype by phenotype. */
  function FoundRows(ps: seq<PhenotypeOption>, rs: seq<Option<seq<Row>>>): (found: seq<Row>)
    requires |ps| == |rs|
    ensures forall k :: 0 <= k < |found| ==> "phenotype" in found[k] && found[k]["phenotype"].Str?
    decreases |ps|
  {
    if |ps| == 0 then []
    else
      var n := |ps| - 1;
      FoundRows(ps[..n], rs[..n]) + (if NoHit(rs[n]) then [] else Tagged(ps[n], rs[n].value))
  }

  /** Which placeholder a lookup builds: the code as written, or as intended. */
  datatype Version = AsWritten | Intended

  /** The placeholder for a phenotype without a hit, in the given version. */
  function Placeholder(p: PhenotypeOption, version: Version): Row
  {
    if version == AsWritten then NotFoundRowAsWritten(p) else NotFoundRow(p)
  }

  /** `tableListNull`: one placeholder per phenotype without a hit. */
  function Placeholders(ps: seq<PhenotypeOption>, rs: seq<Option<seq<Row>>>, version: Version): (nulls: seq<Row>)
    requires |ps| == |rs|
    ensures |nulls| <= |ps|
    ensures forall k :: 0 <= k < |nulls| ==> "a1" in nulls[k] && nulls[k]["a1"] == Str("-") && "variant_id" in nulls[k]
    decreases |ps|
  {
    if |ps| == 0 then []
    else
      var n := |ps| - 1;
      Placeholders(ps[..n], rs[..n], version) + (if NoHit(rs[n]) then [Placeholder(ps[n], version)] else [])
  }

  /**
   * The two versions build the same placeholders, in the same order, except
   * for `variant_id`, which differs in every one of them.
   */
  lemma {:induction false} PlaceholdersDifferOnlyInId(ps: seq<PhenotypeOption>, rs: seq<Option<seq<Row>>>)
    requires |ps| == |rs|
    ensures |Placeholders(ps, rs, AsWritten)| == |Placeholders(ps, rs, Intended)|
    ensures forall k :: 0 <= k < |Placeholders(ps, rs, AsWritten)| ==>
      Placeholders(ps, rs, AsWritten)[k] - {"variant_id"} == Placeholders(ps, rs, Intended)[k] - {"variant_id"} &&
      Placeholders(ps, rs, AsWritten)[k]["variant_id"] != Placeholders(ps, rs, Intended)[k]["variant_id"]
    decreases |ps|
  {
    if |ps| > 0 {
      var n := |ps| - 1;
      PlaceholdersDifferOnlyInId(ps[..n], rs[..n]);
      if NoHit(rs[n]) {
        NotFoundIdAsWritten(ps[n]);
        assert NotFoundRowAsWritten(ps[n]) - {"variant_id"} == NotFoundRow(ps[n]) - {"variant_id"};
      }
    }
  }

  /** The inner loop: each row of a response, tagged with the display name, pushed in order. */
  method AppendTagged(list: seq<Row>, p: PhenotypeOption, data: seq<Row>) returns (extended: seq<Row>)
    ensures extended == list + Tagged(p, data)
  {
    extended := list;
    for j := 0 to |data|
      invariant extended == list + Tagged(p, data[..j])
    {
      var row := data[j]["phenotype" := Str(DisplayName(p))];
      extended := extended + [row];
      assert Tagged(p, data[..j + 1]) == Tagged(p, data[..j]) + [row];
    }
    assert data[..|data|] == data;
  }

  /**
   * The loop of `lookupVariants` over the phenotypes and their query
   * responses: hits first, then placeholders, and `numResults` counts hits.
   * `version` picks the placeholder as written or as intended.
   */
  method AssembleLookup(phenotypes: seq<PhenotypeOption>, responses: seq<Option<seq<Row>>>, version: Version)
    returns (results: seq<Row>, numResults: nat)
    requires |responses| == |phenotypes|
    ensures results == FoundRows(phenotypes, responses) + Placeholders(phenotypes, responses, version)
    ensures numResults == |FoundRows(phenotypes, responses)|
    ensures results[..numResults] == FoundRows(phenotypes, responses)
  {
    var tableList: seq<Row> := [];
    var tableListNull: seq<Row> := [];
    for i := 0 to |phenotypes|
      invariant tableList == FoundRows(phenotypes[..i], responses[..i])
      invariant tableListNull == Placeholders(phenotypes[..i], responses[..i], version)
    {
      assert phenotypes[..i + 1][..i] == phenotypes[..i];
      assert responses[..i + 1][..i] == responses[..i];
      var data := responses[i];
      if data.None? || |data.value| == 0 {
        tableListNull := tableListNull + [Placeholder(phenotypes[i], version)];
      } else {
        tableList := AppendTagged(tableList, phenotypes[i], data.value);
      }
    }
    assert phenotypes[..|phenotypes|] == phenotypes;
    assert responses[..|responses|] == responses;
    numResults := |tableList|;
    results := tableList + tableListNull;
  }

  /** The row is one of the hits of a phenotype that had hits, tagged with its display name. */
  ghost predicate HitOf(ps: seq<PhenotypeOption>, rs: seq<Option<seq<Row>>>, row: Row)
    requires |ps| == |rs|
  {
    exists i, j :: 0 <= i < |ps| && !NoHit(rs[i]) && 0 <= j < |rs[i].value| && row == Tag(ps[i], rs[i].value[j])
  }

  /** Every found row is a phenotype's hit with only `phenotype` set. */
  lemma {:induction false} FoundRowsAreTagged(ps: seq<PhenotypeOption>, rs: seq<Option<seq<Row>>>)
    requires |ps| == |rs|
    ensures forall k :: 0 <= k < |FoundRows(ps, rs)| ==> HitOf(ps, rs, FoundRows(ps, rs)[k])
    decreases |ps|
  {
    if |ps| > 0 {
      var n := |ps| - 1;
      FoundRowsAreTagged(ps[..n], rs[..n]);
      var prior := FoundRows(ps[..n], rs[..n]);
      forall k | 0 <= k < |FoundRows(ps, rs)|
        ensures HitOf(ps, rs, FoundRows(ps, rs)[k])
      {
        if k < |prior| {
          assert HitOf(ps[..n], rs[..n], prior[k]);
          var i, j :| 0 <= i < n && !NoHit(rs[..n][i]) && 0 <= j < |rs[..n][i].value| &&
            prior[k] == Tag(ps[..n][i], rs[..n][i].value[j]);
          assert FoundRows(ps, rs)[k] == Tag(ps[i], rs[i].value[j]);
        } else {
          assert !NoHit(rs[n]) && 0 <= k - |prior| < |rs[n].value|;
          assert FoundRows(ps, rs)[k] == Tag(ps[n], rs[n].value[k - |prior|]);
        }
      }
    }
  }

  /**
   * Nothing is lost: a phenotype without hits has its placeholder, and every
   * hit of a phenotype with hits is listed, tagged.
   */
  lemma {:induction false} EveryPhenotypeAccounted(ps: seq<PhenotypeOption>, rs: seq<Option<seq<Row>>>, version: Version, i: nat)
    requires |ps| == |rs| && i < |ps|
    ensures NoHit(rs[i]) ==> Placeholder(ps[i], version) in Placeholders(ps, rs, version)
    ensures !NoHit(rs[i]) ==> forall j :: 0 <= j < |rs[i].value| ==> Tag(ps[i], rs[i].value[j]) in FoundRows(ps, rs)
    decreases |ps|
  {
    var n := |ps| - 1;
    if i < n {
      EveryPhenotypeAccounted(ps[..n], rs[..n], version, i);
      assert ps[..n][i] == ps[i] && rs[..n][i] == rs[i];
    } else if !NoHit(rs[i]) {
      forall j | 0 <= j < |rs[i].value|
        ensures Tag(ps[i], rs[i].value[j]) in FoundRows(ps, rs)
      {
        assert FoundRows(ps, rs)[|FoundRows(ps[..n], rs[..n])| + j] == Tag(ps[i], rs[i].value[j]);
      }
    }
  }
}
