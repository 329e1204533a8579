/**
 * The phenotype correlation heatmap of `drawHeatmap`: the symmetric lookup of a
 * correlation between two phenotypes, the n-by-n matrices of colours and hover
 * texts, and the truncated tick labels.
 */
module Heatmap {
  import opened Common
  import opened Actions

  /** The correlation file: phenotype to phenotype to correlation. */
  type Correlations = map<string, map<string, real>>

  /**
   * `getZText(p1, p2, correlationData)`: with both phenotypes present, the
   * entry under p1 if it has p2, else the entry under p2 if it has p1, else 0.
   */
  function ZText(p1: string, p2: string, data: Correlations): (t: real)
    ensures t != 0.0 ==>
      p1 in data && p2 in data && ((p2 in data[p1] && t == data[p1][p2]) || (p1 in data[p2] && t == data[p2][p1]))
  {
    if p1 in data && p2 in data then
      if p2 in data[p1] || p1 in data[p2] then
        if p2 in data[p1] then data[p1][p2] else data[p2][p1]
      else 0.0
    else 0.0
  }

  /** `getZColor`: the same lookup, written out again, with -1 and 1 shown as 0. */
  function ZColor(p1: string, p2: string, data: Correlations): (c: real)
    ensures c != 1.0 && c != -1.0
  {
    var r2 :=
      if p1 in data && p2 in data then
        if p2 in data[p1] || p1 in data[p2] then
          if p2 in data[p1] then data[p1][p2] else data[p2][p1]
        else 0.0
      else 0.0;
    if r2 == -1.0 || r2 == 1.0 then 0.0 else r2
  }

  /** The colour is the hover text with a perfect correlation of either sign blanked out. */
  lemma ZColorIsClippedZText(p1: string, p2: string, data: Correlations)
    ensures var t := ZText(p1, p2, data);
      ZColor(p1, p2, data) == if t == 1.0 || t == -1.0 then 0.0 else t
    ensures ZColor(p1, p2, data) != 1.0 && ZColor(p1, p2, data) != -1.0
  {
  }

  /** The file agrees with itself wherever it lists a pair both ways. */
  predicate Consistent(data: Correlations)
  {
    forall a, b :: a in data && b in data && b in data[a] && a in data[b] ==> data[a][b] == data[b][a]
  }

  /** On a consistent file the lookup does not depend on the order of the pair. */
  lemma ZTextSymmetric(p1: string, p2: string, data: Correlations)
    requires Consistent(data)
    ensures ZText(p1, p2, data) == ZText(p2, p1, data)
    ensures ZColor(p1, p2, data) == ZColor(p2, p1, data)
  {
    ZColorIsClippedZText(p1, p2, data);
    ZColorIsClippedZText(p2, p1, data);
  }

  /** A phenotype correlated with itself at 1 shows an empty diagonal cell. */
  lemma DiagonalIsBlank(p: string, data: Correlations)
    requires p in data && p in data[p] && data[p][p] == 1.0
    ensures ZColor(p, p, data) == 0.0 && ZText(p, p, data) == 1.0
  {
  }

  /** The axis labels: each phenotype's title, or its label when the title is empty. */
  function Labels(phenotypes: seq<PhenotypeOption>): (x: seq<string>)
    ensures |x| == |phenotypes| && forall i :: 0 <= i < |x| ==> x[i] == DisplayName(phenotypes[i])
  {
    seq(|phenotypes|, i requires 0 <= i < |phenotypes| => DisplayName(phenotypes[i]))
  }

  /** The nested `for` loops building `zColor` and `zText` row by row. */
  method BuildHeatmap(phenotypes: seq<PhenotypeOption>, data: Correlations)
    returns (x: seq<string>, zColor: seq<seq<real>>, zText: seq<seq<real>>)
    ensures x == Labels(phenotypes)
    ensures |zColor| == |x| && |zText| == |x|
    ensures forall i :: 0 <= i < |x| ==> |zColor[i]| == |x| && |zText[i]| == |x|
    ensures forall i, j :: 0 <= i < |x| && 0 <= j < |x| ==>
      zColor[i][j] == ZColor(x[i], x[j], data) && zText[i][j] == ZText(x[i], x[j], data)
  {
    x := Labels(phenotypes);
    var n := |x|;
    zColor, zText := [], [];
    for xidx := 0 to n
      invariant |zColor| == xidx && |zText| == xidx
      invariant forall i :: 0 <= i < xidx ==> |zColor[i]| == n && |zText[i]| == n
      invariant forall i, j :: 0 <= i < xidx && 0 <= j < n ==>
        zColor[i][j] == ZColor(x[i], x[j], data) && zText[i][j] == ZText(x[i], x[j], data)
    {
      var rowColor, rowText := [], [];
      for yidx := 0 to n
        invariant |rowColor| == yidx && |rowText| == yidx
        invariant forall j :: 0 <= j < yidx ==>
          rowColor[j] == ZColor(x[xidx], x[j], data) && rowText[j] == ZText(x[xidx], x[j], data)
      {
        rowColor := rowColor + [ZColor(x[xidx], x[yidx], data)];
        rowText := rowText + [ZText(x[xidx], x[yidx], data)];
      }
      zColor := zColor + [rowColor];
      zText := zText + [rowText];
    }
  }

  /** On a consistent file both matrices are symmetric. */
  lemma HeatmapSymmetric(x: seq<string>, zColor: seq<seq<real>>, zText: seq<seq<real>>, data: Correlations)
    requires Consistent(data)
    requires |zColor| == |x| && |zText| == |x|
    requires forall i :: 0 <= i < |x| ==> |zColor[i]| == |x| && |zText[i]| == |x|
    requires forall i, j :: 0 <= i < |x| && 0 <= j < |x| ==>
      zColor[i][j] == ZColor(x[i], x[j], data) && zText[i][j] == ZText(x[i], x[j], data)
    ensures forall i, j :: 0 <= i < |x| && 0 <= j < |x| ==> zColor[i][j] == zColor[j][i] && zText[i][j] == zText[j][i]
  {
    forall i, j | 0 <= i < |x| && 0 <= j < |x|
      ensures zColor[i][j] == zColor[j][i] && zText[i][j] == zText[j][i]
    {
      ZTextSymmetric(x[i], x[j], data);
    }
  }

  /** The longest tick label shown in full. */
  const TICK_LENGTH := 20

  /** `phenotype.length > 20 ? phenotype.substring(0, 20) + '...' : phenotype`. */
  function TickText(text: string): (tick: string)
    ensures |tick| <= TICK_LENGTH + 3
    ensures var n := if |text| < TICK_LENGTH then |text| else TICK_LENGTH; |tick| >= n && tick[..n] == text[..n]
  {
    if |text| > TICK_LENGTH then text[..TICK_LENGTH] + "..." else text
  }

  /**
   * A tick label keeps the first 20 characters; a longer one ends in "..."
   * right after them, a shorter one is whole, and shortening twice changes
   * nothing more.
   */
  lemma TickTextShape(text: string)
    ensures |text| <= TICK_LENGTH ==> TickText(text) == text
    ensures |text| > TICK_LENGTH ==>
      |TickText(text)| == TICK_LENGTH + 3 &&
      TickText(text)[..TICK_LENGTH] == text[..TICK_LENGTH] &&
      TickText(text)[TICK_LENGTH..] == "..."
    ensures TickText(TickText(text)) == TickText(text)
  {
    if |text| > TICK_LENGTH {
      var t := TickText(text);
      assert t[..TICK_LENGTH] == text[..TICK_LENGTH];
      assert TickText(t) == t[..TICK_LENGTH] + "...";
    }
  }
}
