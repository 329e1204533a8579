/**
 * The per-row normaliser of the phenotype import (the csv-parse `on_record`
 * callback): trims every field, turns `NULL` and empty strings into null,
 * coerces `id` and `parent_id` with unary `+`, and rewrites the type
 * `ordinal` to `categorical`.
 */
module PhenotypeRecord {
  import opened Common
  import opened JsString

  /**
   * A JavaScript number produced by unary `+` on a string. An optionally signed
   * run of decimal digits gives an integer; every other non-empty string is NaN.
   */
  datatype Num = Int(value: int) | NaN

  /** `a === b` on numbers: NaN equals nothing, not even itself. */
  predicate StrictEquals(a: Num, b: Num)
  {
    a.Int? && b.Int? && a.value == b.value
  }

  /** `t` without its leading sign, if it has one. */
  function Unsigned(t: string): string
  {
    if |t| > 0 && (t[0] == '+' || t[0] == '-') then t[1..] else t
  }

  /** An optionally signed, non-empty run of decimal digits. */
  predicate IsIntegerLiteral(t: string)
  {
    |Unsigned(t)| > 0 && forall i :: 0 <= i < |Unsigned(t)| ==> IsDigit(Unsigned(t)[i])
  }

  /** The value of an integer literal. */
  function LiteralValue(t: string): int
    requires IsIntegerLiteral(t)
  {
    if t[0] == '-' then -(DigitsValue(Unsigned(t)) as int) else DigitsValue(Unsigned(t))
  }

  /** Unary `+` applied to a string or to `null` (`+null` is 0, `+""` is 0). */
  function ToNumber(v: Option<string>): Num
  {
    match v
    case None => Int(0)
    case Some(s) =>
      var t := Trim(s);
      if |t| == 0 then Int(0)
      else if IsIntegerLiteral(t) then Int(LiteralValue(t))
      else NaN
  }

  /** The decimal rendering of an integer is an integer literal with nothing to trim. */
  lemma DecimalIsLiteral(n: int)
    ensures var s := Decimal(n); |s| > 0 && IsIntegerLiteral(s) && Trim(s) == s
    ensures Unsigned(Decimal(n)) == Digits(if n < 0 then -n else n)
  {
    var s := Decimal(n);
    assert IsDigit(s[|s| - 1]);
    TrimStartOfTrimmed(s);
    TrimEndOfTrimmed(s);
  }

  /** Rendering an integer and coercing it back with `+` gives the integer. */
  lemma DecimalToNumber(n: int)
    ensures ToNumber(Some(Decimal(n))) == Int(n)
  {
    var s := Decimal(n);
    var m: nat := if n < 0 then -n else n;
    DecimalIsLiteral(n);
    DigitsRoundTrip(m);
    assert s[0] == '-' <==> n < 0;
  }

  /** `/^NULL$/i`: exactly the four letters N, U, L, L in any letter case. */
  predicate IsNullLiteral(t: string)
  {
    |t| == 4 && (t[0] == 'N' || t[0] == 'n') && (t[1] == 'U' || t[1] == 'u') &&
    (t[2] == 'L' || t[2] == 'l') && (t[3] == 'L' || t[3] == 'l')
  }

  /** One field after normalisation: trimmed, or null when empty or `NULL`. */
  function NormalizeField(raw: string): (v: Option<string>)
  {
    var t := Trim(raw);
    if IsNullLiteral(t) || |t| == 0 then None else Some(t)
  }

  /** A normalised field is null exactly for the sentinels, and otherwise the trimmed text. */
  lemma NormalizeFieldMeaning(raw: string)
    ensures NormalizeField(raw).None? <==> (Trim(raw) == "" || IsNullLiteral(Trim(raw)))
    ensures NormalizeField(raw).Some? ==>
      var t := NormalizeField(raw).value;
      t == Trim(raw) && |t| > 0 && !IsWhitespace(t[0]) && !IsWhitespace(t[|t| - 1]) && !IsNullLiteral(t)
  {
    TrimShape(raw);
  }

  /** Normalising an already normalised value changes nothing. */
  lemma NormalizeFieldIdempotent(raw: string)
    requires NormalizeField(raw).Some?
    ensures NormalizeField(NormalizeField(raw).value) == NormalizeField(raw)
  {
    TrimIdempotent(raw);
  }

  lemma TrimOfTrimmed(s: string)
    requires s == [] || (!IsWhitespace(s[0]) && !IsWhitespace(s[|s| - 1]))
    ensures Trim(s) == s
  {
    TrimStartOfTrimmed(s);
    TrimEndOfTrimmed(s);
  }

  /** `"NULL"` and `"nUlL"` become null. */
  lemma NullSentinels()
    ensures NormalizeField("NULL").None? && NormalizeField("nUlL").None?
  {
    assert Trim("NULL") == "NULL";
    assert Trim("nUlL") == "nUlL";
  }

  /** `"  NULL  "` becomes null: the padding is trimmed before the test. */
  lemma PaddedNullSentinel()
    ensures NormalizeField("  NULL  ").None?
  {
    assert TrimStart("NULL  ") == "NULL  ";
    assert TrimStart("  NULL  ") == "NULL  ";
    assert TrimEnd("NULL") == "NULL";
    assert TrimEnd("NULL  ") == "NULL";
    NullSentinels();
  }

  /** The column order of the input file. */
  const ID_COLUMN := 0
  const PARENT_ID_COLUMN := 1
  const TYPE_COLUMN := 5
  const COLUMNS := 7

  /** A phenotype record as the import keeps it in memory. */
  datatype Phenotype = Phenotype(
    id: Num,
    parentId: Option<Num>,
    displayName: Option<string>,
    name: Option<string>,
    description: Option<string>,
    kind: Option<string>,
    ageName: Option<string>)

  /** `record.type === 'ordinal'` rewrites to `categorical`; everything else passes. */
  function NormalizeType(kind: Option<string>): Option<string>
  {
    if kind == Some("ordinal") then Some("categorical") else kind
  }

  /** Every field of a row, normalised. */
  function NormalizedFields(row: seq<string>): (f: seq<Option<string>>)
    ensures |f| == |row|
    ensures forall k :: 0 <= k < |row| ==> f[k] == NormalizeField(row[k])
  {
    if row == [] then [] else NormalizedFields(row[..|row| - 1]) + [NormalizeField(row[|row| - 1])]
  }

  /** `id`, `parent_id` and `type` coerced from the normalised fields. */
  function Coerced(f: seq<Option<string>>): Phenotype
    requires |f| == COLUMNS
  {
    Phenotype(
      ToNumber(f[ID_COLUMN]),
      if f[PARENT_ID_COLUMN].Some? then Some(ToNumber(f[PARENT_ID_COLUMN])) else None,
      f[2], f[3], f[4],
      NormalizeType(f[TYPE_COLUMN]),
      f[6])
  }

  /** The record that `on_record` returns for a 7-field row. */
  function NormalizedRecord(row: seq<string>): Phenotype
    requires |row| == COLUMNS
  {
    Coerced(NormalizedFields(row))
  }

  /**
   * `on_record`: the `for...in` loop rewrites every field of the record in place,
   * then `id`, `parent_id` and `type` are coerced.
   */
  method NormalizeRecord(row: seq<string>) returns (record: Phenotype)
    requires |row| == COLUMNS
    ensures record == NormalizedRecord(row)
  {
    var fields := Present(row);
    for k := 0 to COLUMNS
      invariant |fields| == COLUMNS
      invariant forall j :: 0 <= j < k ==> fields[j] == NormalizeField(row[j])
      invariant forall j :: k <= j < COLUMNS ==> fields[j] == Some(row[j])
    {
      var value := Trim(fields[k].value);
      if IsNullLiteral(value) || |value| == 0 {
        fields := fields[k := None];
      } else {
        fields := fields[k := Some(value)];
      }
    }
    assert fields == NormalizedFields(row);
    var id := ToNumber(fields[ID_COLUMN]);
    var parentId: Option<Num>;
    if fields[PARENT_ID_COLUMN] != None {
      parentId := Some(ToNumber(fields[PARENT_ID_COLUMN]));
    } else {
      parentId := None;
    }
    var kind := fields[TYPE_COLUMN];
    if kind == Some("ordinal") {
      kind := Some("categorical");
    }
    record := Phenotype(id, parentId, fields[2], fields[3], fields[4], kind, fields[6]);
  }

  /** The raw fields of a row, each present (not yet normalised). */
  function Present(row: seq<string>): (f: seq<Option<string>>)
    ensures |f| == |row| && forall k :: 0 <= k < |row| ==> f[k] == Some(row[k])
  {
    if row == [] then [] else [Some(row[0])] + Present(row[1..])
  }

  /**
   * What a normalised record holds: `parent_id` is null exactly when its field is
   * a null sentinel and otherwise the coercion of the trimmed field; a null `id`
   * becomes 0; the type is never `ordinal` and only `ordinal` is rewritten.
   */
  lemma NormalizedRecordFields(row: seq<string>)
    requires |row| == COLUMNS
    ensures var r := NormalizedRecord(row);
      && (r.parentId.None? <==> NormalizeField(row[PARENT_ID_COLUMN]).None?)
      && (r.parentId.Some? ==> r.parentId.value == ToNumber(Some(Trim(row[PARENT_ID_COLUMN]))))
      && (NormalizeField(row[ID_COLUMN]).None? ==> r.id == Int(0))
      && (NormalizeField(row[ID_COLUMN]).Some? ==> r.id == ToNumber(Some(Trim(row[ID_COLUMN]))))
      && r.kind != Some("ordinal")
      && (Trim(row[TYPE_COLUMN]) == "ordinal" ==> r.kind == Some("categorical"))
      && (Trim(row[TYPE_COLUMN]) != "ordinal" ==> r.kind == NormalizeField(row[TYPE_COLUMN]))
      && r.displayName == NormalizeField(row[2]) && r.name == NormalizeField(row[3])
      && r.description == NormalizeField(row[4]) && r.ageName == NormalizeField(row[6])
  {
    var t := Trim(row[TYPE_COLUMN]);
    if t == "ordinal" {
      assert !IsNullLiteral(t);
    }
  }
}
