/**
 * The JavaScript string built-ins the model relies on: `String.prototype.trim`,
 * ASCII `toLowerCase`, `indexOf`/`replace` with a string pattern, `split` on a
 * one-character separator, and the decimal rendering of an integer (`${n}`).
 */
module JsString {

  /** The characters `trim` removes: ECMAScript WhiteSpace and LineTerminator. */
  predicate IsWhitespace(c: char)
  {
    var u := c as int;
    (0x09 <= u <= 0x0D) || u == 0x20 || u == 0xA0 || u == 0x1680 ||
    (0x2000 <= u <= 0x200A) || u == 0x2028 || u == 0x2029 || u == 0x202F ||
    u == 0x205F || u == 0x3000 || u == 0xFEFF
  }

  predicate AllWhitespace(s: string)
  {
    forall i :: 0 <= i < |s| ==> IsWhitespace(s[i])
  }

  function TrimStart(s: string): string
  {
    if |s| > 0 && IsWhitespace(s[0]) then TrimStart(s[1..]) else s
  }

  function TrimEnd(s: string): string
  {
    if |s| > 0 && IsWhitespace(s[|s| - 1]) then TrimEnd(s[..|s| - 1]) else s
  }

  /** `s.trim()`. */
  function Trim(s: string): string
  {
    TrimEnd(TrimStart(s))
  }

  /** `trimStart` removes a whitespace prefix and stops at the first other character. */
  lemma {:induction false} TrimStartShape(s: string)
    ensures var r := TrimStart(s);
      |r| <= |s| && r == s[|s| - |r|..] && AllWhitespace(s[..|s| - |r|]) && (r == [] || !IsWhitespace(r[0]))
  {
    if |s| > 0 && IsWhitespace(s[0]) {
      TrimStartShape(s[1..]);
      var r := TrimStart(s);
      assert s[..|s| - |r|] == [s[0]] + s[1..][..|s| - 1 - |r|];
    }
  }

  /** `trimEnd` removes a whitespace suffix and stops at the last other character. */
  lemma {:induction false} TrimEndShape(s: string)
    ensures var r := TrimEnd(s);
      |r| <= |s| && r == s[..|r|] && AllWhitespace(s[|r|..]) && (r == [] || !IsWhitespace(r[|r| - 1]))
  {
    if |s| > 0 && IsWhitespace(s[|s| - 1]) {
      TrimEndShape(s[..|s| - 1]);
      var r := TrimEnd(s);
      assert s[|r|..] == s[..|s| - 1][|r|..] + [s[|s| - 1]];
    }
  }

  /** `trim` cuts only whitespace, from both ends, and leaves none at either end. */
  lemma TrimShape(s: string)
    ensures var t := Trim(s);
      exists i, j :: 0 <= i <= j <= |s| && t == s[i..j] && AllWhitespace(s[..i]) && AllWhitespace(s[j..])
    ensures Trim(s) == [] || (!IsWhitespace(Trim(s)[0]) && !IsWhitespace(Trim(s)[|Trim(s)| - 1]))
  {
    var a := TrimStart(s);
    var t := TrimEnd(a);
    TrimStartShape(s);
    TrimEndShape(a);
    var i := |s| - |a|;
    var j := i + |t|;
    assert t == s[i..j];
    assert s[j..] == a[|t|..];
    if t != [] {
      assert t[0] == a[0];
    }
  }

  lemma TrimStartOfTrimmed(s: string)
    requires s == [] || !IsWhitespace(s[0])
    ensures TrimStart(s) == s
  {
  }

  lemma TrimEndOfTrimmed(s: string)
    requires s == [] || !IsWhitespace(s[|s| - 1])
    ensures TrimEnd(s) == s
  {
  }

  /** Trimming twice is trimming once. */
  lemma TrimIdempotent(s: string)
    ensures Trim(Trim(s)) == Trim(s)
  {
    var t := Trim(s);
    TrimShape(s);
    TrimStartOfTrimmed(t);
    TrimEndOfTrimmed(t);
  }

  /** `toLowerCase` on ASCII letters; every other character is left alone. */
  function LowerChar(c: char): char
  {
    if 'A' <= c <= 'Z' then (c as int + 32) as char else c
  }

  function AsciiLower(s: string): (r: string)
    ensures |r| == |s|
    ensures forall i :: 0 <= i < |s| ==> r[i] == LowerChar(s[i])
  {
    seq(|s|, i requires 0 <= i < |s| => LowerChar(s[i]))
  }

  lemma AsciiLowerConcat(a: string, b: string)
    ensures AsciiLower(a + b) == AsciiLower(a) + AsciiLower(b)
  {
  }

  /** `p` occurs in `s` starting at position `k`. */
  predicate OccursAt(s: string, p: string, k: int)
  {
    0 <= k && k + |p| <= |s| && s[k..k + |p|] == p
  }

  /** `s.indexOf(p)`: the first position at which `p` occurs, or -1. */
  function IndexOf(s: string, p: string): (i: int)
    ensures -1 <= i <= |s|
    ensures i >= 0 ==> OccursAt(s, p, i)
    ensures i >= 0 ==> forall k :: 0 <= k < i ==> !OccursAt(s, p, k)
    ensures i == -1 ==> forall k :: !OccursAt(s, p, k)
    decreases |s|
  {
    if |s| < |p| then -1
    else if s[..|p|] == p then 0
    else
      var j := IndexOf(s[1..], p);
      assert forall k :: 1 <= k ==> (OccursAt(s, p, k) <==> OccursAt(s[1..], p, k - 1)) by {
        forall k | 1 <= k
          ensures OccursAt(s, p, k) <==> OccursAt(s[1..], p, k - 1)
        {
          if k + |p| <= |s| {
            var here, there := s[k..k + |p|], s[1..][k - 1..k - 1 + |p|];
            assert forall t :: 0 <= t < |here| ==> here[t] == there[t];
            assert here == there;
          }
        }
      }
      if j < 0 then -1 else j + 1
  }

  /** `s.replace(p, "")` with a string pattern: drops the first occurrence of `p`. */
  function RemoveFirst(s: string, p: string): string
  {
    var i := IndexOf(s, p);
    if i < 0 then s else s[..i] + s[i + |p|..]
  }

  lemma RemoveFirstOfPrefix(s: string, p: string)
    requires |p| <= |s| && s[..|p|] == p
    ensures RemoveFirst(s, p) == s[|p|..]
  {
  }

  /** A one-character pattern occurs exactly where that character is. */
  lemma OccursAtChar(s: string, c: char, k: int)
    requires 0 <= k < |s|
    ensures OccursAt(s, [c], k) <==> s[k] == c
  {
    assert s[k..k + 1] == [s[k]];
  }

  /** `s` does not contain `sep`. */
  predicate Free(s: string, sep: char)
  {
    forall i :: 0 <= i < |s| ==> s[i] != sep
  }

  /** The one-character search finds the first `sep`, or reports that there is none. */
  lemma FirstSeparator(s: string, sep: char)
    ensures var i := IndexOf(s, [sep]);
      (i < 0 ==> Free(s, sep)) && (i >= 0 ==> i < |s| && s[i] == sep && Free(s[..i], sep))
  {
    var i := IndexOf(s, [sep]);
    if i < 0 {
      forall k | 0 <= k < |s| ensures s[k] != sep { OccursAtChar(s, sep, k); }
    } else {
      OccursAtChar(s, sep, i);
      forall k | 0 <= k < i ensures s[..i][k] != sep { OccursAtChar(s, sep, k); }
    }
  }

  /** `s.split(sep)` for a one-character separator. */
  function Split(s: string, sep: char): (pieces: seq<string>)
    ensures |pieces| >= 1
    ensures forall k :: 0 <= k < |pieces| ==> Free(pieces[k], sep)
    decreases |s|
  {
    var i := IndexOf(s, [sep]);
    FirstSeparator(s, sep);
    if i < 0 then [s] else [s[..i]] + Split(s[i + 1..], sep)
  }

  /** Joining pieces with the separator between them. */
  function Join(pieces: seq<string>, sep: char): string
    requires |pieces| >= 1
  {
    if |pieces| == 1 then pieces[0] else pieces[0] + [sep] + Join(pieces[1..], sep)
  }

  /** Splitting loses nothing: joining the pieces back gives the original string. */
  lemma {:induction false} SplitJoin(s: string, sep: char)
    ensures Join(Split(s, sep), sep) == s
    decreases |s|
  {
    var i := IndexOf(s, [sep]);
    FirstSeparator(s, sep);
    if i >= 0 {
      var rest := s[i + 1..];
      SplitJoin(rest, sep);
      var pieces := Split(s, sep);
      assert pieces == [s[..i]] + Split(rest, sep);
      assert pieces[1..] == Split(rest, sep);
      assert Join(pieces, sep) == s[..i] + [sep] + Join(Split(rest, sep), sep);
      assert s == s[..i] + [sep] + rest;
    }
  }

  /** Splitting `a + sep + b`, where `a` has no `sep`, gives `a` first and then the pieces of `b`. */
  lemma SplitAt(a: string, sep: char, b: string)
    requires forall i :: 0 <= i < |a| ==> a[i] != sep
    ensures Split(a + [sep] + b, sep) == [a] + Split(b, sep)
  {
    var s := a + [sep] + b;
    var i := IndexOf(s, [sep]);
    OccursAtChar(s, sep, |a|);
    if 0 <= i < |a| {
      OccursAtChar(s, sep, i);
    }
    assert i == |a|;
    assert s[..|a|] == a;
    assert s[|a| + 1..] == b;
  }

  /** A string without `sep` is a single piece. */
  lemma SplitWithout(s: string, sep: char)
    requires forall i :: 0 <= i < |s| ==> s[i] != sep
    ensures Split(s, sep) == [s]
  {
    var i := IndexOf(s, [sep]);
    if i >= 0 {
      OccursAtChar(s, sep, i);
    }
  }

  // ---- decimal rendering of integers (`${n}`) -----------------------------

  predicate IsDigit(c: char)
  {
    '0' <= c <= '9'
  }

  function DigitChar(d: nat): char
    requires d < 10
  {
    ('0' as int + d) as char
  }

  function DigitValue(c: char): nat
    requires IsDigit(c)
  {
    c as int - '0' as int
  }

  /** The decimal digits of `n`, most significant first, without leading zeros. */
  function Digits(n: nat): (s: string)
    ensures |s| >= 1
    ensures forall i :: 0 <= i < |s| ==> IsDigit(s[i])
  {
    if n < 10 then [DigitChar(n)] else Digits(n / 10) + [DigitChar(n % 10)]
  }

  /** `String(n)` for an integer `n`. */
  function Decimal(n: int): string
  {
    if n < 0 then "-" + Digits(-n) else Digits(n)
  }

  /** The value of a non-empty run of decimal digits. */
  function DigitsValue(s: string): nat
    requires forall i :: 0 <= i < |s| ==> IsDigit(s[i])
  {
    if |s| == 0 then 0 else DigitsValue(s[..|s| - 1]) * 10 + DigitValue(s[|s| - 1])
  }

  lemma {:induction false} DigitsRoundTrip(n: nat)
    ensures DigitsValue(Digits(n)) == n
  {
    if n >= 10 {
      DigitsRoundTrip(n / 10);
      var s := Digits(n);
      assert s[..|s| - 1] == Digits(n / 10);
    }
  }
}
