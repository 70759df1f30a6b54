/** The PHP values and string built-ins that the plugin's PHP classes rely on,
    with PHP 8 semantics: `empty()`, array indexing, `strpos`, `str_replace`
    of one character, `strtoupper`, `ucfirst`, `explode` on a one-character
    delimiter, `substr($s, 0, -n)` and `is_numeric`.  Strings are sequences
    of single-byte characters; case mapping touches ASCII letters only. */
module Php {

  import opened Options
  import opened AssocList

  /** A PHP value, as far as the modelled code inspects it.  An array keeps
      its entries in insertion order, keyed by strings. */
  datatype Value =
    | Null
    | Bool(b: bool)
    | Int(i: int)
    | Str(s: string)
    | Array(entries: seq<(string, Value)>)

  /** `empty($v)`.  An empty value has no entry to index. */
  function Empty(v: Value): (b: bool)
    ensures b ==> forall k :: Index(v, k) == Null
  {
    match v
    case Null => true
    case Bool(b) => !b
    case Int(i) => i == 0
    case Str(s) => s == "" || s == "0"
    case Array(entries) => entries == []
  }

  /** A value is truthy exactly when it is not empty; `null` and `false`
      never are, and a truthy array has an entry. */
  function Truthy(v: Value): (b: bool)
    ensures b ==> v != Null && v != Bool(false)
    ensures b && v.Array? ==> exists k :: k in Keys(v.entries)
  {
    assert v.Array? && v.entries != [] ==> Keys(v.entries)[0] in Keys(v.entries);
    !Empty(v)
  }

  /** `$v[$k]` read without `isset`: the bound value, or null when `$v` is not
      an array or has no key `$k`. */
  function Index(v: Value, k: string): (r: Value)
    ensures r != Null ==> v.Array? && Lookup(v.entries, k) == Some(r)
    ensures v.Array? && k in Keys(v.entries) ==> Some(r) == Lookup(v.entries, k)
    ensures v.Array? && k !in Keys(v.entries) ==> r == Null
    ensures !v.Array? ==> r == Null
  {
    if v.Array? then
      match Lookup(v.entries, k)
      case Some(x) => x
      case None => Null
    else Null
  }

  // ---------------------------------------------------------------- strpos

  /** `needle` occurs in `haystack` starting at offset `i`. */
  predicate OccursAt(haystack: string, needle: string, i: int)
  {
    0 <= i && i + |needle| <= |haystack| && haystack[i..i + |needle|] == needle
  }

  /** The first occurrence of `needle` at or after `from`. */
  function StrPosFrom(haystack: string, needle: string, from: nat): (r: Option<nat>)
    ensures r.Some? ==> from <= r.value && OccursAt(haystack, needle, r.value)
    ensures r.Some? ==> forall j :: from <= j < r.value ==> !OccursAt(haystack, needle, j)
    ensures r.None? ==> forall j :: from <= j ==> !OccursAt(haystack, needle, j)
    decreases |haystack| - from
  {
    if from + |needle| > |haystack| then None
    else if haystack[from..from + |needle|] == needle then Some(from)
    else StrPosFrom(haystack, needle, from + 1)
  }

  /** `strpos($haystack, $needle)`: the offset of the first occurrence, or
      `false` (None) when there is none. */
  function StrPos(haystack: string, needle: string): (r: Option<nat>)
    ensures r.Some? ==> OccursAt(haystack, needle, r.value)
    ensures r.Some? ==> forall j :: 0 <= j < r.value ==> !OccursAt(haystack, needle, j)
    ensures r.None? <==> forall j :: !OccursAt(haystack, needle, j)
  {
    StrPosFrom(haystack, needle, 0)
  }

  /** An occurrence at `i` means that the same text occurs inside any longer
      text that contains it. */
  lemma OccursInside(haystack: string, outer: string, inner: string, i: nat, k: nat)
    requires OccursAt(haystack, outer, i)
    requires OccursAt(outer, inner, k)
    ensures OccursAt(haystack, inner, i + k)
  {
    forall m | 0 <= m < |inner| ensures haystack[i + k + m] == inner[m] {
      assert inner[m] == outer[k..k + |inner|][m] == outer[k + m];
      assert outer[k + m] == haystack[i..i + |outer|][k + m];
    }
  }

  // ------------------------------------------------------- character edits

  /** `str_replace($from, $to, $s)` for one-character search and replacement. */
  function ReplaceChar(s: string, from: char, to: char): (r: string)
    ensures |r| == |s|
    ensures forall i :: 0 <= i < |s| ==> r[i] == if s[i] == from then to else s[i]
  {
    if s == [] then []
    else [if s[0] == from then to else s[0]] + ReplaceChar(s[1..], from, to)
  }

  /** After the replacement the searched character is gone. */
  lemma ReplaceCharRemoves(s: string, from: char, to: char)
    requires from != to
    ensures from !in ReplaceChar(s, from, to)
  {
    var r := ReplaceChar(s, from, to);
    forall i | 0 <= i < |r| ensures r[i] != from { }
  }

  predicate IsLower(c: char)
  {
    'a' <= c <= 'z'
  }

  /** The ASCII upper-case form of `c`; any other character is left alone. */
  function Upper(c: char): (u: char)
    ensures !IsLower(u)
    ensures !IsLower(c) ==> u == c
  {
    if IsLower(c) then (c as int - 32) as char else c
  }

  /** `strtoupper($s)`. */
  function ToUpper(s: string): (r: string)
    ensures |r| == |s|
    ensures forall i :: 0 <= i < |s| ==> r[i] == Upper(s[i])
  {
    if s == [] then [] else [Upper(s[0])] + ToUpper(s[1..])
  }

  /** `ucfirst($s)`. */
  function UcFirst(s: string): (r: string)
    ensures |r| == |s|
    ensures s != [] ==> r[0] == Upper(s[0]) && r[1..] == s[1..]
  {
    if s == [] then [] else [Upper(s[0])] + s[1..]
  }

  /** Case mapping introduces only upper-case letters: any other character
      absent from `s` stays absent. */
  lemma UpperKeepsOthers(s: string, c: char)
    requires c !in s && !('A' <= c <= 'Z')
    ensures c !in ToUpper(s) && c !in UcFirst(s)
  {
    var r := ToUpper(s);
    forall i | 0 <= i < |r| ensures r[i] != c {
      assert s[i] != c;
    }
    if s != [] {
      assert s[0] != c;
      assert UcFirst(s) == [Upper(s[0])] + s[1..];
    }
  }

  // ------------------------------------------------------ explode / implode

  /** `explode($sep, $s)` for a one-character delimiter: the maximal runs
      between delimiters, always at least one piece. */
  function Explode(sep: char, s: string): (pieces: seq<string>)
    ensures |pieces| >= 1
    ensures forall p :: p in pieces ==> sep !in p
  {
    if s == [] then [""]
    else if s[0] == sep then [""] + Explode(sep, s[1..])
    else
      var rest := Explode(sep, s[1..]);
      assert rest[0] in rest;
      [[s[0]] + rest[0]] + rest[1..]
  }

  /** `implode($sep, $pieces)`. */
  function Implode(sep: char, pieces: seq<string>): string
    requires |pieces| >= 1
  {
    if |pieces| == 1 then pieces[0]
    else pieces[0] + [sep] + Implode(sep, pieces[1..])
  }

  /** Joining the pieces with the delimiter gives back the exploded string. */
  lemma {:induction false} ExplodeImplode(sep: char, s: string)
    ensures Implode(sep, Explode(sep, s)) == s
  {
    if s == [] {
    } else if s[0] == sep {
      ExplodeImplode(sep, s[1..]);
      assert s == [sep] + s[1..];
    } else {
      var rest := Explode(sep, s[1..]);
      ExplodeImplode(sep, s[1..]);
      var r := [[s[0]] + rest[0]] + rest[1..];
      if |rest| == 1 {
        assert s == [s[0]] + s[1..];
      } else {
        assert r[1..] == rest[1..];
        calc {
          Implode(sep, r);
          [s[0]] + rest[0] + [sep] + Implode(sep, rest[1..]);
          [s[0]] + Implode(sep, rest);
          { assert s == [s[0]] + s[1..]; }
          s;
        }
      }
    }
  }

  /** Text free of the delimiter becomes the head of the first piece. */
  lemma {:induction false} ExplodePrefix(sep: char, p: string, t: string)
    requires sep !in p
    ensures Explode(sep, p + t) == [p + Explode(sep, t)[0]] + Explode(sep, t)[1..]
  {
    if p == [] {
      var e := Explode(sep, t);
      assert p + t == t && p + e[0] == e[0];
      assert e == [e[0]] + e[1..];
    } else {
      assert (p + t)[1..] == p[1..] + t;
      assert sep !in p[1..] by { forall i | 0 <= i < |p| - 1 ensures p[1..][i] != sep { assert p[i + 1] != sep; } }
      ExplodePrefix(sep, p[1..], t);
      assert (p + t)[0] == p[0] && p[0] != sep;
      assert [p[0]] + (p[1..] + Explode(sep, t)[0]) == p + Explode(sep, t)[0];
    }
  }

  /** A delimiter-free piece followed by the delimiter becomes a piece of
      its own. */
  lemma ExplodeAfterSep(sep: char, p: string, t: string)
    requires sep !in p
    ensures Explode(sep, p + [sep] + t) == [p] + Explode(sep, t)
  {
    var st := [sep] + t;
    assert p + [sep] + t == p + st;
    ExplodePrefix(sep, p, st);
    assert st[0] == sep && st[1..] == t;
    assert Explode(sep, st) == [""] + Explode(sep, t);
    assert p + "" == p;
  }

  /** Exploding delimiter-free pieces joined by the delimiter gives back the
      pieces. */
  lemma {:induction false} ImplodeExplode(sep: char, pieces: seq<string>)
    requires |pieces| >= 1
    requires forall p :: p in pieces ==> sep !in p
    ensures Explode(sep, Implode(sep, pieces)) == pieces
  {
    assert pieces[0] in pieces;
    if |pieces| == 1 {
      ExplodePrefix(sep, pieces[0], []);
      assert pieces[0] + [] == pieces[0];
    } else {
      assert forall p :: p in pieces[1..] ==> p in pieces;
      ImplodeExplode(sep, pieces[1..]);
      ExplodeAfterSep(sep, pieces[0], Implode(sep, pieces[1..]));
      assert pieces == [pieces[0]] + pieces[1..];
    }
  }

  /** `substr($s, 0, -$n)` for `$n > 0`: everything but the last `n`
      characters, and the empty string when there are no more than `n`. */
  function SubstrDropEnd(s: string, n: nat): (r: string)
    requires n > 0
    ensures |s| >= n ==> |r| == |s| - n
    ensures |s| <= n ==> r == ""
    ensures r <= s
  {
    if |s| >= n then s[..|s| - n] else ""
  }

  // ------------------------------------------------------------ is_numeric

  /** The whitespace PHP 8 allows around a numeric string. */
  predicate IsSpace(c: char)
  {
    c == ' ' || c == '\t' || c == '\n' || c == '\r' || c == 11 as char || c == 12 as char
  }

  predicate IsDigit(c: char)
  {
    '0' <= c <= '9'
  }

  /** The end of the run of whitespace starting at `i`. */
  function SkipSpace(s: string, i: nat): (j: nat)
    requires i <= |s|
    ensures i <= j <= |s|
    ensures forall k :: i <= k < j ==> IsSpace(s[k])
    ensures j < |s| ==> !IsSpace(s[j])
    decreases |s| - i
  {
    if i < |s| && IsSpace(s[i]) then SkipSpace(s, i + 1) else i
  }

  /** The end of the run of decimal digits starting at `i`. */
  function SkipDigits(s: string, i: nat): (j: nat)
    requires i <= |s|
    ensures i <= j <= |s|
    ensures forall k :: i <= k < j ==> IsDigit(s[k])
    ensures j < |s| ==> !IsDigit(s[j])
    decreases |s| - i
  {
    if i < |s| && IsDigit(s[i]) then SkipDigits(s, i + 1) else i
  }

  /** Where an exponent that starts at `i` (just after the `e`) ends: after
      an optional sign and at least one digit; `start` when there is no digit,
      so that the `e` is left unconsumed. */
  function ExponentEnd(s: string, i: nat, start: nat): (j: nat)
    requires start < i <= |s|
    ensures j == start || i < j <= |s|
  {
    var k := if i < |s| && (s[i] == '+' || s[i] == '-') then i + 1 else i;
    var f := SkipDigits(s, k);
    if f > k then f else start
  }

  /** `is_numeric($s)` for a string: optional leading whitespace, an optional
      sign, digits with an optional fraction (or a fraction alone), an
      optional exponent, optional trailing whitespace, and nothing else.
      A numeric string holds at least one digit, and does not start with
      a letter. */
  function IsNumeric(s: string): (b: bool)
    ensures b ==> exists i :: 0 <= i < |s| && IsDigit(s[i])
    ensures b ==> !('a' <= s[0] <= 'z') && !('A' <= s[0] <= 'Z')
  {
    var a := SkipSpace(s, 0);
    var b := if a < |s| && (s[a] == '+' || s[a] == '-') then a + 1 else a;
    var c := SkipDigits(s, b);
    var d := if c < |s| && s[c] == '.' then SkipDigits(s, c + 1) else c;
    var mantissa := c > b || d > c + 1;
    var e := if mantissa && d < |s| && (s[d] == 'e' || s[d] == 'E') then ExponentEnd(s, d + 1, d) else d;
    mantissa && SkipSpace(s, e) == |s|
  }

  /** A non-empty run of decimal digits, such as a post ID, is numeric. */
  lemma DigitsAreNumeric(s: string)
    requires s != []
    requires forall i :: 0 <= i < |s| ==> IsDigit(s[i])
    ensures IsNumeric(s)
  {
    assert !IsSpace(s[0]);
    assert SkipSpace(s, 0) == 0;
    assert SkipDigits(s, 0) == |s|;
  }

  /** A string without a single decimal digit, such as an ordinary post slug,
      is not numeric. */
  lemma NoDigitNotNumeric(s: string)
    requires forall i :: 0 <= i < |s| ==> !IsDigit(s[i])
    ensures !IsNumeric(s)
  {
    var a := SkipSpace(s, 0);
    var b := if a < |s| && (s[a] == '+' || s[a] == '-') then a + 1 else a;
    var c := SkipDigits(s, b);
    assert c == b;
    if c < |s| && s[c] == '.' {
      assert SkipDigits(s, c + 1) == c + 1;
    }
  }

  /** Exponent notation is numeric too: the slug-shaped `1e5` passes. */
  lemma ExponentSlugIsNumeric()
    ensures IsNumeric("1e5")
  {
    var s := "1e5";
    assert SkipSpace(s, 0) == 0;
    assert SkipDigits(s, 2) == 3;
    assert SkipDigits(s, 0) == 1;
    assert ExponentEnd(s, 2, 1) == 3;
    assert SkipSpace(s, 3) == 3;
  }
}
