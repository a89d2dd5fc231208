/**
 * The string operations the engine relies on: `trim`, `split('.')` and the
 * dot-joined path format, and the decimal numerals that name array indices.
 */
module Strings {

  // ---------------------------------------------------------------------
  // String.prototype.trim
  // ---------------------------------------------------------------------

  /** The code points `trim` removes: ECMAScript WhiteSpace and LineTerminator. */
  predicate IsWhitespace(c: char) {
    c == '\t' || c == '\n' || c == '\U{000B}' || c == '\U{000C}' || c == '\r' || c == ' '
    || c == '\U{00A0}' || c == '\U{1680}' || ('\U{2000}' <= c <= '\U{200A}')
    || c == '\U{2028}' || c == '\U{2029}' || c == '\U{202F}' || c == '\U{205F}'
    || c == '\U{3000}' || c == '\U{FEFF}'
  }

  /** Every character of `s` is white space (`s.trim()` is falsy). */
  predicate Blank(s: string) {
    forall i :: 0 <= i < |s| ==> IsWhitespace(s[i])
  }

  function TrimStart(s: string): (r: string)
    ensures |r| <= |s| && r == s[|s| - |r|..]
    ensures r == [] || !IsWhitespace(r[0])
  {
    if s != [] && IsWhitespace(s[0]) then TrimStart(s[1..]) else s
  }

  function TrimEnd(s: string): (r: string)
    ensures |r| <= |s| && r == s[..|r|]
    ensures r == [] || !IsWhitespace(r[|r| - 1])
  {
    if s != [] && IsWhitespace(s[|s| - 1]) then TrimEnd(s[..|s| - 1]) else s
  }

  /** `s.trim()`: leading and trailing white space removed. */
  function Trim(s: string): string {
    TrimEnd(TrimStart(s))
  }

  lemma {:induction false} TrimStartBlank(s: string)
    ensures TrimStart(s) == [] <==> Blank(s)
  {
    if s == [] {
    } else if IsWhitespace(s[0]) {
      var t := s[1..];
      TrimStartBlank(t);
      if Blank(t) {
        forall i | 0 <= i < |s| ensures IsWhitespace(s[i]) {
          if i > 0 { assert s[i] == t[i - 1]; }
        }
      }
      if Blank(s) {
        forall i | 0 <= i < |t| ensures IsWhitespace(t[i]) {
          assert t[i] == s[i + 1];
        }
      }
    } else {
      assert !Blank(s) by {
        assert !IsWhitespace(s[0]);
      }
    }
  }

  /** `s.trim()` is the empty string exactly when `s` is all white space. */
  lemma TrimEmptyIffBlank(s: string)
    ensures Trim(s) == [] <==> Blank(s)
  {
    TrimStartBlank(s);
    var t := TrimStart(s);
    assert t == [] || !IsWhitespace(t[0]);
    assert TrimEnd(t) == [] <==> t == [] by {
      if t != [] && TrimEnd(t) == [] {
        TrimEndEmpty(t);
      }
    }
  }

  lemma {:induction false} TrimEndEmpty(t: string)
    requires TrimEnd(t) == []
    ensures Blank(t)
  {
    if t != [] {
      if IsWhitespace(t[|t| - 1]) {
        TrimEndEmpty(t[..|t| - 1]);
        forall i | 0 <= i < |t| ensures IsWhitespace(t[i]) {
          if i < |t| - 1 { assert t[i] == t[..|t| - 1][i]; }
        }
      }
    }
  }

  // ---------------------------------------------------------------------
  // Paths: String.prototype.split('.') and the dot-joined format
  // ---------------------------------------------------------------------

  /** The first position of `c` in `s`. */
  function IndexOf(s: string, c: char): (i: nat)
    requires c in s
    ensures i < |s| && s[i] == c && c !in s[..i]
  {
    if s[0] == c then 0 else 1 + IndexOf(s[1..], c)
  }

  /** `s.split('.')`: the pieces between dots, at least one, none holding a dot. */
  function Split(s: string): (parts: seq<string>)
    ensures |parts| >= 1
    ensures forall i :: 0 <= i < |parts| ==> '.' !in parts[i]
    decreases |s|
  {
    if '.' !in s then [s]
    else
      var i := IndexOf(s, '.');
      [s[..i]] + Split(s[i + 1..])
  }

  /** `parts.join('.')`. */
  function Join(parts: seq<string>): string {
    if |parts| == 0 then ""
    else if |parts| == 1 then parts[0]
    else parts[0] + "." + Join(parts[1..])
  }

  /** Splitting a joined path gives back its segments, when none holds a dot. */
  lemma {:induction false} SplitJoin(parts: seq<string>)
    requires |parts| >= 1
    requires forall i :: 0 <= i < |parts| ==> '.' !in parts[i]
    ensures Split(Join(parts)) == parts
  {
    if |parts| > 1 {
      var s := Join(parts);
      var tail := Join(parts[1..]);
      assert s == parts[0] + "." + tail;
      assert s[..|parts[0]|] == parts[0];
      assert s[|parts[0]|] == '.';
      assert '.' in s;
      assert IndexOf(s, '.') == |parts[0]|;
      assert s[|parts[0]| + 1..] == tail;
      SplitJoin(parts[1..]);
    }
  }

  /** Joining the pieces of a split restores the string. */
  lemma {:induction false} JoinSplit(s: string)
    ensures Join(Split(s)) == s
    decreases |s|
  {
    if '.' in s {
      var i := IndexOf(s, '.');
      JoinSplit(s[i + 1..]);
      var rest := Split(s[i + 1..]);
      assert Split(s) == [s[..i]] + rest;
      assert ([s[..i]] + rest)[1..] == rest;
      assert s == s[..i] + "." + s[i + 1..];
    }
  }

  /** Appending one dot-free segment to a path appends one piece to its split. */
  lemma {:induction false} SplitAppend(a: string, b: string)
    requires '.' !in b
    ensures Split(a + "." + b) == Split(a) + [b]
    decreases |a|
  {
    var s := a + "." + b;
    if '.' !in a {
      assert s[|a|] == '.';
      assert IndexOf(s, '.') == |a|;
      assert s[..|a|] == a;
      assert s[|a| + 1..] == b;
      assert Split(b) == [b];
    } else {
      var i := IndexOf(a, '.');
      assert s[i] == '.';
      assert IndexOf(s, '.') == i;
      assert s[..i] == a[..i];
      assert s[i + 1..] == a[i + 1..] + "." + b;
      SplitAppend(a[i + 1..], b);
    }
  }

  /** A string without a dot splits into itself. */
  lemma SplitNoDot(s: string)
    requires '.' !in s
    ensures Split(s) == [s]
  {
  }

  // ---------------------------------------------------------------------
  // Numerals
  // ---------------------------------------------------------------------

  predicate IsDigit(c: char) {
    '0' <= c <= '9'
  }

  /**
   * `!isNaN(Number(k))`, approximated as "every character is a decimal
   * digit". The empty string is numeric, as `Number("")` is 0.
   */
  predicate NumericKey(k: string) {
    forall i :: 0 <= i < |k| ==> IsDigit(k[i])
  }

  /** A canonical array index: the decimal numeral of a natural number. */
  predicate IsIndexKey(k: string) {
    |k| >= 1 && NumericKey(k) && (k[0] == '0' ==> |k| == 1)
  }

  /** The number a string of decimal digits denotes. */
  function DigitsValue(k: string): nat
    requires NumericKey(k)
  {
    if k == [] then 0
    else DigitsValue(k[..|k| - 1]) * 10 + (k[|k| - 1] as int - '0' as int)
  }

  function DigitChar(d: nat): (c: char)
    requires d < 10
    ensures IsDigit(c) && c as int - '0' as int == d
  {
    ('0' as int + d) as char
  }

  /** `String(n)` for an array index, as in the template `${index}`. */
  function NatToString(n: nat): (s: string)
    ensures IsIndexKey(s)
  {
    if n < 10 then [DigitChar(n)]
    else
      var t := NatToString(n / 10);
      assert t[0] != '0';
      t + [DigitChar(n % 10)]
  }

  /** Reading back the numeral of an index gives the index. */
  lemma {:induction false} NatToStringValue(n: nat)
    ensures DigitsValue(NatToString(n)) == n
  {
    if n >= 10 {
      NatToStringValue(n / 10);
      var s := NatToString(n);
      assert s[..|s| - 1] == NatToString(n / 10);
    } else {
      assert [DigitChar(n)][..0] == [];
    }
  }

  lemma {:induction false} LeadingDigitPositive(k: string)
    requires NumericKey(k) && |k| >= 1 && k[0] != '0'
    ensures DigitsValue(k) >= 1
  {
    if |k| > 1 {
      LeadingDigitPositive(k[..|k| - 1]);
    } else {
      assert k[..0] == [];
    }
  }

  /** A canonical index key is the numeral of the number it denotes. */
  lemma {:induction false} IndexKeyCanonical(k: string)
    requires IsIndexKey(k)
    ensures NatToString(DigitsValue(k)) == k
  {
    var n := DigitsValue(k);
    if |k| == 1 {
      assert k[..0] == [];
    } else {
      var p := k[..|k| - 1];
      assert p[0] == k[0];
      LeadingDigitPositive(p);
      IndexKeyCanonical(p);
      assert n / 10 == DigitsValue(p);
      assert n % 10 == k[|k| - 1] as int - '0' as int;
      assert k == p + [k[|k| - 1]];
    }
  }

  /** Two index keys that denote the same index are the same string. */
  lemma IndexKeyInjective(a: string, b: string)
    requires IsIndexKey(a) && IsIndexKey(b)
    requires DigitsValue(a) == DigitsValue(b)
    ensures a == b
  {
    IndexKeyCanonical(a);
    IndexKeyCanonical(b);
  }
}
