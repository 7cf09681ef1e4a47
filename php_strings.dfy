/**
 * The PHP string primitives the URL validator relies on, written out concretely:
 * `trim` with PHP's default character list, `strtolower` (ASCII only, as in PHP 8.2 and later),
 * the `[a-zA-Z0-9]` character class and the decimal rendering of an integer.
 */
module PhpStrings {

  /** PHP's default `trim` list: space, tab, newline, carriage return, NUL and vertical tab. */
  predicate IsTrimmable(c: char)
  {
    c == ' ' || c == '\t' || c == '\n' || c == '\r' || c == '\0' || c == '\U{0B}'
  }

  /** No trimmable character at either end. */
  predicate IsTrimmed(s: string)
  {
    s == [] || (!IsTrimmable(s[0]) && !IsTrimmable(s[|s| - 1]))
  }

  /** `ltrim`: drops the longest prefix of trimmable characters. */
  function TrimLeft(s: string): (r: string)
    ensures |r| <= |s| && r == s[|s| - |r|..]
    ensures forall i :: 0 <= i < |s| - |r| ==> IsTrimmable(s[i])
    ensures r == [] || !IsTrimmable(r[0])
    decreases |s|
  {
    if |s| > 0 && IsTrimmable(s[0]) then TrimLeft(s[1..]) else s
  }

  /** `rtrim`: drops the longest suffix of trimmable characters. */
  function TrimRight(s: string): (r: string)
    ensures |r| <= |s| && r == s[..|r|]
    ensures forall i :: |r| <= i < |s| ==> IsTrimmable(s[i])
    ensures r == [] || !IsTrimmable(r[|r| - 1])
    decreases |s|
  {
    if |s| > 0 && IsTrimmable(s[|s| - 1]) then TrimRight(s[..|s| - 1]) else s
  }

  /** `trim`: strips PHP's default whitespace from both ends. */
  function Trim(s: string): (r: string)
    ensures IsTrimmed(r)
    ensures |r| <= |s|
  {
    var l := TrimLeft(s);
    var r := TrimRight(l);
    assert r != [] ==> r[0] == l[0];
    r
  }

  /** A string without whitespace at its ends is left alone by `trim`. */
  lemma TrimOfTrimmed(s: string)
    requires IsTrimmed(s)
    ensures Trim(s) == s
  {
  }

  /** Trimming twice is trimming once. */
  lemma TrimIdempotent(s: string)
    ensures Trim(Trim(s)) == Trim(s)
  {
    TrimOfTrimmed(Trim(s));
  }

  /** How many characters `trim` strips from the front of `s`. */
  function TrimStart(s: string): nat
  {
    |s| - |TrimLeft(s)|
  }

  /** A prefix of a suffix is an infix, and the rest of the suffix lines up with the original. */
  lemma PrefixOfSuffix(s: string, i: nat, l: string, t: string)
    requires i <= |s| && l == s[i..] && |t| <= |l| && t == l[..|t|]
    ensures i + |t| <= |s| && t == s[i..i + |t|]
    ensures forall j :: i <= j < |s| ==> s[j] == l[j - i]
  {
  }

  /**
   * `trim(s)` is the contiguous piece of `s` starting at `TrimStart(s)`, and everything
   * outside that piece is whitespace: the characterisation of what `trim` removes.
   */
  lemma TrimIsInfix(s: string)
    ensures TrimStart(s) + |Trim(s)| <= |s|
    ensures Trim(s) == s[TrimStart(s)..TrimStart(s) + |Trim(s)|]
    ensures forall j :: 0 <= j < TrimStart(s) ==> IsTrimmable(s[j])
    ensures forall j :: TrimStart(s) + |Trim(s)| <= j < |s| ==> IsTrimmable(s[j])
  {
    var l := TrimLeft(s);
    var i := TrimStart(s);
    var t := TrimRight(l);
    assert Trim(s) == t;
    PrefixOfSuffix(s, i, l, t);
    forall j | i + |t| <= j < |s| ensures IsTrimmable(s[j]) {
      assert IsTrimmable(l[j - i]);
    }
  }

  /** ASCII upper-case letter. */
  predicate IsUpper(c: char)
  {
    'A' <= c <= 'Z'
  }

  /** `strtolower` on one character: only A-Z change. */
  function LowerChar(c: char): (r: char)
    ensures !IsUpper(r)
    ensures !IsUpper(c) ==> r == c
  {
    if IsUpper(c) then (c as int + 32) as char else c
  }

  /** `strtolower`: ASCII lower-casing, every other character unchanged (see `LowerAt`). */
  function Lower(s: string): (r: string)
    ensures |r| == |s|
  {
    if s == [] then [] else Lower(s[..|s| - 1]) + [LowerChar(s[|s| - 1])]
  }

  /** Each character of `strtolower(s)` is the lower-cased character of `s` at the same place. */
  lemma {:induction false} LowerAt(s: string, i: nat)
    requires i < |s|
    ensures Lower(s)[i] == LowerChar(s[i])
  {
    if i < |s| - 1 {
      LowerAt(s[..|s| - 1], i);
    }
  }

  /** Lower-casing a lower-cased string changes nothing. */
  lemma LowerIdempotent(s: string)
    ensures Lower(Lower(s)) == Lower(s)
  {
    var l := Lower(s);
    forall i | 0 <= i < |s| ensures Lower(l)[i] == l[i] {
      LowerAt(s, i);
      LowerAt(l, i);
    }
  }

  /** The result of `strtolower` contains no ASCII upper-case letter. */
  lemma LowerHasNoUpper(s: string)
    ensures forall i :: 0 <= i < |Lower(s)| ==> !IsUpper(Lower(s)[i])
  {
    forall i | 0 <= i < |Lower(s)| ensures !IsUpper(Lower(s)[i]) {
      LowerAt(s, i);
    }
  }

  /** The regular-expression class `[a-zA-Z0-9]`. */
  predicate IsAsciiAlnum(c: char)
  {
    ('a' <= c <= 'z') || ('A' <= c <= 'Z') || ('0' <= c <= '9')
  }

  /** PHP's rendering of a non-negative integer as a decimal string. */
  function DecimalString(n: nat): (r: string)
    ensures |r| >= 1
    ensures forall i :: 0 <= i < |r| ==> '0' <= r[i] <= '9'
  {
    var d := ['0' + (n % 10) as char];
    if n < 10 then d else DecimalString(n / 10) + d
  }

  /** The number a string of decimal digits denotes, most significant digit first. */
  function DigitsValue(s: string): (v: nat)
    requires forall i :: 0 <= i < |s| ==> '0' <= s[i] <= '9'
  {
    if s == [] then 0
    else DigitsValue(s[..|s| - 1]) * 10 + (s[|s| - 1] as int - '0' as int)
  }

  /** `DecimalString` is exact: its digits denote `n`, and it has no leading zero. */
  lemma {:induction false} DecimalStringValue(n: nat)
    ensures DigitsValue(DecimalString(n)) == n
    ensures DecimalString(n)[0] == '0' ==> n == 0
  {
    var r := DecimalString(n);
    if n >= 10 {
      DecimalStringValue(n / 10);
      assert r[..|r| - 1] == DecimalString(n / 10);
    }
  }
}
