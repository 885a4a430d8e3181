/**
 * The parts of Python's text semantics that the modelled programs rely on:
 * `str.split()`, `str.split(sep)`, ASCII `lower()`, `int()` on a token and
 * `"%d"` formatting of an integer, plus the byte/character views used when a
 * program moves between `bytes` and `str`.
 */
module PyText {
  import opened Common

  // ---------------------------------------------------------------------------
  // Character classes
  // ---------------------------------------------------------------------------

  /** `str.isspace()`: the characters `str.split()` and `str.strip()` treat as blanks. */
  predicate IsSpace(c: char)
  {
    ('\t' <= c <= '\r') || ('\U{1c}' <= c <= ' ') || c == '\U{85}' || c == '\U{a0}'
    || c == '\U{1680}' || ('\U{2000}' <= c <= '\U{200a}') || c == '\U{2028}' || c == '\U{2029}'
    || c == '\U{202f}' || c == '\U{205f}' || c == '\U{3000}'
  }

  /** The whitespace `int()` strips from a `bytes` argument (C's isspace on ASCII). */
  predicate IsAsciiSpace(c: char)
  {
    c == ' ' || ('\t' <= c <= '\r')
  }

  predicate IsDigit(c: char) { '0' <= c <= '9' }

  predicate AllDigits(s: string) { forall i :: 0 <= i < |s| ==> IsDigit(s[i]) }

  function DigitChar(d: nat): (c: char)
    requires d < 10
    ensures IsDigit(c) && c as int - '0' as int == d
  {
    ('0' as int + d) as char
  }

  function DigitOf(c: char): (d: nat)
    requires IsDigit(c)
    ensures d < 10 && DigitChar(d) == c
  {
    c as int - '0' as int
  }

  /** ASCII lower-casing of one character (`bytes.lower()`; `str.lower()` on ASCII letters). */
  function LowerChar(c: char): char
  {
    if 'A' <= c <= 'Z' then (c as int + 32) as char else c
  }

  function Lower(s: string): (r: string)
    ensures |r| == |s|
    ensures forall i :: 0 <= i < |s| ==> r[i] == LowerChar(s[i])
  {
    if s == [] then [] else [LowerChar(s[0])] + Lower(s[1..])
  }

  // ---------------------------------------------------------------------------
  // Bytes and characters
  // ---------------------------------------------------------------------------

  /** The characters a byte string stands for when it is compared with `str` text or given to `int()`. */
  function Latin1(b: seq<byte>): (s: string)
    ensures |s| == |b|
    ensures forall i :: 0 <= i < |b| ==> s[i] as int == b[i]
  {
    if b == [] then [] else [b[0] as char] + Latin1(b[1..])
  }

  predicate IsNarrow(s: string) { forall i :: 0 <= i < |s| ==> s[i] as int < 256 }

  /** The bytes of a text whose characters all fit in a byte (ASCII `encode()`). */
  function Narrow(s: string): (b: seq<byte>)
    requires IsNarrow(s)
    ensures |b| == |s|
    ensures forall i :: 0 <= i < |s| ==> b[i] == s[i] as int
  {
    if s == [] then [] else [s[0] as int] + Narrow(s[1..])
  }

  lemma Latin1Narrow(s: string)
    requires IsNarrow(s)
    ensures Latin1(Narrow(s)) == s
  {
  }

  // ---------------------------------------------------------------------------
  // "%d" formatting and int() parsing
  // ---------------------------------------------------------------------------

  /** The decimal text of a natural number, as `"%d" % n` or `str(n)` writes it. */
  function Decimal(n: nat): (s: string)
    ensures |s| >= 1 && AllDigits(s)
    decreases n
  {
    if n < 10 then [DigitChar(n)] else Decimal(n / 10) + [DigitChar(n % 10)]
  }

  /** `"%d" % i` for any integer. */
  function FormatInt(i: int): (s: string)
    ensures |s| >= 1
  {
    if i < 0 then ['-'] + Decimal(-i) else Decimal(i)
  }

  function Pow10(k: nat): (p: nat)
    ensures p >= 1
  {
    if k == 0 then 1 else 10 * Pow10(k - 1)
  }

  /** `Decimal(n)` has at most `k` digits exactly when `n < 10^k`. */
  lemma {:induction false} DecimalLength(n: nat, k: nat)
    requires k >= 1
    ensures |Decimal(n)| <= k <==> n < Pow10(k)
    decreases k
  {
    if k == 1 {
      if n >= 10 { assert |Decimal(n)| == |Decimal(n / 10)| + 1; }
    } else if n >= 10 {
      assert |Decimal(n)| == |Decimal(n / 10)| + 1;
      DecimalLength(n / 10, k - 1);
    }
  }

  /**
   * The digit part `int()` accepts: decimal digits, where single underscores
   * may stand between two digits; its value, or None for anything else.
   * Read from the right, so that the last digit is the least significant.
   */
  function Digits(s: string): Option<nat>
    decreases |s|
  {
    if s == [] || !IsDigit(s[|s| - 1]) then None
    else
      var d := DigitOf(s[|s| - 1]);
      var p := s[..|s| - 1];
      if p == [] then Some(d)
      else if p[|p| - 1] == '_' then
        (if |p| >= 2 then (match Digits(p[..|p| - 1]) case Some(v) => Some(10 * v + d) case None => None)
         else None)
      else (match Digits(p) case Some(v) => Some(10 * v + d) case None => None)
  }

  /**
   * Python's `int(text)`: surrounding blanks (as `space` defines them) are
   * stripped, one optional sign is read, and the rest must be underscore
   * grouped digits; anything else raises `ValueError` (here `None`).
   */
  function ParseInt(text: string, space: char -> bool): (r: Option<int>)
  {
    var t := Strip(text, space);
    match Digits(Unsigned(t))
    case None => None
    case Some(v) => Some(Signed(t, v))
  }

  /** `str.lstrip()` under the given blank convention. */
  function StripLeft(s: string, space: char -> bool): (r: string)
    ensures |r| <= |s|
    ensures r == [] || !space(r[0])
    decreases |s|
  {
    if s != [] && space(s[0]) then StripLeft(s[1..], space) else s
  }

  /** `str.rstrip()` under the given blank convention. */
  function StripRight(s: string, space: char -> bool): (r: string)
    ensures |r| <= |s|
    ensures r == [] || !space(r[|r| - 1])
    decreases |s|
  {
    if s != [] && space(s[|s| - 1]) then StripRight(s[..|s| - 1], space) else s
  }

  /** `str.strip()` under the given blank convention. */
  function Strip(text: string, space: char -> bool): string
  {
    StripRight(StripLeft(text, space), space)
  }

  /** The text after one optional leading sign. */
  function Unsigned(t: string): string
  {
    if |t| >= 1 && (t[0] == '-' || t[0] == '+') then t[1..] else t
  }

  /** The magnitude `v` with the sign `t` starts with. */
  function Signed(t: string, v: nat): int
  {
    if |t| >= 1 && t[0] == '-' then -(v as int) else v
  }

  /** `int()` on a `str` token whose digits are ASCII. */
  function Int(text: string): Option<int> { ParseInt(text, IsSpace) }

  /** A blank convention under which no digit and no minus sign is a blank. */
  predicate KeepsNumerals(space: char -> bool)
  {
    forall c :: IsDigit(c) || c == '-' ==> !space(c)
  }

  lemma BothConventionsKeepNumerals()
    ensures KeepsNumerals(IsSpace) && KeepsNumerals(IsAsciiSpace)
  {
  }

  /** The digits `"%d"` writes are read back as the number. */
  lemma {:induction false} DigitsOfDecimal(n: nat)
    ensures Digits(Decimal(n)) == Some(n)
    decreases n
  {
    var s := Decimal(n);
    if n >= 10 {
      var p := Decimal(n / 10);
      assert s == p + [DigitChar(n % 10)];
      assert s[..|s| - 1] == p;
      DigitsOfDecimal(n / 10);
      assert IsDigit(p[|p| - 1]);
      assert DigitOf(s[|s| - 1]) == n % 10;
    }
  }

  lemma StripNothing(s: string, space: char -> bool)
    requires |s| >= 1 && !space(s[0]) && !space(s[|s| - 1])
    ensures Strip(s, space) == s
  {
  }

  /** `int()` reads back exactly the number `"%d"` wrote. */
  lemma FormatIntRoundTrip(i: int, space: char -> bool)
    requires KeepsNumerals(space)
    ensures ParseInt(FormatInt(i), space) == Some(i)
  {
    var n: nat := if i < 0 then -i else i;
    var d := Decimal(n);
    var s := FormatInt(i);
    DigitsOfDecimal(n);
    assert IsDigit(d[0]) && IsDigit(d[|d| - 1]);
    if i < 0 {
      assert s == ['-'] + d && s[|s| - 1] == d[|d| - 1];
      StripNothing(s, space);
      assert Unsigned(s) == d;
    } else {
      StripNothing(s, space);
      assert Unsigned(s) == d;
    }
  }

  // ---------------------------------------------------------------------------
  // str.split() and str.split(sep)
  // ---------------------------------------------------------------------------

  /** A token as `str.split()` produces it: non-empty and blank-free. */
  predicate IsToken(t: string) { |t| >= 1 && forall i :: 0 <= i < |t| ==> !IsSpace(t[i]) }

  /** The number of leading characters that are not blanks. */
  function WordLength(s: string): (n: nat)
    ensures n <= |s|
    ensures forall i :: 0 <= i < n ==> !IsSpace(s[i])
    ensures n == |s| || IsSpace(s[n])
  {
    if s == [] || IsSpace(s[0]) then 0 else 1 + WordLength(s[1..])
  }

  /** `s.split()`: the maximal runs of non-blank characters, in order. */
  function Split(s: string): (r: seq<string>)
    ensures forall k :: 0 <= k < |r| ==> IsToken(r[k])
    decreases |s|
  {
    var t := StripLeft(s, IsSpace);
    if t == [] then [] else
      var n := WordLength(t);
      [t[..n]] + Split(t[n..])
  }

  /** Tokens joined by single spaces. */
  function JoinWords(ts: seq<string>): string
  {
    if ts == [] then [] else if |ts| == 1 then ts[0] else ts[0] + " " + JoinWords(ts[1..])
  }

  lemma StripLeftWord(s: string)
    requires s == [] || !IsSpace(s[0])
    ensures StripLeft(s, IsSpace) == s
  {
  }

  lemma WordLengthOf(t: string, rest: string)
    requires IsToken(t)
    requires rest == [] || IsSpace(rest[0])
    ensures WordLength(t + rest) == |t|
    decreases |t|
  {
    assert (t + rest)[1..] == t[1..] + rest;
    if |t| > 1 { WordLengthOf(t[1..], rest); }
    var s := t + rest;
  }

  /** `str.split()` undoes joining tokens with single spaces. */
  lemma {:induction false} SplitJoinWords(ts: seq<string>)
    requires forall k :: 0 <= k < |ts| ==> IsToken(ts[k])
    ensures Split(JoinWords(ts)) == ts
  {
    if ts == [] {
    } else if |ts| == 1 {
      var s := ts[0];
      StripLeftWord(s);
      WordLengthOf(s, []);
      assert s + [] == s;
      assert s[|s|..] == [];
    } else {
      var s := JoinWords(ts);
      var rest := " " + JoinWords(ts[1..]);
      assert s == ts[0] + rest;
      StripLeftWord(s);
      WordLengthOf(ts[0], rest);
      assert s[..|ts[0]|] == ts[0];
      assert s[|ts[0]|..] == rest;
      assert StripLeft(rest, IsSpace) == StripLeft(JoinWords(ts[1..]), IsSpace);
      SplitJoinWords(ts[1..]);
      assert Split(rest) == Split(JoinWords(ts[1..])) by {
        SplitDropsLeadingBlank(JoinWords(ts[1..]));
      }
    }
  }

  lemma SplitDropsLeadingBlank(s: string)
    ensures Split(" " + s) == Split(s)
  {
    assert (" " + s)[1..] == s;
  }

  function IndexOf(s: string, c: char): (i: nat)
    ensures i <= |s|
    ensures forall j :: 0 <= j < i ==> s[j] != c
    ensures i == |s| || s[i] == c
  {
    if s == [] || s[0] == c then 0 else 1 + IndexOf(s[1..], c)
  }

  /** `s.split(sep)` for a one-character separator: always at least one part. */
  function SplitOn(s: string, sep: char): (r: seq<string>)
    ensures |r| >= 1
    ensures forall k :: 0 <= k < |r| ==> sep !in r[k]
    ensures r[0] <= s && (|r[0]| == |s| || s[|r[0]|] == sep)
    decreases |s|
  {
    var i := IndexOf(s, sep);
    if i == |s| then [s] else [s[..i]] + SplitOn(s[i + 1..], sep)
  }

  /** `sep.join(parts)`. */
  function JoinOn(parts: seq<string>, sep: char): string
  {
    if parts == [] then [] else if |parts| == 1 then parts[0] else parts[0] + [sep] + JoinOn(parts[1..], sep)
  }

  /** Joining the parts of a split with the same separator gives the text back. */
  lemma {:induction false} JoinSplitOn(s: string, sep: char)
    ensures JoinOn(SplitOn(s, sep), sep) == s
    decreases |s|
  {
    var i := IndexOf(s, sep);
    if i < |s| {
      var tail := SplitOn(s[i + 1..], sep);
      JoinSplitOn(s[i + 1..], sep);
      var parts := [s[..i]] + tail;
      assert SplitOn(s, sep) == parts;
      assert parts[0] == s[..i] && parts[1..] == tail;
      assert JoinOn(parts, sep) == s[..i] + [sep] + JoinOn(tail, sep);
      assert s == s[..i] + [sep] + s[i + 1..];
    }
  }

  /** Splitting a join gives the parts back when no part holds the separator. */
  lemma {:induction false} SplitOnJoin(parts: seq<string>, sep: char)
    requires |parts| >= 1 && forall k :: 0 <= k < |parts| ==> sep !in parts[k]
    ensures SplitOn(JoinOn(parts, sep), sep) == parts
    decreases |parts|
  {
    var p := parts[0];
    if |parts| == 1 {
      assert IndexOf(p, sep) == |p|;
    } else {
      var rest := JoinOn(parts[1..], sep);
      var s := p + [sep] + rest;
      assert s == JoinOn(parts, sep);
      assert s[|p|] == sep;
      assert forall j :: 0 <= j < |p| ==> s[j] == p[j];
      assert IndexOf(s, sep) == |p|;
      assert s[..|p|] == p && s[|p| + 1..] == rest;
      SplitOnJoin(parts[1..], sep);
    }
  }
}
