/**
 * The JavaScript string operations the handlers rely on, stated on `seq<char>`:
 * `String.prototype.trim`, `toLowerCase` (ASCII letters only), `includes`,
 * `split` on one character and `Number.parseInt(s, 10)`, plus the truthiness
 * test `!s` on an optional string.
 */
module JsString {
  import opened Wrappers

  /** ECMAScript WhiteSpace and LineTerminator code points: the set `trim` removes. */
  predicate IsWhitespace(c: char) {
    c == '\t' || c == '\n' || c == '\U{000B}' || c == '\U{000C}' || c == '\r' || c == ' '
    || c == '\U{00A0}' || c == '\U{1680}' || ('\U{2000}' <= c <= '\U{200A}')
    || c == '\U{2028}' || c == '\U{2029}' || c == '\U{202F}' || c == '\U{205F}'
    || c == '\U{3000}' || c == '\U{FEFF}'
  }

  predicate AllWhitespace(s: string) {
    forall i :: 0 <= i < |s| ==> IsWhitespace(s[i])
  }

  /** Neither end of `s` is whitespace: what `trim` leaves. */
  predicate IsTrimmed(s: string) {
    s == [] || (!IsWhitespace(s[0]) && !IsWhitespace(s[|s| - 1]))
  }

  /** JavaScript truthiness of an optional string: defined and not "". */
  predicate IsTruthy(s: Option<string>) {
    s.Some? && s.value != ""
  }

  /** The number of whitespace characters `s` starts with. */
  function LeadingWhitespace(s: string): (k: nat)
    ensures k <= |s|
    ensures forall i :: 0 <= i < k ==> IsWhitespace(s[i])
    ensures k < |s| ==> !IsWhitespace(s[k])
    decreases |s|
  {
    if |s| > 0 && IsWhitespace(s[0]) then 1 + LeadingWhitespace(s[1..]) else 0
  }

  /** The number of whitespace characters `s` ends with. */
  function TrailingWhitespace(s: string): (k: nat)
    ensures k <= |s|
    ensures forall i :: |s| - k <= i < |s| ==> IsWhitespace(s[i])
    ensures k < |s| ==> !IsWhitespace(s[|s| - 1 - k])
    decreases |s|
  {
    if |s| > 0 && IsWhitespace(s[|s| - 1]) then 1 + TrailingWhitespace(s[..|s| - 1]) else 0
  }

  /** Leading whitespace removed: a suffix of `s` preceded only by whitespace. */
  function TrimStart(s: string): (r: string)
    ensures |r| <= |s| && r == s[|s| - |r|..]
    ensures AllWhitespace(s[..|s| - |r|])
    ensures r == [] || !IsWhitespace(r[0])
  {
    s[LeadingWhitespace(s)..]
  }

  /** Trailing whitespace removed: a prefix of `s` followed only by whitespace. */
  function TrimEnd(s: string): (r: string)
    ensures |r| <= |s| && r == s[..|r|]
    ensures AllWhitespace(s[|r|..])
    ensures r == [] || !IsWhitespace(r[|r| - 1])
  {
    s[..|s| - TrailingWhitespace(s)]
  }

  /** `s.trim()` */
  function Trim(s: string): (r: string)
    ensures IsTrimmed(r)
    ensures |r| <= |s|
  {
    TrimEnd(TrimStart(s))
  }

  /** `trim` removes exactly a whitespace prefix and a whitespace suffix. */
  lemma TrimIsInfix(s: string)
    ensures exists i, j :: 0 <= i <= j <= |s| && Trim(s) == s[i..j]
                           && AllWhitespace(s[..i]) && AllWhitespace(s[j..])
  {
    var t := TrimStart(s);
    var i := |s| - |t|;
    var j := i + |TrimEnd(t)|;
    assert Trim(s) == s[i..j];
    assert s[j..] == t[|TrimEnd(t)|..];
  }

  /** A string is trimmed to "" exactly when it is all whitespace. */
  lemma TrimEmptyIff(s: string)
    ensures Trim(s) == [] <==> AllWhitespace(s)
  {
    var t := TrimStart(s);
    TrimIsInfix(s);
    if Trim(s) == [] {
      assert AllWhitespace(t);
      assert s == s[..|s| - |t|] + t;
    }
  }

  /** A string with no whitespace at either end is its own trim. */
  lemma TrimFixesTrimmed(s: string)
    requires IsTrimmed(s)
    ensures Trim(s) == s
  {
  }

  /** Trimming twice is trimming once. */
  lemma TrimIdempotent(s: string)
    ensures Trim(Trim(s)) == Trim(s)
  {
    TrimFixesTrimmed(Trim(s));
  }

  /** `s?.trim()` */
  function TrimOptional(s: Option<string>): (r: Option<string>)
    ensures r.Some? <==> s.Some?
    ensures r.Some? ==> r.value == Trim(s.value)
    ensures IsTruthy(r) <==> s.Some? && !AllWhitespace(s.value)
  {
    match s
    case None => None
    case Some(v) => TrimEmptyIff(v); Some(Trim(v))
  }

  /** `s?.trim()` leaves an already trimmed optional string as it is. */
  lemma TrimOptionalFixesTrimmed(s: Option<string>)
    requires s.Some? ==> IsTrimmed(s.value)
    ensures TrimOptional(s) == s
  {
    if s.Some? {
      TrimFixesTrimmed(s.value);
    }
  }

  /** A code point outside the Basic Multilingual Plane: UTF-16 stores it as a surrogate pair. */
  predicate IsAstral(c: char) {
    c as int > 0xFFFF
  }

  /** The UTF-16 code units one code point occupies. */
  function CodeUnits(c: char): (n: nat)
    ensures n == 1 || n == 2
    ensures n == 2 <==> IsAstral(c)
  {
    if IsAstral(c) then 2 else 1
  }

  /** `s.length`: JavaScript counts UTF-16 code units, so an astral character counts twice. */
  function JsLength(s: string): (n: nat)
    ensures |s| <= n <= 2 * |s|
    decreases |s|
  {
    if s == [] then 0 else CodeUnits(s[0]) + JsLength(s[1..])
  }

  /** `s.length` is the number of characters exactly when none of them is astral. */
  lemma {:induction false} JsLengthIsLengthIff(s: string)
    ensures JsLength(s) == |s| <==> forall i :: 0 <= i < |s| ==> !IsAstral(s[i])
    decreases |s|
  {
    if s != [] {
      JsLengthIsLengthIff(s[1..]);
      assert forall i :: 1 <= i < |s| ==> s[i] == s[1..][i - 1];
    }
  }

  predicate IsAsciiUpper(c: char) { 'A' <= c <= 'Z' }
  predicate IsAsciiLower(c: char) { 'a' <= c <= 'z' }

  function LowerChar(c: char): (r: char)
    ensures !IsAsciiUpper(r)
    ensures IsAsciiUpper(c) || r == c
  {
    if IsAsciiUpper(c) then (c as int - 'A' as int + 'a' as int) as char else c
  }

  /** `s.toLowerCase()` restricted to ASCII letters. */
  function ToLowerCase(s: string): (r: string)
    ensures |r| == |s|
    ensures forall i :: 0 <= i < |r| ==> r[i] == LowerChar(s[i])
  {
    seq(|s|, i requires 0 <= i < |s| => LowerChar(s[i]))
  }

  predicate IsLowerCase(s: string) {
    forall i :: 0 <= i < |s| ==> !IsAsciiUpper(s[i])
  }

  lemma ToLowerCaseIsLower(s: string)
    ensures IsLowerCase(ToLowerCase(s))
  {
  }

  lemma ToLowerCaseIdempotent(s: string)
    ensures ToLowerCase(ToLowerCase(s)) == ToLowerCase(s)
  {
  }

  /** Lower-casing neither adds nor removes a character that is not a letter, such as '@' or '.'. */
  lemma ToLowerCaseKeepsNonLetters(s: string, c: char)
    requires !IsAsciiUpper(c) && !IsAsciiLower(c)
    ensures c in ToLowerCase(s) <==> c in s
  {
    var r := ToLowerCase(s);
    if c in s {
      var i :| 0 <= i < |s| && s[i] == c;
      assert r[i] == c;
    }
    if c in r {
      var i :| 0 <= i < |r| && r[i] == c;
      assert s[i] == c;
    }
  }

  /** `s.split(sep)` for a one-character separator. */
  function Split(s: string, sep: char): (parts: seq<string>)
    ensures |parts| >= 1
    ensures forall k :: 0 <= k < |parts| ==> sep !in parts[k]
    decreases |s|
  {
    if s == [] then [[]]
    else if s[0] == sep then [[]] + Split(s[1..], sep)
    else
      var rest := Split(s[1..], sep);
      [[s[0]] + rest[0]] + rest[1..]
  }

  /** `parts.join(sep)`: the inverse of `Split`. */
  function Join(parts: seq<string>, sep: char): string
    requires |parts| >= 1
  {
    if |parts| == 1 then parts[0] else parts[0] + [sep] + Join(parts[1..], sep)
  }

  lemma {:induction false} SplitJoin(s: string, sep: char)
    ensures Join(Split(s, sep), sep) == s
    decreases |s|
  {
    if s != [] {
      SplitJoin(s[1..], sep);
      if s[0] != sep {
        var rest := Split(s[1..], sep);
        if |rest| > 1 {
          assert rest == [rest[0]] + rest[1..];
          assert Join(rest, sep) == rest[0] + [sep] + Join(rest[1..], sep);
        }
      }
    }
  }

  /** Splitting a first part that holds no separator, followed by the separator. */
  lemma {:induction false} SplitAfterPart(a: string, sep: char, b: string)
    requires sep !in a
    ensures Split(a + [sep] + b, sep) == [a] + Split(b, sep)
    decreases |a|
  {
    var s := a + [sep] + b;
    if a == [] {
      assert s[1..] == b;
    } else {
      assert s[1..] == a[1..] + [sep] + b;
      SplitAfterPart(a[1..], sep, b);
      assert [a[0]] + a[1..] == a;
    }
  }

  lemma {:induction false} SplitWithoutSeparator(s: string, sep: char)
    requires sep !in s
    ensures Split(s, sep) == [s]
    decreases |s|
  {
    if s != [] {
      SplitWithoutSeparator(s[1..], sep);
      assert [s[0]] + s[1..] == s;
    }
  }

  /** `s.split(sep)` has exactly the two parts `p` and `q` iff `s == p + sep + q` with no other separator. */
  lemma SplitInTwo(s: string, sep: char, p: string, q: string)
    ensures Split(s, sep) == [p, q] <==> (s == p + [sep] + q && sep !in p && sep !in q)
  {
    if Split(s, sep) == [p, q] {
      SplitJoin(s, sep);
      assert Join([p, q], sep) == p + [sep] + Join([q], sep);
    }
    if s == p + [sep] + q && sep !in p && sep !in q {
      SplitAfterPart(p, sep, q);
      SplitWithoutSeparator(q, sep);
    }
  }

  predicate IsDigit(c: char) { '0' <= c <= '9' }

  function DigitValue(c: char): nat
    requires IsDigit(c)
  {
    c as int - '0' as int
  }

  function DigitChar(d: nat): (c: char)
    requires d < 10
    ensures IsDigit(c) && DigitValue(c) == d
  {
    ('0' as int + d) as char
  }

  /** The longest prefix of `s` made of decimal digits. */
  function DigitPrefix(s: string): (r: string)
    ensures |r| <= |s| && r == s[..|r|]
    ensures forall i :: 0 <= i < |r| ==> IsDigit(r[i])
    ensures |r| < |s| ==> !IsDigit(s[|r|])
    decreases |s|
  {
    if |s| > 0 && IsDigit(s[0]) then [s[0]] + DigitPrefix(s[1..]) else []
  }

  /** The value of a string of decimal digits, most significant first. */
  function DigitsValue(ds: string): nat
    requires forall i :: 0 <= i < |ds| ==> IsDigit(ds[i])
    decreases |ds|
  {
    if ds == [] then 0 else DigitsValue(ds[..|ds| - 1]) * 10 + DigitValue(ds[|ds| - 1])
  }

  /** An optional sign followed by at least one digit. */
  predicate StartsWithNumeral(t: string) {
    || (|t| > 0 && IsDigit(t[0]))
    || (|t| > 1 && (t[0] == '+' || t[0] == '-') && IsDigit(t[1]))
  }

  /**
   * `Number.parseInt(s, 10)`: skip leading whitespace, take an optional sign,
   * then the longest run of digits; None stands for NaN (no digit at all).
   */
  function ParseInt(s: string): (r: Option<int>)
    ensures r.Some? <==> StartsWithNumeral(TrimStart(s))
    ensures r.Some? && r.value > 0 ==> TrimStart(s)[0] != '-'
  {
    var t := TrimStart(s);
    if |t| > 0 && (t[0] == '+' || t[0] == '-') then
      var digits := DigitPrefix(t[1..]);
      if digits == [] then None
      else if t[0] == '-' then Some(-(DigitsValue(digits) as int))
      else Some(DigitsValue(digits))
    else
      var digits := DigitPrefix(t);
      if digits == [] then None else Some(DigitsValue(digits))
  }

  /** The decimal numeral of `n`, without sign or leading zeros. */
  function DecimalString(n: nat): (s: string)
    ensures |s| >= 1 && forall i :: 0 <= i < |s| ==> IsDigit(s[i])
  {
    if n < 10 then [DigitChar(n)] else DecimalString(n / 10) + [DigitChar(n % 10)]
  }

  lemma {:induction false} DecimalStringValue(n: nat)
    ensures DigitsValue(DecimalString(n)) == n
  {
    if n >= 10 {
      var s := DecimalString(n);
      assert s[..|s| - 1] == DecimalString(n / 10);
      DecimalStringValue(n / 10);
    }
  }

  lemma {:induction false} DigitPrefixOfDigits(s: string)
    requires forall i :: 0 <= i < |s| ==> IsDigit(s[i])
    ensures DigitPrefix(s) == s
    decreases |s|
  {
    if s != [] {
      DigitPrefixOfDigits(s[1..]);
    }
  }

  /** Round trip: `parseInt` reads back the decimal numeral of any natural number. */
  lemma ParseIntDecimal(n: nat)
    ensures ParseInt(DecimalString(n)) == Some(n)
  {
    var s := DecimalString(n);
    assert !IsWhitespace(s[0]);
    assert TrimStart(s) == s;
    assert s[0] != '+' && s[0] != '-';
    DigitPrefixOfDigits(s);
    assert DigitPrefix(s) == s;
    DecimalStringValue(n);
  }
}
