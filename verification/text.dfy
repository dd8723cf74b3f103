/** String helpers with the semantics of the JavaScript and PHP built-ins the
    source relies on: `split`, `substr`, `strtolower` and `intval`. */
module Text {

  /** Position of the first `c` in `s`, or `|s|` when `s` has none. */
  function IndexOf(s: string, c: char): (i: nat)
    ensures i <= |s|
    ensures i < |s| ==> s[i] == c
    ensures forall k :: 0 <= k < i ==> s[k] != c
  {
    if |s| == 0 then 0 else if s[0] == c then 0 else 1 + IndexOf(s[1..], c)
  }

  /** JavaScript's `s.split(sep)` for a one-character separator: the pieces
      between separators, so there is always at least one piece. */
  function Split(s: string, sep: char): (parts: seq<string>)
    ensures |parts| >= 1
    ensures forall k :: 0 <= k < |parts| ==> sep !in parts[k]
    decreases |s|
  {
    var i := IndexOf(s, sep);
    if i == |s| then [s] else [s[..i]] + Split(s[i + 1..], sep)
  }

  /** JavaScript's `parts.join(sep)`. */
  function Join(parts: seq<string>, sep: char): string
  {
    if |parts| == 0 then ""
    else if |parts| == 1 then parts[0]
    else parts[0] + [sep] + Join(parts[1..], sep)
  }

  /** Splitting loses nothing: joining the pieces gives the string back. */
  lemma {:induction false} JoinSplit(s: string, sep: char)
    ensures Join(Split(s, sep), sep) == s
    decreases |s|
  {
    var i := IndexOf(s, sep);
    if i < |s| {
      JoinSplit(s[i + 1..], sep);
      var rest := Split(s[i + 1..], sep);
      assert Split(s, sep) == [s[..i]] + rest;
      assert ([s[..i]] + rest)[1..] == rest;
      assert s == s[..i] + [sep] + s[i + 1..];
    }
  }

  /** Conversely, pieces free of the separator are recovered by splitting
      their join. */
  lemma {:induction false} SplitJoin(parts: seq<string>, sep: char)
    requires |parts| >= 1
    requires forall k :: 0 <= k < |parts| ==> sep !in parts[k]
    ensures Split(Join(parts, sep), sep) == parts
    decreases |parts|
  {
    var a := parts[0];
    assert forall k :: 0 <= k < |a| ==> a[k] != sep;
    if |parts| == 1 {
      assert IndexOf(a, sep) == |a|;
    } else {
      var b := Join(parts[1..], sep);
      var s := a + [sep] + b;
      assert Join(parts, sep) == s;
      var i := IndexOf(s, sep);
      assert s[|a|] == sep;
      assert forall k :: 0 <= k < |a| ==> s[k] != sep;
      assert i == |a|;
      assert s[..i] == a;
      assert s[i + 1..] == b;
      SplitJoin(parts[1..], sep);
      assert parts == [a] + parts[1..];
    }
  }

  /** `strtolower` on one character (ASCII letters only). */
  function LowerChar(c: char): char
  {
    if 'A' <= c <= 'Z' then (c as int + 32) as char else c
  }

  /** `strtolower`: ASCII upper-case letters become lower-case. */
  function ToLowerAscii(s: string): (r: string)
    ensures |r| == |s|
    ensures forall k :: 0 <= k < |s| ==> !('A' <= r[k] <= 'Z')
  {
    seq(|s|, k requires 0 <= k < |s| => LowerChar(s[k]))
  }

  /** The number of bytes UTF-8 spends on one character. */
  function Utf8Width(c: char): (w: nat)
    ensures 1 <= w <= 4
    ensures w == 1 <==> c as int < 0x80
  {
    if c as int < 0x80 then 1
    else if c as int < 0x800 then 2
    else if c as int < 0x1_0000 then 3
    else 4
  }

  /** `strlen` of a string held in UTF-8: its length in bytes. */
  function Utf8Length(s: string): (n: nat)
    ensures |s| <= n <= 4 * |s|
  {
    if |s| == 0 then 0 else Utf8Width(s[0]) + Utf8Length(s[1..])
  }

  /** Byte and character counts agree exactly on ASCII text. */
  lemma {:induction false} Utf8LengthAscii(s: string)
    ensures Utf8Length(s) == |s| <==> forall k :: 0 <= k < |s| ==> s[k] as int < 0x80
  {
    if |s| > 0 {
      Utf8LengthAscii(s[1..]);
      assert forall k :: 1 <= k < |s| ==> s[k] == s[1..][k - 1];
    }
  }

  /** A run of one character costs its width once per copy. */
  lemma {:induction false} Utf8LengthRun(c: char, n: nat)
    ensures Utf8Length(seq(n, _ => c)) == n * Utf8Width(c)
  {
    if n > 0 {
      Utf8LengthRun(c, n - 1);
      assert seq(n, _ => c)[1..] == seq(n - 1, _ => c);
    }
  }

  /** PHP's `substr($s, 0, $n)` for `$n >= 0`: the first `n` characters, or
      all of `s` when it is shorter. */
  function Head(s: string, n: nat): (r: string)
    ensures |r| == if n <= |s| then n else |s|
    ensures r <= s
  {
    if n <= |s| then s[..n] else s
  }

  /** `substr($s, 0, strlen($p)) === $p` holds exactly when `p` is a prefix
      of `s`. */
  lemma HeadMatchesIffPrefix(s: string, p: string)
    ensures Head(s, |p|) == p <==> p <= s
  {
  }

  predicate IsDigit(c: char) { '0' <= c <= '9' }

  /** The white space PHP skips before a numeric string. */
  predicate IsSpace(c: char)
  {
    c == ' ' || c == '\t' || c == '\n' || c == '\r' || c as int == 11 || c as int == 12
  }

  function SkipSpace(s: string): (r: string)
    ensures |r| <= |s| && r == s[|s| - |r|..]
    ensures |r| > 0 ==> !IsSpace(r[0])
  {
    if |s| > 0 && IsSpace(s[0]) then SkipSpace(s[1..]) else s
  }

  /** The longest prefix of `s` made of decimal digits. */
  function DigitRun(s: string): (r: string)
    ensures r <= s
    ensures forall k :: 0 <= k < |r| ==> IsDigit(r[k])
    ensures |r| < |s| ==> !IsDigit(s[|r|])
  {
    if |s| > 0 && IsDigit(s[0]) then [s[0]] + DigitRun(s[1..]) else []
  }

  function DigitsValue(ds: string): nat
    requires forall k :: 0 <= k < |ds| ==> IsDigit(ds[k])
  {
    if |ds| == 0 then 0
    else
      var last := ds[|ds| - 1];
      assert IsDigit(last);
      10 * DigitsValue(ds[..|ds| - 1]) + (last as int - '0' as int)
  }

  /** Bounds of PHP's 64-bit integers; `intval` saturates at them. */
  const PhpIntMax: int := 0x7FFF_FFFF_FFFF_FFFF
  const PhpIntMin: int := -0x8000_0000_0000_0000

  function Saturate(v: int): (r: int)
    ensures PhpIntMin <= r <= PhpIntMax
    ensures PhpIntMin <= v <= PhpIntMax ==> r == v
  {
    if v > PhpIntMax then PhpIntMax else if v < PhpIntMin then PhpIntMin else v
  }

  /** The value of an optional sign followed by the longest run of digits. */
  function SignedDigits(t: string): int
  {
    if |t| > 0 && t[0] == '-' then -(DigitsValue(DigitRun(t[1..])) as int)
    else if |t| > 0 && t[0] == '+' then DigitsValue(DigitRun(t[1..]))
    else DigitsValue(DigitRun(t))
  }

  /** PHP's `intval` on a decimal string: leading white space, an optional
      sign, then the longest run of digits; no digits gives 0. */
  function IntVal(s: string): (r: int)
    ensures PhpIntMin <= r <= PhpIntMax
  {
    Saturate(SignedDigits(SkipSpace(s)))
  }

  function DigitChar(d: nat): (c: char)
    requires d < 10
    ensures IsDigit(c) && c as int - '0' as int == d
  {
    ('0' as int + d) as char
  }

  /** Decimal rendering of a natural number, as JavaScript's `String(n)`. */
  function NatToString(n: nat): (r: string)
    ensures |r| >= 1
    ensures forall k :: 0 <= k < |r| ==> IsDigit(r[k])
  {
    if n < 10 then [DigitChar(n)] else NatToString(n / 10) + [DigitChar(n % 10)]
  }

  function IntToString(i: int): string
  {
    if i < 0 then "-" + NatToString(-i) else NatToString(i)
  }

  /** Two-digit zero padding used by the countdown display. */
  function Pad2(n: nat): (r: string)
    ensures |r| >= 2
  {
    if n < 10 then "0" + NatToString(n) else NatToString(n)
  }

  lemma {:induction false} NatToStringValue(n: nat)
    ensures DigitsValue(NatToString(n)) == n
  {
    if n >= 10 {
      NatToStringValue(n / 10);
      var s := NatToString(n);
      assert s[..|s| - 1] == NatToString(n / 10);
    }
  }

  lemma {:induction false} DigitRunOfDigits(s: string)
    requires forall k :: 0 <= k < |s| ==> IsDigit(s[k])
    ensures DigitRun(s) == s
    decreases |s|
  {
    if |s| > 0 {
      DigitRunOfDigits(s[1..]);
      assert s == [s[0]] + s[1..];
    }
  }

  lemma {:induction false} IntValOfDigits(digits: string)
    requires |digits| >= 1 && forall k :: 0 <= k < |digits| ==> IsDigit(digits[k])
    ensures IntVal(digits) == Saturate(DigitsValue(digits))
  {
    assert !IsSpace(digits[0]);
    assert SkipSpace(digits) == digits;
    DigitRunOfDigits(digits);
  }

  lemma {:induction false} IntValOfNegatedDigits(digits: string)
    requires |digits| >= 1 && forall k :: 0 <= k < |digits| ==> IsDigit(digits[k])
    requires DigitsValue(digits) <= -PhpIntMin
    ensures IntVal("-" + digits) == -(DigitsValue(digits) as int)
  {
    var s := "-" + digits;
    assert s[0] == '-';
    assert SkipSpace(s) == s;
    assert s[1..] == digits;
    DigitRunOfDigits(digits);
    assert SignedDigits(s) == -(DigitsValue(digits) as int);
  }

  lemma {:induction false} IntValOfNegative(n: nat)
    requires 0 < n <= -PhpIntMin
    ensures IntVal("-" + NatToString(n)) == -(n as int)
  {
    var digits := NatToString(n);
    NatToStringValue(n);
    assert DigitsValue(digits) == n;
    IntValOfNegatedDigits(digits);
  }

  lemma {:induction false} IntValOfNatural(n: nat)
    requires n <= PhpIntMax
    ensures IntVal(NatToString(n)) == n
  {
    var digits := NatToString(n);
    NatToStringValue(n);
    IntValOfDigits(digits);
  }

  /** `intval` reads back every integer PHP can represent from its decimal
      rendering. */
  lemma {:induction false} IntValOfIntToString(i: int)
    requires PhpIntMin <= i <= PhpIntMax
    ensures IntVal(IntToString(i)) == i
  {
    if i < 0 {
      IntValOfNegative(-i);
    } else {
      IntValOfNatural(i);
    }
  }
}
