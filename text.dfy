/** String helpers shared by the screens and the tracking service: the few
    JavaScript string operations the source relies on (`includes`,
    `toLowerCase`, `trim`, `split('@')[0]`, the `/^(\d+)/` match, number to
    decimal text), each with the property the callers depend on. */
module Text {

  // ---------------------------------------------------------------------------
  // includes

  predicate StartsWith(s: string, prefix: string) {
    |prefix| <= |s| && s[..|prefix|] == prefix
  }

  /** `s.includes(part)`: `part` occurs somewhere in `s` as a contiguous run. */
  predicate Includes(s: string, part: string)
    ensures Includes(s, part) ==> |part| <= |s|
    decreases |s|
  {
    StartsWith(s, part) || (|s| > 0 && Includes(s[1..], part))
  }

  /** `part` occurs in `s` starting at offset `i`. */
  predicate OccursAt(s: string, part: string, i: nat) {
    i + |part| <= |s| && s[i..i + |part|] == part
  }

  /** An occurrence at offset `i` makes `Includes` hold. */
  lemma {:induction false} IncludesFromOffset(s: string, part: string, i: nat)
    requires i + |part| <= |s| && s[i..i + |part|] == part
    ensures Includes(s, part)
    decreases i
  {
    if i == 0 {
      assert s[..|part|] == s[i..i + |part|];
    } else {
      assert s[1..][i - 1..i - 1 + |part|] == s[i..i + |part|];
      IncludesFromOffset(s[1..], part, i - 1);
    }
  }

  /** `Includes` always has an offset that witnesses it. */
  lemma {:induction false} IncludesHasOffset(s: string, part: string) returns (i: nat)
    requires Includes(s, part)
    ensures i + |part| <= |s| && s[i..i + |part|] == part
    decreases |s|
  {
    if StartsWith(s, part) {
      i := 0;
    } else {
      var j := IncludesHasOffset(s[1..], part);
      assert s[1..][j..j + |part|] == s[j + 1..j + 1 + |part|];
      i := j + 1;
    }
  }

  /** `Includes` means "occurs at some offset", and the empty string occurs everywhere. */
  lemma IncludesAtOffset(s: string, part: string)
    ensures Includes(s, part) <==> exists i: nat :: OccursAt(s, part, i)
    ensures Includes(s, "")
  {
    if Includes(s, part) {
      var i := IncludesHasOffset(s, part);
      assert OccursAt(s, part, i);
    }
    if exists i: nat :: OccursAt(s, part, i) {
      var i: nat :| OccursAt(s, part, i);
      IncludesFromOffset(s, part, i);
    }
    assert StartsWith(s, "");
  }

  // ---------------------------------------------------------------------------
  // toLowerCase (ASCII letters only)

  function LowerChar(c: char): char {
    if 'A' <= c <= 'Z' then (c as int + 32) as char else c
  }

  /** `s.toLowerCase()`, restricted to the ASCII letters A-Z: no capital
      is left, each capital becomes its small letter, and every other
      character stays where it was. */
  function ToLower(s: string): (r: string)
    ensures |r| == |s|
    ensures forall i :: 0 <= i < |r| ==> !('A' <= r[i] <= 'Z')
    ensures forall i :: 0 <= i < |s| ==>
      if 'A' <= s[i] <= 'Z' then r[i] as int == s[i] as int + 32 else r[i] == s[i]
  {
    seq(|s|, i requires 0 <= i < |s| => LowerChar(s[i]))
  }

  /** Case-insensitive `includes` as the screens write it: both sides lower-cased. */
  predicate IncludesIgnoringCase(s: string, query: string) {
    Includes(ToLower(s), ToLower(query))
  }

  /** Lower-casing twice changes nothing more. */
  lemma ToLowerIdempotent(s: string)
    ensures ToLower(ToLower(s)) == ToLower(s)
  {
  }

  // ---------------------------------------------------------------------------
  // trim

  /** The characters JavaScript's `trim` removes: the white-space and
      line-terminator code points of ECMA-262. */
  predicate IsJsSpace(c: char) {
    var n := c as int;
    n == 0x09 || n == 0x0A || n == 0x0B || n == 0x0C || n == 0x0D || n == 0x20
    || n == 0xA0 || n == 0x1680 || (0x2000 <= n <= 0x200A) || n == 0x2028 || n == 0x2029
    || n == 0x202F || n == 0x205F || n == 0x3000 || n == 0xFEFF
  }

  predicate AllSpace(s: string) {
    forall i :: 0 <= i < |s| ==> IsJsSpace(s[i])
  }

  function TrimStart(s: string): (r: string)
    ensures |r| <= |s|
  {
    if |s| > 0 && IsJsSpace(s[0]) then TrimStart(s[1..]) else s
  }

  function TrimEnd(s: string): (r: string)
    ensures |r| <= |s|
  {
    if |s| > 0 && IsJsSpace(s[|s| - 1]) then TrimEnd(s[..|s| - 1]) else s
  }

  /** `s.trim()`: never longer, and a text with no white space at either
      end is returned as it is. */
  function Trim(s: string): (r: string)
    ensures |r| <= |s|
    ensures s == [] || (!IsJsSpace(s[0]) && !IsJsSpace(s[|s| - 1])) ==> r == s
  {
    TrimEnd(TrimStart(s))
  }

  lemma {:induction false} TrimStartShape(s: string)
    ensures exists a :: AllSpace(a) && s == a + TrimStart(s)
    ensures TrimStart(s) == [] || !IsJsSpace(TrimStart(s)[0])
  {
    if |s| > 0 && IsJsSpace(s[0]) {
      TrimStartShape(s[1..]);
      var a :| AllSpace(a) && s[1..] == a + TrimStart(s[1..]);
      assert AllSpace([s[0]] + a);
      assert s == ([s[0]] + a) + TrimStart(s);
    } else {
      assert AllSpace([]) && s == [] + s;
    }
  }

  lemma {:induction false} TrimEndShape(s: string)
    ensures exists b :: AllSpace(b) && s == TrimEnd(s) + b
    ensures TrimEnd(s) == [] || !IsJsSpace(TrimEnd(s)[|TrimEnd(s)| - 1])
    decreases |s|
  {
    if |s| > 0 && IsJsSpace(s[|s| - 1]) {
      var init, last := s[..|s| - 1], s[|s| - 1];
      TrimEndShape(init);
      var b :| AllSpace(b) && init == TrimEnd(init) + b;
      var b' := b + [last];
      assert AllSpace(b');
      assert TrimEnd(s) == TrimEnd(init);
      calc {
        s;
        init + [last];
        (TrimEnd(init) + b) + [last];
        TrimEnd(s) + b';
      }
    } else {
      assert AllSpace([]) && s == s + [];
    }
  }

  /** `trim` strips a run of white space from each end and nothing else:
      the input is white space, the result, white space; and the result
      neither starts nor ends with white space. */
  lemma TrimShape(s: string)
    ensures exists a, b :: AllSpace(a) && AllSpace(b) && s == a + Trim(s) + b
    ensures Trim(s) == [] || (!IsJsSpace(Trim(s)[0]) && !IsJsSpace(Trim(s)[|Trim(s)| - 1]))
  {
    TrimStartShape(s);
    var t := TrimStart(s);
    var a :| AllSpace(a) && s == a + t;
    TrimEndShape(t);
    var b :| AllSpace(b) && t == TrimEnd(t) + b;
    assert s == a + Trim(s) + b;
    if Trim(s) != [] {
      assert t[0] == Trim(s)[0];
    }
  }

  lemma {:induction false} TrimStartAllSpace(s: string)
    requires AllSpace(s)
    ensures TrimStart(s) == []
  {
    if s != [] {
      TrimStartAllSpace(s[1..]);
    }
  }

  /** A string trims to the empty string exactly when it is all white space. */
  lemma {:induction false} TrimAllSpace(s: string)
    ensures Trim(s) == [] <==> AllSpace(s)
  {
    TrimShape(s);
    if AllSpace(s) {
      TrimStartAllSpace(s);
    }
    if Trim(s) == [] {
      var a, b :| AllSpace(a) && AllSpace(b) && s == a + Trim(s) + b;
      assert s == a + b;
      forall i | 0 <= i < |s| ensures IsJsSpace(s[i]) {
        if i < |a| { assert s[i] == a[i]; } else { assert s[i] == b[i - |a|]; }
      }
    }
  }

  // ---------------------------------------------------------------------------
  // split('@')[0]

  /** `s.split(sep)[0]`: the text before the first `sep`, or all of `s`. */
  function BeforeFirst(s: string, sep: char): (r: string)
    ensures sep !in r
    ensures sep in s ==> |r| < |s| && s[..|r|] == r && s[|r|] == sep
    ensures sep !in s ==> r == s
  {
    if s == [] then []
    else if s[0] == sep then []
    else [s[0]] + BeforeFirst(s[1..], sep)
  }

  /** Splitting a text made of a separator-free head, the separator and a tail gives the head back. */
  lemma {:induction false} BeforeFirstOfJoin(head: string, sep: char, tail: string)
    requires sep !in head
    ensures BeforeFirst(head + [sep] + tail, sep) == head
  {
    if head != [] {
      BeforeFirstOfJoin(head[1..], sep, tail);
      assert (head + [sep] + tail)[1..] == head[1..] + [sep] + tail;
    }
  }

  // ---------------------------------------------------------------------------
  // /^(\d+)/

  /** The ASCII decimal digits, which is what `\d` matches without the `u` flag. */
  predicate IsDigit(c: char) {
    '0' <= c <= '9'
  }

  /** The longest prefix of `s` made of digits (empty when `s` does not start with one). */
  function LeadingDigits(s: string): (r: string)
    ensures |r| <= |s|
    ensures forall i :: 0 <= i < |r| ==> IsDigit(r[i])
  {
    if |s| > 0 && IsDigit(s[0]) then [s[0]] + LeadingDigits(s[1..]) else []
  }

  /** `LeadingDigits` is a prefix of digits that cannot be extended: the
      next character, if any, is not a digit. */
  lemma {:induction false} LeadingDigitsMaximal(s: string)
    ensures StartsWith(s, LeadingDigits(s))
    ensures forall i :: 0 <= i < |LeadingDigits(s)| ==> IsDigit(LeadingDigits(s)[i])
    ensures |LeadingDigits(s)| < |s| ==> !IsDigit(s[|LeadingDigits(s)|])
    ensures LeadingDigits(s) == [] <==> (s == [] || !IsDigit(s[0]))
  {
    if |s| > 0 && IsDigit(s[0]) {
      LeadingDigitsMaximal(s[1..]);
    }
  }

  // ---------------------------------------------------------------------------
  // number to decimal text (template literals `${n}` on integers)

  function DigitChar(d: nat): char
    requires d < 10
  {
    ('0' as int + d) as char
  }

  function DigitValue(c: char): nat
    requires IsDigit(c)
  {
    c as int - '0' as int
  }

  /** Decimal text of a natural number, most significant digit first, no leading zeros. */
  function NatToString(n: nat): (r: string)
    ensures |r| > 0
    ensures forall i :: 0 <= i < |r| ==> IsDigit(r[i])
  {
    if n < 10 then [DigitChar(n)] else NatToString(n / 10) + [DigitChar(n % 10)]
  }

  /** Decimal text of an integer, with a leading '-' when negative. */
  function IntToString(n: int): string {
    if n < 0 then "-" + NatToString(-n) else NatToString(n)
  }

  /** The value of a string of decimal digits. */
  function DecimalValue(s: string): nat
    requires forall i :: 0 <= i < |s| ==> IsDigit(s[i])
  {
    if s == [] then 0 else 10 * DecimalValue(s[..|s| - 1]) + DigitValue(s[|s| - 1])
  }

  /** Reading the decimal text back gives the number: the text is faithful. */
  lemma {:induction false} NatToStringRoundTrip(n: nat)
    ensures DecimalValue(NatToString(n)) == n
    ensures n > 0 ==> NatToString(n)[0] != '0'
  {
    if n >= 10 {
      NatToStringRoundTrip(n / 10);
      var s := NatToString(n);
      assert s[..|s| - 1] == NatToString(n / 10);
    }
  }

  /** An integer's text starts with '-' exactly when it is negative, and the rest reads back as its magnitude. */
  lemma IntToStringRoundTrip(n: int)
    ensures |IntToString(n)| > 0
    ensures IntToString(n)[0] == '-' <==> n < 0
    ensures n < 0 ==> DecimalValue(IntToString(n)[1..]) == -n
    ensures n >= 0 ==> DecimalValue(IntToString(n)) == n
  {
    if n < 0 {
      NatToStringRoundTrip(-n);
      assert IntToString(n)[1..] == NatToString(-n);
    } else {
      NatToStringRoundTrip(n);
    }
  }

  // ---------------------------------------------------------------------------
  // String length

  /** The UTF-16 code units a character takes: two above U+FFFF (a surrogate pair), else one. */
  function CodeUnits(c: char): nat {
    if c as int > 0xFFFF then 2 else 1
  }

  /** `s.length`: JavaScript counts UTF-16 code units, not characters. */
  function Utf16Length(s: string): (n: nat)
    ensures |s| <= n <= 2 * |s|
  {
    if s == [] then 0 else CodeUnits(s[0]) + Utf16Length(s[1..])
  }

  /** Text inside the Basic Multilingual Plane has one code unit per character. */
  lemma {:induction false} Utf16LengthOfBmp(s: string)
    requires forall i :: 0 <= i < |s| ==> s[i] as int <= 0xFFFF
    ensures Utf16Length(s) == |s|
  {
    if s != [] {
      Utf16LengthOfBmp(s[1..]);
    }
  }
}
