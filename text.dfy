/** The Kotlin string operations the core relies on: `isBlank`, `trim`, `lowercase`/`uppercase`,
    `equals(ignoreCase = true)`, `startsWith`, `removePrefix`, `contains`, and decimal rendering
    of a count. */
module Text {

  /** Kotlin's `Char.isWhitespace()`: Java's whitespace characters together with the Unicode
      space, line and paragraph separators. */
  predicate IsWhitespace(c: char) {
    var n := c as int;
    n == 0x20 || (0x09 <= n <= 0x0D) || (0x1C <= n <= 0x1F) || n == 0xA0 || n == 0x1680 ||
    (0x2000 <= n <= 0x200A) || n == 0x2028 || n == 0x2029 || n == 0x202F || n == 0x205F ||
    n == 0x3000
  }

  /** Kotlin's `isBlank()`: empty or whitespace only. */
  predicate IsBlank(s: string) {
    forall i :: 0 <= i < |s| ==> IsWhitespace(s[i])
  }

  /** Kotlin's `trimStart()`. */
  function TrimStart(s: string): (r: string)
    ensures |r| <= |s| && r == s[|s| - |r|..]
    ensures forall i :: 0 <= i < |s| - |r| ==> IsWhitespace(s[i])
    ensures r != [] ==> !IsWhitespace(r[0])
  {
    if s != [] && IsWhitespace(s[0]) then TrimStart(s[1..]) else s
  }

  /** Kotlin's `trimEnd()`. */
  function TrimEnd(s: string): (r: string)
    ensures |r| <= |s| && r == s[..|r|]
    ensures forall i :: |r| <= i < |s| ==> IsWhitespace(s[i])
    ensures r != [] ==> !IsWhitespace(r[|r| - 1])
  {
    if s != [] && IsWhitespace(s[|s| - 1]) then TrimEnd(s[..|s| - 1]) else s
  }

  /** Number of whitespace characters `s` starts with. */
  function LeadingWhitespace(s: string): (n: nat)
    ensures n <= |s| && forall i :: 0 <= i < n ==> IsWhitespace(s[i])
    ensures n < |s| ==> !IsWhitespace(s[n])
  {
    |s| - |TrimStart(s)|
  }

  /** Kotlin's `trim()`: the piece of `s` left once its leading and trailing whitespace are
      removed. */
  function Trim(s: string): (r: string)
    ensures LeadingWhitespace(s) + |r| <= |s|
    ensures r == s[LeadingWhitespace(s)..LeadingWhitespace(s) + |r|]
    ensures forall i :: LeadingWhitespace(s) + |r| <= i < |s| ==> IsWhitespace(s[i])
    ensures r != [] ==> !IsWhitespace(r[0]) && !IsWhitespace(r[|r| - 1])
  {
    TrimEnd(TrimStart(s))
  }

  /** A string that neither starts nor ends with whitespace is its own trim. */
  lemma {:induction false} TrimOfTrimmed(s: string)
    requires s != [] ==> !IsWhitespace(s[0]) && !IsWhitespace(s[|s| - 1])
    ensures Trim(s) == s
  {
  }

  /** A string is blank exactly when nothing is left after trimming it. */
  lemma BlankIffTrimEmpty(s: string)
    ensures IsBlank(s) <==> Trim(s) == []
  {
  }

  /** Trimming twice is trimming once. */
  lemma TrimIdempotent(s: string)
    ensures Trim(Trim(s)) == Trim(s)
  {
    TrimOfTrimmed(Trim(s));
  }

  /** Kotlin's `lowercase()` on one character, for ASCII Latin and U+0400-U+045F only. */
  function ToLowerChar(c: char): char {
    if 'A' <= c <= 'Z' then (c as int + 0x20) as char
    else if 0x410 <= c as int <= 0x42F then (c as int + 0x20) as char
    else if 0x400 <= c as int <= 0x40F then (c as int + 0x50) as char
    else c
  }

  /** Kotlin's `uppercase()` on one character, for ASCII Latin and U+0400-U+045F only. */
  function ToUpperChar(c: char): char {
    if 'a' <= c <= 'z' then (c as int - 0x20) as char
    else if 0x430 <= c as int <= 0x44F then (c as int - 0x20) as char
    else if 0x450 <= c as int <= 0x45F then (c as int - 0x50) as char
    else c
  }

  function Lower(s: string): (r: string)
    ensures |r| == |s| && forall i :: 0 <= i < |s| ==> r[i] == ToLowerChar(s[i])
  {
    seq(|s|, i requires 0 <= i < |s| => ToLowerChar(s[i]))
  }

  function Upper(s: string): (r: string)
    ensures |r| == |s| && forall i :: 0 <= i < |s| ==> r[i] == ToUpperChar(s[i])
  {
    seq(|s|, i requires 0 <= i < |s| => ToUpperChar(s[i]))
  }

  /** Java's per-character rule behind `equals(ignoreCase = true)`: equal characters, equal
      upper-case forms, or equal lower-case forms of the upper-case forms. */
  predicate JavaCharEqualsIgnoreCase(a: char, b: char) {
    a == b || ToUpperChar(a) == ToUpperChar(b) ||
    ToLowerChar(ToUpperChar(a)) == ToLowerChar(ToUpperChar(b))
  }

  /** For the case mapping modelled here Java's three-way rule is the same as comparing
      upper-case forms. */
  lemma JavaRuleIsUpperEquality(a: char, b: char)
    ensures JavaCharEqualsIgnoreCase(a, b) <==> ToUpperChar(a) == ToUpperChar(b)
  {
  }

  /** Kotlin's `equals(other, ignoreCase = true)`. */
  predicate EqualsIgnoreCase(a: string, b: string) {
    Upper(a) == Upper(b)
  }

  lemma UpperCharIdempotent(c: char)
    ensures ToUpperChar(ToUpperChar(c)) == ToUpperChar(c)
  {
  }

  /** Upper-casing keeps a string equal to itself ignoring case, and upper-casing twice is
      upper-casing once. */
  lemma UpperKeepsIgnoreCaseClass(a: string, b: string)
    ensures Upper(Upper(b)) == Upper(b)
    ensures EqualsIgnoreCase(a, Upper(b)) <==> EqualsIgnoreCase(a, b)
  {
    forall i | 0 <= i < |b| ensures Upper(Upper(b))[i] == Upper(b)[i] {
      UpperCharIdempotent(b[i]);
    }
  }

  /** Kotlin's `startsWith(prefix)`. */
  predicate StartsWith(s: string, prefix: string) {
    |prefix| <= |s| && s[..|prefix|] == prefix
  }

  /** A string starts with any prefix of its own first part. */
  lemma StartsWithAppend(a: string, b: string, prefix: string)
    requires StartsWith(a, prefix)
    ensures StartsWith(a + b, prefix)
  {
    assert (a + b)[..|prefix|] == a[..|prefix|];
  }

  /** Kotlin's `removePrefix(prefix)`. */
  function RemovePrefix(s: string, prefix: string): (r: string)
    ensures StartsWith(s, prefix) ==> s == prefix + r
    ensures !StartsWith(s, prefix) ==> r == s
  {
    if StartsWith(s, prefix) then s[|prefix|..] else s
  }

  /** Kotlin's `contains(other)`: `q` occurs as a contiguous piece of `s`. */
  predicate Contains(s: string, q: string)
    decreases |s|
  {
    StartsWith(s, q) || (s != [] && Contains(s[1..], q))
  }

  /** Decimal digits of `n`, as string templates render an `Int`. */
  function NatToString(n: nat): (r: string)
    ensures |r| >= 1 && forall i :: 0 <= i < |r| ==> '0' <= r[i] <= '9'
  {
    var d := ['0' + (n % 10) as char];
    if n < 10 then d else NatToString(n / 10) + d
  }
}
