/** The string primitives the components call: `toLowerCase`, `includes`, `trim`, the
    `/\s+/g` replacement used for ids, and the decimal rendering of a timestamp. */
module Text {

  /** JavaScript white space and line terminators: the characters `trim()` strips and the
      regular-expression class `\s` matches. */
  predicate IsSpace(c: char) {
    || c == '\t' || c == '\n' || c == '\U{000B}' || c == '\U{000C}' || c == '\r' || c == ' '
    || c == '\U{00A0}' || c == '\U{1680}' || ('\U{2000}' <= c <= '\U{200A}')
    || c == '\U{2028}' || c == '\U{2029}' || c == '\U{202F}' || c == '\U{205F}'
    || c == '\U{3000}' || c == '\U{FEFF}'
  }

  predicate SpaceFree(s: string) {
    forall i | 0 <= i < |s| :: !IsSpace(s[i])
  }

  predicate AllSpace(s: string) {
    forall i | 0 <= i < |s| :: IsSpace(s[i])
  }

  predicate IsUpper(c: char) {
    'A' <= c <= 'Z'
  }

  /** Lower-casing of one character, restricted to the ASCII letters. */
  function LowerChar(c: char): (r: char)
    ensures !IsUpper(r)
    ensures !IsUpper(c) ==> r == c
    ensures IsUpper(c) ==> r as int == c as int + 32
  {
    if IsUpper(c) then (c as int + 32) as char else c
  }

  /** `s.toLowerCase()` on ASCII letters; every other character is kept. */
  function Lower(s: string): (r: string)
    ensures |r| == |s|
    ensures forall i | 0 <= i < |r| :: !IsUpper(r[i])
    ensures forall i | 0 <= i < |s| && !IsUpper(s[i]) :: r[i] == s[i]
    ensures forall i | 0 <= i < |s| && IsUpper(s[i]) :: r[i] as int == s[i] as int + 32
  {
    seq(|s|, i requires 0 <= i < |s| => LowerChar(s[i]))
  }

  /** Lower-casing an already lower-cased string changes nothing. */
  lemma LowerIdempotent(s: string)
    ensures Lower(Lower(s)) == Lower(s)
  {
  }

  /** `hay.includes(needle)`: `needle` occurs in `hay` as a contiguous block. */
  predicate Contains(hay: string, needle: string) {
    exists k | 0 <= k <= |hay| - |needle| :: needle <= hay[k..]
  }

  /** Occurrence is transitive: a text containing `mid` contains everything `mid` contains. */
  lemma ContainsTransitive(hay: string, mid: string, needle: string)
    requires Contains(hay, mid) && Contains(mid, needle)
    ensures Contains(hay, needle)
  {
    var k :| 0 <= k <= |hay| - |mid| && mid <= hay[k..];
    var j :| 0 <= j <= |mid| - |needle| && needle <= mid[j..];
    assert forall i | 0 <= i < |needle| :: needle[i] == mid[j + i] == hay[k + j + i];
    assert needle <= hay[k + j..];
  }

  /** Occurrence is exactly a split of the text into a head, the needle and a tail. */
  lemma ContainsIffSplit(hay: string, needle: string)
    ensures Contains(hay, needle) <==>
            exists k | 0 <= k <= |hay| - |needle| :: hay == hay[..k] + needle + hay[k + |needle|..]
  {
    if Contains(hay, needle) {
      var k :| 0 <= k <= |hay| - |needle| && needle <= hay[k..];
      assert hay == hay[..k] + needle + hay[k + |needle|..];
    }
    forall k | 0 <= k <= |hay| - |needle| && hay == hay[..k] + needle + hay[k + |needle|..]
      ensures needle <= hay[k..]
    {
      assert hay[k..k + |needle|] == needle;
    }
  }

  /** The length of the white-space run `s` starts with. */
  function LeadingSpace(s: string): (n: nat)
    ensures n <= |s|
    ensures forall i | 0 <= i < n :: IsSpace(s[i])
    ensures n < |s| ==> !IsSpace(s[n])
    decreases |s|
  {
    if |s| > 0 && IsSpace(s[0]) then 1 + LeadingSpace(s[1..]) else 0
  }

  /** The length of the white-space run `s` ends with. */
  function TrailingSpace(s: string): (n: nat)
    ensures n <= |s|
    ensures forall i | |s| - n <= i < |s| :: IsSpace(s[i])
    ensures n < |s| ==> !IsSpace(s[|s| - 1 - n])
    decreases |s|
  {
    if |s| > 0 && IsSpace(s[|s| - 1]) then 1 + TrailingSpace(s[..|s| - 1]) else 0
  }

  /** `s` without its leading white space. */
  function TrimStart(s: string): (r: string)
    ensures |r| <= |s| && r == s[|s| - |r|..]
    ensures AllSpace(s[..|s| - |r|])
    ensures |r| == 0 || !IsSpace(r[0])
  {
    s[LeadingSpace(s)..]
  }

  /** `s` without its trailing white space. */
  function TrimEnd(s: string): (r: string)
    ensures |r| <= |s| && r == s[..|r|]
    ensures AllSpace(s[|r|..])
    ensures |r| == 0 || !IsSpace(r[|r| - 1])
  {
    s[..|s| - TrailingSpace(s)]
  }

  /** Neither end of `s` is white space. */
  predicate IsTrimmed(s: string) {
    |s| == 0 || (!IsSpace(s[0]) && !IsSpace(s[|s| - 1]))
  }

  /** `s.trim()`: the block of `s` that starts after its leading white space and is followed
      only by white space. */
  function Trim(s: string): (r: string)
    ensures var k := LeadingSpace(s); k + |r| <= |s| && r == s[k..k + |r|] && AllSpace(s[k + |r|..])
    ensures IsTrimmed(r)
  {
    var k := LeadingSpace(s);
    var t := s[k..];
    var r := TrimEnd(t);
    assert r == s[k..k + |r|];
    assert s[k + |r|..] == t[|r|..];
    assert |r| > 0 ==> r[0] == s[k];
    r
  }

  /** The strings `trim()` leaves unchanged are exactly those with no white space at either end. */
  lemma TrimFixedIffTrimmed(s: string)
    ensures Trim(s) == s <==> IsTrimmed(s)
  {
    if IsTrimmed(s) && |s| > 0 {
      assert TrimStart(s) == s;
      assert TrimEnd(s) == s;
    }
  }

  /** `s.replace(/\s+/g, '-')`: every maximal run of white space becomes one `-`. */
  function Slug(s: string): (r: string)
    ensures SpaceFree(r)
    ensures |r| <= |s|
    decreases |s|
  {
    if |s| == 0 then ""
    else if IsSpace(s[0]) then
      var t := TrimStart(s);
      assert |t| < |s|;
      var rest := Slug(t);
      assert !IsSpace('-');
      "-" + rest
    else
      var rest := Slug(s[1..]);
      [s[0]] + rest
  }

  /** Skipping a run of white space that is followed by a non-space lands on the follower. */
  lemma TrimStartSkipsRun(w: string, b: string)
    requires AllSpace(w)
    requires |b| == 0 || !IsSpace(b[0])
    ensures TrimStart(w + b) == b
  {
    assert forall i | 0 <= i < |w| :: (w + b)[i] == w[i];
    assert |b| > 0 ==> (w + b)[|w|] == b[0];
  }

  /** A string without white space is its own slug. */
  lemma {:induction false} SlugOfSpaceFree(s: string)
    requires SpaceFree(s)
    ensures Slug(s) == s
    decreases |s|
  {
    if |s| > 0 {
      SlugOfSpaceFree(s[1..]);
      assert [s[0]] + s[1..] == s;
    }
  }

  /** The defining step of the replacement: a white-space run between a space-free prefix and
      a part that does not start with white space turns into exactly one `-`. */
  lemma {:induction false} SlugReplacesRun(a: string, w: string, b: string)
    requires SpaceFree(a)
    requires |w| > 0 && AllSpace(w)
    requires |b| == 0 || !IsSpace(b[0])
    ensures Slug(a + w + b) == a + "-" + Slug(b)
    decreases |a|
  {
    if |a| == 0 {
      assert a + w + b == w + b;
      TrimStartSkipsRun(w, b);
    } else {
      assert (a + w + b)[1..] == a[1..] + w + b;
      SlugReplacesRun(a[1..], w, b);
      assert [a[0]] + (a[1..] + "-" + Slug(b)) == a + "-" + Slug(b);
    }
  }

  predicate IsDigit(c: char) {
    '0' <= c <= '9'
  }

  function DigitChar(d: nat): (c: char)
    requires d < 10
    ensures IsDigit(c)
  {
    ('0' as int + d) as char
  }

  /** The decimal rendering `${n}` of a non-negative integer, without leading zeros. */
  function DecimalString(n: nat): (r: string)
    ensures |r| >= 1
    ensures forall i | 0 <= i < |r| :: IsDigit(r[i])
    ensures |r| > 1 ==> r[0] != '0'
    decreases n
  {
    if n < 10 then [DigitChar(n)] else DecimalString(n / 10) + [DigitChar(n % 10)]
  }

  /** The value of a string of decimal digits. */
  function ParseDecimal(s: string): nat
    requires forall i | 0 <= i < |s| :: IsDigit(s[i])
    decreases |s|
  {
    if |s| == 0 then 0
    else
      assert IsDigit(s[|s| - 1]);
      ParseDecimal(s[..|s| - 1]) * 10 + (s[|s| - 1] as int - '0' as int)
  }

  /** Reading the decimal rendering back yields the number. */
  lemma {:induction false} ParseDecimalString(n: nat)
    ensures ParseDecimal(DecimalString(n)) == n
    decreases n
  {
    if n >= 10 {
      var r := DecimalString(n);
      assert r[..|r| - 1] == DecimalString(n / 10);
      ParseDecimalString(n / 10);
    }
  }
}
