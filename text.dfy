/** Text operations the app relies on from the JavaScript runtime: decimal
    rendering of integers (`String(n)`, template literals), `String.prototype.trim`,
    the trailing-slash strip `s.replace(/\/$/, '')`, and the
    application/x-www-form-urlencoded serializer behind `URLSearchParams.toString()`.
    Strings are sequences of Unicode scalar values. */
module Text {

  // ---------------------------------------------------------------------------
  // Decimal rendering
  // ---------------------------------------------------------------------------

  predicate IsDigit(c: char) { '0' <= c <= '9' }

  function Digit(d: nat): (c: char)
    requires d < 10
    ensures IsDigit(c) && c as int - '0' as int == d
  {
    ('0' as int + d) as char
  }

  /** Value of a digit character; the inverse of Digit. */
  function DigitValue(c: char): (d: nat)
    requires IsDigit(c)
    ensures d < 10 && Digit(d) == c
  {
    c as int - '0' as int
  }

  /** The decimal digits of n, most significant first, without leading zeros. */
  function NatToString(n: nat): (s: string)
    ensures |s| >= 1
    ensures forall i :: 0 <= i < |s| ==> IsDigit(s[i])
    ensures (n < 10) == (|s| == 1)
    decreases n
  {
    if n < 10 then [Digit(n)] else NatToString(n / 10) + [Digit(n % 10)]
  }

  /** Reads a string of digits back as a number. */
  function DecimalValue(s: string): nat
    requires forall i :: 0 <= i < |s| ==> IsDigit(s[i])
    decreases |s|
  {
    if s == [] then 0 else DecimalValue(s[..|s| - 1]) * 10 + DigitValue(s[|s| - 1])
  }

  /** Reading the rendered digits gives the number back. */
  lemma {:induction false} DecimalRoundTrip(n: nat)
    ensures DecimalValue(NatToString(n)) == n
    decreases n
  {
    var s := NatToString(n);
    if n >= 10 {
      DecimalRoundTrip(n / 10);
      assert s[..|s| - 1] == NatToString(n / 10);
      assert s[|s| - 1] == Digit(n % 10);
    }
  }

  /** Distinct numbers render to distinct strings. */
  lemma NatToStringInjective(a: nat, b: nat)
    requires NatToString(a) == NatToString(b)
    ensures a == b
  {
    DecimalRoundTrip(a);
    DecimalRoundTrip(b);
  }

  /** `String(i)` for an integer i (JavaScript writes numbers of magnitude
      10^21 and above in exponent notation, which this does not cover). */
  function IntToString(i: int): (s: string)
    ensures |s| >= 1
    ensures i >= 0 ==> (forall k :: 0 <= k < |s| ==> IsDigit(s[k])) && DecimalValue(s) == i
    ensures i < 0 ==> s[0] == '-' && (forall k :: 1 <= k < |s| ==> IsDigit(s[k])) && DecimalValue(s[1..]) == -i
  {
    if i < 0 then
      DecimalRoundTrip(-i);
      assert ("-" + NatToString(-i))[1..] == NatToString(-i);
      "-" + NatToString(-i)
    else
      DecimalRoundTrip(i);
      NatToString(i)
  }

  /** The rendering starts with a minus sign exactly for negative numbers. */
  lemma IntToStringSign(i: int)
    ensures (IntToString(i)[0] == '-') <==> (i < 0)
  {
    if i >= 0 {
      assert IsDigit(NatToString(i)[0]);
    }
  }

  lemma IntToStringInjective(a: int, b: int)
    requires IntToString(a) == IntToString(b)
    ensures a == b
  {
    var sa, sb := IntToString(a), IntToString(b);
    IntToStringSign(a);
    IntToStringSign(b);
    if a < 0 && b < 0 {
      assert sa[1..] == NatToString(-a) && sb[1..] == NatToString(-b);
      NatToStringInjective(-a, -b);
    } else if a >= 0 && b >= 0 {
      NatToStringInjective(a, b);
    }
  }

  /** Two strings `p + sep + q` whose `p` parts hold no `sep` split the same way. */
  lemma {:induction false} SplitAtSeparator(p1: string, q1: string, p2: string, q2: string, sep: char)
    requires forall i :: 0 <= i < |p1| ==> p1[i] != sep
    requires forall i :: 0 <= i < |p2| ==> p2[i] != sep
    requires p1 + [sep] + q1 == p2 + [sep] + q2
    ensures p1 == p2 && q1 == q2
  {
    var s := p1 + [sep] + q1;
    SeparatorPosition(p1, q1, sep);
    SeparatorPosition(p2, q2, sep);
    assert |p1| == |p2|;
    assert p1 == s[..|p1|] == p2;
    assert q1 == s[|p1| + 1..] == q2;
  }

  lemma SeparatorPosition(p: string, q: string, sep: char)
    requires forall i :: 0 <= i < |p| ==> p[i] != sep
    ensures (p + [sep] + q)[|p|] == sep
    ensures forall i :: 0 <= i < |p| ==> (p + [sep] + q)[i] != sep
  {
  }

  // ---------------------------------------------------------------------------
  // String.prototype.trim
  // ---------------------------------------------------------------------------

  /** The ECMAScript WhiteSpace and LineTerminator code points. */
  predicate IsWhitespace(c: char)
  {
    c == '\t' || c == '\n' || c == '\U{000B}' || c == '\U{000C}' || c == '\r' || c == ' '
    || c == '\U{00A0}' || c == '\U{1680}' || ('\U{2000}' <= c <= '\U{200A}')
    || c == '\U{2028}' || c == '\U{2029}' || c == '\U{202F}' || c == '\U{205F}'
    || c == '\U{3000}' || c == '\U{FEFF}'
  }

  /** The number of white-space characters at the start of s. */
  function LeadingSpace(s: string): (n: nat)
    ensures n <= |s|
    ensures forall k :: 0 <= k < n ==> IsWhitespace(s[k])
    ensures n < |s| ==> !IsWhitespace(s[n])
    decreases |s|
  {
    if s != [] && IsWhitespace(s[0]) then 1 + LeadingSpace(s[1..]) else 0
  }

  /** The length of s once the white space at its end is dropped. */
  function KeptLength(s: string): (n: nat)
    ensures n <= |s|
    ensures forall k :: n <= k < |s| ==> IsWhitespace(s[k])
    ensures n > 0 ==> !IsWhitespace(s[n - 1])
    decreases |s|
  {
    if s != [] && IsWhitespace(s[|s| - 1]) then KeptLength(s[..|s| - 1]) else |s|
  }

  /** `s.trim()`: the leading white space goes first, then the trailing. */
  function Trim(s: string): string
  {
    var start := LeadingSpace(s);
    s[start..start + KeptLength(s[start..])]
  }

  /** r is the slice s[i..j] of s, with only white space outside it. */
  predicate TrimmedSlice(s: string, r: string, i: int, j: int)
  {
    && 0 <= i <= j <= |s| && r == s[i..j]
    && (forall k :: 0 <= k < i ==> IsWhitespace(s[k]))
    && (forall k :: j <= k < |s| ==> IsWhitespace(s[k]))
  }

  /** trim() removes exactly the white space at both ends: the result is a
      slice of s with white space only outside it and none at its edges. */
  lemma TrimIsSlice(s: string)
    ensures exists i, j :: TrimmedSlice(s, Trim(s), i, j)
    ensures Trim(s) != [] ==> !IsWhitespace(Trim(s)[0]) && !IsWhitespace(Trim(s)[|Trim(s)| - 1])
  {
    var i := LeadingSpace(s);
    var rest := s[i..];
    var j := i + KeptLength(rest);
    forall k | j <= k < |s| ensures IsWhitespace(s[k]) {
      assert s[k] == rest[k - i];
    }
    assert TrimmedSlice(s, Trim(s), i, j);
    if i < j {
      assert Trim(s)[|Trim(s)| - 1] == rest[KeptLength(rest) - 1];
    }
  }

  /** `s.trim().length > 0` holds exactly when s has a character that is not white space. */
  lemma TrimNonEmptyIff(s: string)
    ensures Trim(s) != [] <==> exists k :: 0 <= k < |s| && !IsWhitespace(s[k])
  {
    var i := LeadingSpace(s);
    var rest := s[i..];
    if Trim(s) != [] {
      assert s[i] == Trim(s)[0];
    }
  }

  // ---------------------------------------------------------------------------
  // s.replace(/\/$/, '')
  // ---------------------------------------------------------------------------

  /** Drops one '/' at the very end of s, if there is one (the pattern has no
      `g` flag, so at most one slash goes). */
  function StripTrailingSlash(s: string): (r: string)
    ensures s == r || s == r + "/"
    ensures (s == r + "/") <==> (s != [] && s[|s| - 1] == '/')
  {
    if s != [] && s[|s| - 1] == '/' then s[..|s| - 1] else s
  }

  // ---------------------------------------------------------------------------
  // application/x-www-form-urlencoded serialisation
  // ---------------------------------------------------------------------------

  predicate IsAsciiAlphanumeric(c: char)
  {
    ('0' <= c <= '9') || ('A' <= c <= 'Z') || ('a' <= c <= 'z')
  }

  /** The code points the form serializer leaves as they are. */
  predicate IsFormUnreserved(c: char)
  {
    IsAsciiAlphanumeric(c) || c == '*' || c == '-' || c == '.' || c == '_'
  }

  /** The characters a serialized name or value can consist of. */
  predicate IsFormOutput(c: char)
  {
    IsFormUnreserved(c) || c == '+' || c == '%'
  }

  function HexDigit(d: nat): (c: char)
    requires d < 16
    ensures IsAsciiAlphanumeric(c)
  {
    if d < 10 then ('0' as int + d) as char else ('A' as int + d - 10) as char
  }

  /** The UTF-8 encoding of one code point. */
  function Utf8(c: char): (bytes: seq<nat>)
    ensures 1 <= |bytes| <= 4
    ensures forall i :: 0 <= i < |bytes| ==> bytes[i] < 256
  {
    var cp := c as int;
    if cp < 0x80 then [cp]
    else if cp < 0x800 then [0xC0 + cp / 0x40, 0x80 + cp % 0x40]
    else if cp < 0x10000 then [0xE0 + cp / 0x1000, 0x80 + (cp / 0x40) % 0x40, 0x80 + cp % 0x40]
    else [0xF0 + cp / 0x40000, 0x80 + (cp / 0x1000) % 0x40, 0x80 + (cp / 0x40) % 0x40, 0x80 + cp % 0x40]
  }

  function PercentEncode(bytes: seq<nat>): (r: string)
    requires forall i :: 0 <= i < |bytes| ==> bytes[i] < 256
    ensures |r| == 3 * |bytes|
    ensures forall i :: 0 <= i < |r| ==> IsFormOutput(r[i])
    decreases |bytes|
  {
    if bytes == [] then []
    else ['%', HexDigit(bytes[0] / 16), HexDigit(bytes[0] % 16)] + PercentEncode(bytes[1..])
  }

  function FormEncodeChar(c: char): string
  {
    if IsFormUnreserved(c) then [c]
    else if c == ' ' then "+"
    else PercentEncode(Utf8(c))
  }

  /** The byte serializer applied to a name or a value. */
  function FormEncode(s: string): (r: string)
    ensures |r| >= |s|
    ensures forall i :: 0 <= i < |r| ==> IsFormOutput(r[i])
    decreases |s|
  {
    if s == [] then [] else FormEncodeChar(s[0]) + FormEncode(s[1..])
  }

  /** A string made of unreserved characters serializes to itself. */
  lemma {:induction false} FormEncodeUnreserved(s: string)
    requires forall i :: 0 <= i < |s| ==> IsFormUnreserved(s[i])
    ensures FormEncode(s) == s
    decreases |s|
  {
    if s != [] {
      FormEncodeUnreserved(s[1..]);
    }
  }

  /** Encoding never produces a character that delimits pairs ('&'), names
      from values ('='), or the query from the fragment ('#'), so a serialized
      query splits back into its pairs unambiguously. */
  lemma FormEncodeHasNoDelimiters(s: string)
    ensures forall i :: 0 <= i < |FormEncode(s)| ==>
              FormEncode(s)[i] != '&' && FormEncode(s)[i] != '=' && FormEncode(s)[i] != '#' && FormEncode(s)[i] != '?'
  {
  }

  /** `new URLSearchParams(...).toString()` for the given name-value pairs, in order. */
  function QueryString(params: seq<(string, string)>): (q: string)
    ensures (q == []) <==> (params == [])
    ensures forall i :: 0 <= i < |q| ==> IsFormOutput(q[i]) || q[i] == '=' || q[i] == '&'
    decreases |params|
  {
    if params == [] then []
    else
      var pair := FormEncode(params[0].0) + "=" + FormEncode(params[0].1);
      if |params| == 1 then pair else pair + "&" + QueryString(params[1..])
  }

}
