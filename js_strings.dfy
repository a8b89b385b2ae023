/** The JavaScript string operations the application relies on, stated on
    Dafny strings (sequences of Unicode scalar values): `slice(0, n)`,
    `trim`, `indexOf` and `replace` with a string pattern, the decimal
    rendering of an integer inside a template literal, and
    `encodeURIComponent`. */
module JsStrings {
  import opened Wrappers

  // ---------------------------------------------------------------------
  // slice(0, n)
  // ---------------------------------------------------------------------

  /** `s.slice(0, n)` for a non-negative `n`: the first `min(|s|, n)` characters. */
  function Prefix(s: string, n: nat): (r: string)
    ensures |r| == (if |s| < n then |s| else n)
    ensures r == s[..|r|]
  {
    if |s| <= n then s else s[..n]
  }

  // ---------------------------------------------------------------------
  // trim
  // ---------------------------------------------------------------------

  /** The characters `String.prototype.trim` strips: the ECMAScript
      WhiteSpace and LineTerminator code points. */
  predicate IsWhiteSpace(c: char) {
    || c == '\t' || c == '\n' || c == '\U{000B}' || c == '\U{000C}' || c == '\r'
    || c == ' ' || c == '\U{00A0}' || c == '\U{1680}'
    || ('\U{2000}' <= c <= '\U{200A}')
    || c == '\U{2028}' || c == '\U{2029}' || c == '\U{202F}' || c == '\U{205F}'
    || c == '\U{3000}' || c == '\U{FEFF}'
  }

  /** Drops the leading white space: the result is the suffix that starts
      at the first non-white-space character. */
  function TrimStart(s: string): (r: string)
    ensures |r| <= |s| && r == s[|s| - |r|..]
    ensures r == [] || !IsWhiteSpace(r[0])
    ensures forall i :: 0 <= i < |s| - |r| ==> IsWhiteSpace(s[i])
    decreases |s|
  {
    if |s| > 0 && IsWhiteSpace(s[0]) then TrimStart(s[1..]) else s
  }

  /** Drops the trailing white space: the result is the prefix that ends
      at the last non-white-space character. */
  function TrimEnd(s: string): (r: string)
    ensures |r| <= |s| && r == s[..|r|]
    ensures r == [] || !IsWhiteSpace(r[|r| - 1])
    ensures forall i :: |r| <= i < |s| ==> IsWhiteSpace(s[i])
    decreases |s|
  {
    if |s| > 0 && IsWhiteSpace(s[|s| - 1]) then TrimEnd(s[..|s| - 1]) else s
  }

  /** `s.trim()`. */
  function Trim(s: string): string {
    TrimEnd(TrimStart(s))
  }

  /** Every character is white space. */
  predicate IsBlank(s: string) {
    forall i :: 0 <= i < |s| ==> IsWhiteSpace(s[i])
  }

  /** `!s.trim()` holds, the trimmed string being empty and hence falsy,
      exactly when every character of `s` is white space. */
  lemma BlankIffTrimEmpty(s: string)
    ensures Trim(s) == "" <==> IsBlank(s)
  {
    var t := TrimStart(s);
    if Trim(s) == "" {
      // the trimmed start is empty too: its first character is not white space
      assert t == "";
    }
  }

  // ---------------------------------------------------------------------
  // indexOf and replace with a string pattern
  // ---------------------------------------------------------------------

  /** `p` occurs in `s` at position `i`. */
  predicate OccursAt(s: string, p: string, i: int) {
    0 <= i && i + |p| <= |s| && s[i..i + |p|] == p
  }

  /** A text occurs in a concatenation right after what precedes it. */
  lemma OccursBetween(a: string, p: string, b: string)
    ensures OccursAt(a + p + b, p, |a|)
  {
    assert (a + p + b)[|a|..|a| + |p|] == p;
  }

  lemma OccursShift(s: string, p: string)
    requires |s| > 0
    ensures forall i :: 1 <= i ==> (OccursAt(s, p, i) <==> OccursAt(s[1..], p, i - 1))
  {
    forall i | 1 <= i ensures OccursAt(s, p, i) <==> OccursAt(s[1..], p, i - 1) {
      if i + |p| <= |s| {
        assert s[1..][i - 1..i - 1 + |p|] == s[i..i + |p|];
      }
    }
  }

  /** `s.indexOf(p)`: the first position at which `p` occurs, or -1. */
  function IndexOf(s: string, p: string): (r: int)
    ensures r == -1 || OccursAt(s, p, r)
    ensures r == -1 ==> forall i :: !OccursAt(s, p, i)
    ensures forall i :: 0 <= i < r ==> !OccursAt(s, p, i)
    decreases |s|
  {
    if |s| < |p| then -1
    else if s[..|p|] == p then 0
    else
      assert !OccursAt(s, p, 0) by { assert s[0..|p|] == s[..|p|]; }
      OccursShift(s, p);
      var k := IndexOf(s[1..], p);
      if k == -1 then -1 else k + 1
  }

  /** An occurrence with none before it is the one `indexOf` finds. */
  lemma FirstOccurrence(s: string, p: string, k: int)
    requires OccursAt(s, p, k)
    requires forall i :: 0 <= i < k ==> !OccursAt(s, p, i)
    ensures IndexOf(s, p) == k
  {
    assert IndexOf(s, p) != -1;
  }

  /** `s.replace(p, r)` with a string pattern and a replacement read
      literally: the first occurrence of `p` is replaced by `r`, scanning
      from the left. */
  function ReplaceFirst(s: string, p: string, r: string): string
    decreases |s|
  {
    if |s| < |p| then s
    else if s[..|p|] == p then r + s[|p|..]
    else [s[0]] + ReplaceFirst(s[1..], p, r)
  }

  /** The scan agrees with the definition by `indexOf`: nothing changes when
      `p` is absent, and otherwise exactly the first occurrence is replaced. */
  lemma {:induction false} ReplaceFirstSplitsAtIndexOf(s: string, p: string, r: string)
    ensures var i := IndexOf(s, p);
      ReplaceFirst(s, p, r) == if i == -1 then s else s[..i] + r + s[i + |p|..]
    decreases |s|
  {
    if |s| < |p| {
    } else if s[..|p|] == p {
      assert IndexOf(s, p) == 0;
      assert s[..0] + r + s[|p|..] == r + s[|p|..];
    } else {
      var t := s[1..];
      var k := IndexOf(t, p);
      assert IndexOf(s, p) == if k == -1 then -1 else k + 1;
      assert ReplaceFirst(s, p, r) == [s[0]] + ReplaceFirst(t, p, r);
      ReplaceFirstSplitsAtIndexOf(t, p, r);
      if k == -1 {
        assert [s[0]] + t == s;
      } else {
        SplitShift(s, k, |p|, r);
      }
    }
  }

  /** Cutting the tail after its first character is cutting one further
      into the whole. */
  lemma SplitShift(s: string, k: nat, n: nat, r: string)
    requires 1 + k + n <= |s|
    ensures [s[0]] + (s[1..][..k] + r + s[1..][k + n..]) == s[..k + 1] + r + s[k + 1 + n..]
  {
    assert s[..k + 1] == [s[0]] + s[1..][..k];
    assert s[k + 1 + n..] == s[1..][k + n..];
  }

  /** When the pattern occurs, the replacement text occurs in the result,
      at the position of the first occurrence. */
  lemma ReplaceFirstInserts(s: string, p: string, r: string, j: int)
    requires OccursAt(s, p, j)
    ensures IndexOf(s, p) != -1
    ensures OccursAt(ReplaceFirst(s, p, r), r, IndexOf(s, p))
  {
    ReplaceFirstSplitsAtIndexOf(s, p, r);
    var i := IndexOf(s, p);
    var res := ReplaceFirst(s, p, r);
    assert res[i..i + |r|] == r;
  }

  // ---------------------------------------------------------------------
  // Decimal rendering of an integer (`${n}` in a template literal)
  // ---------------------------------------------------------------------

  predicate IsDigit(c: char) {
    '0' <= c <= '9'
  }

  function DigitChar(d: int): (c: char)
    requires 0 <= d < 10
    ensures IsDigit(c)
  {
    (48 + d) as char
  }

  function DigitValue(c: char): (d: int)
    requires IsDigit(c)
    ensures 0 <= d < 10
  {
    c as int - 48
  }

  /** Decimal digits of a natural number, most significant first, no leading zero. */
  function NatToString(n: nat): (r: string)
    ensures |r| >= 1
    ensures forall i :: 0 <= i < |r| ==> IsDigit(r[i])
    ensures |r| > 1 ==> r[0] != '0'
    decreases n
  {
    if n < 10 then [DigitChar(n)] else NatToString(n / 10) + [DigitChar(n % 10)]
  }

  /** `${n}` for an integer-valued number. */
  function IntToString(n: int): string {
    if n < 0 then "-" + NatToString(-n) else NatToString(n)
  }

  predicate AllDigits(s: string) {
    forall i :: 0 <= i < |s| ==> IsDigit(s[i])
  }

  /** The value of a non-empty string of decimal digits. */
  function DigitsValue(s: string): nat
    requires |s| >= 1 && AllDigits(s)
    decreases |s|
  {
    if |s| == 1 then DigitValue(s[0])
    else 10 * DigitsValue(s[..|s| - 1]) + DigitValue(s[|s| - 1])
  }

  /** Reads back an optionally signed decimal integer. */
  function ParseInt(s: string): Option<int> {
    if |s| >= 2 && s[0] == '-' && AllDigits(s[1..]) then
      var v: int := -(DigitsValue(s[1..]) as int);
      Some(v)
    else if |s| >= 1 && AllDigits(s) then Some(DigitsValue(s))
    else None
  }

  lemma {:induction false} NatToStringRoundTrip(n: nat)
    ensures DigitsValue(NatToString(n)) == n
    decreases n
  {
    if n >= 10 {
      NatToStringRoundTrip(n / 10);
      var s := NatToString(n);
      assert s[..|s| - 1] == NatToString(n / 10);
    }
  }

  /** The rendering of a page number can be read back: distinct page numbers
      give distinct query-string values. */
  lemma IntToStringRoundTrip(n: int)
    ensures ParseInt(IntToString(n)) == Some(n)
  {
    var s := IntToString(n);
    if n < 0 {
      var d := NatToString(-n);
      NatToStringRoundTrip(-n);
      assert s[1..] == d;
      assert AllDigits(s[1..]);
    } else {
      NatToStringRoundTrip(n);
      assert IsDigit(s[0]);
      assert AllDigits(s);
    }
  }

  // ---------------------------------------------------------------------
  // encodeURIComponent
  // ---------------------------------------------------------------------

  type Byte = b: int | 0 <= b < 256

  /** The characters `encodeURIComponent` leaves as they are. */
  predicate IsUriUnreserved(c: char) {
    ('A' <= c <= 'Z') || ('a' <= c <= 'z') || ('0' <= c <= '9') || c in "-_.!~*'()"
  }

  /** The characters an encoded component can contain. In particular
      none of `&`, `=`, `#`, `?`, `/`, `+` or a space. */
  predicate IsUriSafe(c: char) {
    IsUriUnreserved(c) || c == '%'
  }

  /** The UTF-8 encoding of one Unicode scalar value. */
  function Utf8(c: char): (bs: seq<Byte>)
    ensures 1 <= |bs| <= 4
    ensures |bs| == 1 <==> c as int < 0x80
    ensures |bs| == 1 ==> bs[0] == c as int
    ensures |bs| > 1 ==> forall i :: 0 <= i < |bs| ==> bs[i] >= 0x80
  {
    var cp := c as int;
    if cp < 0x80 then [cp]
    else if cp < 0x800 then [0xC0 + cp / 64, 0x80 + cp % 64]
    else if cp < 0x10000 then [0xE0 + cp / 4096, 0x80 + (cp / 64) % 64, 0x80 + cp % 64]
    else [0xF0 + cp / 262144, 0x80 + (cp / 4096) % 64, 0x80 + (cp / 64) % 64, 0x80 + cp % 64]
  }

  function Utf8String(s: string): seq<Byte> {
    if s == [] then [] else Utf8(s[0]) + Utf8String(s[1..])
  }

  /** Upper-case hexadecimal digit. */
  function HexDigit(d: int): (c: char)
    requires 0 <= d < 16
    ensures IsUriUnreserved(c)
  {
    if d < 10 then (48 + d) as char else (55 + d) as char
  }

  predicate IsHexDigit(c: char) {
    ('0' <= c <= '9') || ('A' <= c <= 'F') || ('a' <= c <= 'f')
  }

  function HexValue(c: char): (d: int)
    requires IsHexDigit(c)
    ensures 0 <= d < 16
  {
    if c <= '9' then c as int - 48 else if c <= 'F' then c as int - 55 else c as int - 87
  }

  function PercentEscape(b: Byte): string {
    ['%', HexDigit(b / 16), HexDigit(b % 16)]
  }

  function PercentEscapeAll(bs: seq<Byte>): string {
    if bs == [] then "" else PercentEscape(bs[0]) + PercentEscapeAll(bs[1..])
  }

  lemma {:induction false} PercentEscapeAllSafe(bs: seq<Byte>)
    ensures forall i :: 0 <= i < |PercentEscapeAll(bs)| ==> IsUriSafe(PercentEscapeAll(bs)[i])
  {
    if bs != [] {
      PercentEscapeAllSafe(bs[1..]);
    }
  }

  function EncodeChar(c: char): string {
    if IsUriUnreserved(c) then [c] else PercentEscapeAll(Utf8(c))
  }

  /** `encodeURIComponent(s)`. Every output character is URI-safe, and a
      string made only of unreserved characters is sent as it is. */
  function EncodeUriComponent(s: string): (r: string)
    ensures forall i :: 0 <= i < |r| ==> IsUriSafe(r[i])
    ensures (forall i :: 0 <= i < |s| ==> IsUriUnreserved(s[i])) ==> r == s
  {
    if s == [] then []
    else
      PercentEscapeAllSafe(Utf8(s[0]));
      EncodeChar(s[0]) + EncodeUriComponent(s[1..])
  }

  /** Percent-decoding to bytes, as `decodeURIComponent` does before
      reading the bytes as UTF-8; `None` for a malformed escape. */
  function DecodePercent(s: string): Option<seq<Byte>>
    decreases |s|
  {
    if s == [] then Some([])
    else if s[0] == '%' then
      if |s| < 3 || !IsHexDigit(s[1]) || !IsHexDigit(s[2]) then None
      else Prepend(16 * HexValue(s[1]) + HexValue(s[2]), DecodePercent(s[3..]))
    else if s[0] as int < 0x80 then Prepend(s[0] as int, DecodePercent(s[1..]))
    else None
  }

  function Prepend(b: Byte, rest: Option<seq<Byte>>): Option<seq<Byte>> {
    match rest
    case None => None
    case Some(bs) => Some([b] + bs)
  }

  function Concat(bs: seq<Byte>, rest: Option<seq<Byte>>): Option<seq<Byte>> {
    match rest
    case None => None
    case Some(cs) => Some(bs + cs)
  }

  lemma DecodeEscapeOne(b: Byte, u: string)
    ensures DecodePercent(PercentEscape(b) + u) == Prepend(b, DecodePercent(u))
  {
    var s := PercentEscape(b) + u;
    assert s[0] == '%' && s[1] == HexDigit(b / 16) && s[2] == HexDigit(b % 16);
    assert s[3..] == u;
    assert HexValue(HexDigit(b / 16)) == b / 16 && HexValue(HexDigit(b % 16)) == b % 16;
  }

  lemma {:induction false} DecodeEscapedPrefix(bs: seq<Byte>, t: string)
    ensures DecodePercent(PercentEscapeAll(bs) + t) == Concat(bs, DecodePercent(t))
    decreases |bs|
  {
    if bs == [] {
      assert PercentEscapeAll(bs) + t == t;
      ConcatEmpty(DecodePercent(t));
    } else {
      var u := PercentEscapeAll(bs[1..]) + t;
      DecodeEscapedPrefix(bs[1..], t);
      DecodeEscapedStep(bs, t, u);
    }
  }

  lemma ConcatEmpty(d: Option<seq<Byte>>)
    ensures Concat([], d) == d
  {
    match d
    case None =>
    case Some(cs) => assert [] + cs == cs;
  }

  /** One step of `DecodeEscapedPrefix`: the first byte's escape decodes
      in front of the decoding of the rest. */
  lemma DecodeEscapedStep(bs: seq<Byte>, t: string, u: string)
    requires bs != [] && u == PercentEscapeAll(bs[1..]) + t
    requires DecodePercent(u) == Concat(bs[1..], DecodePercent(t))
    ensures DecodePercent(PercentEscapeAll(bs) + t) == Concat(bs, DecodePercent(t))
  {
    var a := PercentEscape(bs[0]);
    assert PercentEscapeAll(bs) + t == a + u by {
      assert PercentEscapeAll(bs) == a + PercentEscapeAll(bs[1..]);
    }
    DecodeEscapeOne(bs[0], u);
    PrependConcat(bs[0], bs[1..], DecodePercent(t));
    assert [bs[0]] + bs[1..] == bs;
  }

  lemma PrependConcat(b: Byte, bs: seq<Byte>, d: Option<seq<Byte>>)
    ensures Prepend(b, Concat(bs, d)) == Concat([b] + bs, d)
  {
    match d
    case None =>
    case Some(cs) => assert [b] + (bs + cs) == [b] + bs + cs;
  }

  /** Encoding is lossless: percent-decoding the encoded component gives
      back the UTF-8 bytes of the original string. */
  lemma {:induction false} EncodeUriComponentRoundTrip(s: string)
    ensures DecodePercent(EncodeUriComponent(s)) == Some(Utf8String(s))
    decreases |s|
  {
    if s != [] {
      var c := s[0];
      var rest := EncodeUriComponent(s[1..]);
      EncodeUriComponentRoundTrip(s[1..]);
      if IsUriUnreserved(c) {
        assert ([c] + rest)[1..] == rest;
      } else {
        DecodeEscapedPrefix(Utf8(c), rest);
      }
    }
  }
}
