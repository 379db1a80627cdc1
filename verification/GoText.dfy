/**
  Text as the manager server sees it. A Go string, like a SQLite text value, is
  a sequence of bytes; it is modelled by a `string` whose characters are the
  bytes, which Bytes states where it matters. The functions are the ones the
  identity code calls: trimming in its two flavours, ASCII case folding and
  byte counting.
 */
module GoText {

  ghost predicate Bytes(s: string) {
    forall i | 0 <= i < |s| :: s[i] as int < 256
  }

  ghost predicate Ascii(s: string) {
    forall i | 0 <= i < |s| :: s[i] as int < 128
  }

  // ----- strings.Trim(s, " "), which is also SQLite's trim(s) -----

  function TrimLeft(s: string): (r: string)
    ensures |r| <= |s| && r == s[|s| - |r|..]
  {
    if |s| > 0 && s[0] == ' ' then TrimLeft(s[1..]) else s
  }

  function TrimRight(s: string): (r: string)
    ensures r <= s
    ensures |r| > 0 ==> r[|r| - 1] != ' '
    ensures |s| > 0 && s[0] != ' ' ==> |r| > 0
  {
    if |s| > 0 && s[|s| - 1] == ' ' then TrimRight(s[..|s| - 1]) else s
  }

  function TrimBlanks(s: string): string {
    TrimRight(TrimLeft(s))
  }

  lemma {:induction false} TrimLeftStops(s: string)
    ensures |TrimLeft(s)| > 0 ==> TrimLeft(s)[0] != ' '
  {
    if |s| > 0 && s[0] == ' ' { TrimLeftStops(s[1..]); }
  }

  /** Trimming leaves no blank at either end, so trimming again changes nothing. */
  lemma TrimBlanksIdempotent(s: string)
    ensures var t := TrimBlanks(s);
            (|t| > 0 ==> t[0] != ' ' && t[|t| - 1] != ' ') && TrimBlanks(t) == t
  {
    TrimLeftStops(s);
  }

  // ----- strings.TrimSpace, which also strips other white space -----

  predicate AsciiSpace(c: char) {
    c == ' ' || 9 <= c as int <= 13
  }

  /** Tab, line feed, vertical tab, form feed, carriage return and blank. */
  lemma AsciiSpaces(c: char)
    ensures AsciiSpace(c) <==> c as int in {0x09, 0x0A, 0x0B, 0x0C, 0x0D, 0x20}
  {
  }

  /** The UTF-8 encodings of the white space characters beyond ASCII. */
  predicate WideSpace(s: string) {
    || (|s| == 2 && s[0] as int == 0xC2 && (s[1] as int == 0x85 || s[1] as int == 0xA0))
    || (|s| == 3 && s[0] as int == 0xE1 && s[1] as int == 0x9A && s[2] as int == 0x80)
    || (|s| == 3 && s[0] as int == 0xE2 && s[1] as int == 0x80
        && (0x80 <= s[2] as int <= 0x8A || s[2] as int == 0xA8 || s[2] as int == 0xA9 || s[2] as int == 0xAF))
    || (|s| == 3 && s[0] as int == 0xE2 && s[1] as int == 0x81 && s[2] as int == 0x9F)
    || (|s| == 3 && s[0] as int == 0xE3 && s[1] as int == 0x80 && s[2] as int == 0x80)
  }

  // ----- What white space is -----

  /** The white space characters of Unicode beyond ASCII, as strings.TrimSpace knows them. */
  predicate UnicodeSpace(code: int) {
    0x2000 <= code <= 0x200A || code in {0x85, 0xA0, 0x1680, 0x2028, 0x2029, 0x202F, 0x205F, 0x3000}
  }

  /** The UTF-8 encoding of a character beyond ASCII in the basic plane (RFC 3629, section 3). */
  function Utf8(code: int): string
    requires 0x80 <= code < 0xD800
  {
    if code < 0x800 then [(0xC0 + code / 64) as char, (0x80 + code % 64) as char]
    else [(0xE0 + code / 4096) as char, (0x80 + code / 64 % 64) as char, (0x80 + code % 64) as char]
  }

  lemma EncodedSpace(code: int)
    requires UnicodeSpace(code)
    ensures WideSpace(Utf8(code))
  {
  }

  lemma SpaceDecoded(s: string) returns (code: int)
    requires WideSpace(s)
    ensures UnicodeSpace(code) && s == Utf8(code)
  {
    code := if |s| == 2 then (s[0] as int - 0xC0) * 64 + (s[1] as int - 0x80)
      else (s[0] as int - 0xE0) * 4096 + (s[1] as int - 0x80) * 64 + (s[2] as int - 0x80);
  }

  /** A byte sequence is taken for white space exactly when it is the encoding of a white space character. */
  lemma WideSpaceExactly(s: string)
    ensures WideSpace(s) <==> exists code :: UnicodeSpace(code) && s == Utf8(code)
  {
    hide WideSpace, Utf8;
    if WideSpace(s) {
      var code := SpaceDecoded(s);
    }
    forall code | UnicodeSpace(code) ensures WideSpace(Utf8(code)) { EncodedSpace(code); }
  }

  /** The length of the white space character at the start, zero if there is none. */
  function LeadingSpace(s: string): (n: nat)
    ensures n <= |s|
  {
    if |s| >= 1 && AsciiSpace(s[0]) then 1
    else if |s| >= 2 && WideSpace(s[..2]) then 2
    else if |s| >= 3 && WideSpace(s[..3]) then 3
    else 0
  }

  function TrailingSpace(s: string): (n: nat)
    ensures n <= |s|
  {
    if |s| >= 1 && AsciiSpace(s[|s| - 1]) then 1
    else if |s| >= 2 && WideSpace(s[|s| - 2..]) then 2
    else if |s| >= 3 && WideSpace(s[|s| - 3..]) then 3
    else 0
  }

  function TrimSpaceLeft(s: string): string
    decreases |s|
  {
    var n := LeadingSpace(s);
    if n == 0 then s else TrimSpaceLeft(s[n..])
  }

  function TrimSpaceRight(s: string): (r: string)
    ensures r <= s && TrailingSpace(r) == 0
    decreases |s|
  {
    var n := TrailingSpace(s);
    if n == 0 then s else TrimSpaceRight(s[..|s| - n])
  }

  function TrimSpace(s: string): string {
    TrimSpaceRight(TrimSpaceLeft(s))
  }

  /** The only white space at the ends of s is the ASCII blank. */
  ghost predicate PlainEnds(s: string) {
    LeadingSpace(TrimBlanks(s)) == 0 && TrailingSpace(TrimBlanks(s)) == 0
  }

  lemma {:induction false} TrimSpaceLeftPlain(s: string)
    requires LeadingSpace(TrimLeft(s)) == 0
    ensures TrimSpaceLeft(s) == TrimLeft(s)
  {
    if |s| > 0 && s[0] == ' ' {
      assert LeadingSpace(s) == 1;
      TrimSpaceLeftPlain(s[1..]);
    }
  }

  lemma {:induction false} TrimSpaceRightPlain(s: string)
    requires TrailingSpace(TrimRight(s)) == 0
    ensures TrimSpaceRight(s) == TrimRight(s)
  {
    if |s| > 0 && s[|s| - 1] == ' ' {
      assert TrailingSpace(s) == 1;
      TrimSpaceRightPlain(s[..|s| - 1]);
    }
  }

  lemma WideSpaceHasNoBlank(s: string, k: nat)
    requires WideSpace(s) && k < |s|
    ensures s[k] != ' '
  {
  }

  /** Blanks behind a text do not turn its start into white space. */
  lemma LeadingSpacePrefix(s: string)
    requires |s| > 0 ==> s[0] != ' '
    requires LeadingSpace(TrimRight(s)) == 0
    ensures LeadingSpace(s) == 0
  {
    var r := TrimRight(s);
    if r != s {
      TrimRightCut(s);
      if |s| >= 2 && WideSpace(s[..2]) { WideSpaceSurvives(s, 2); }
      if |s| >= 3 && WideSpace(s[..3]) { WideSpaceSurvives(s, 3); }
    }
  }

  lemma WideSpaceSurvives(s: string, n: nat)
    requires TrimRight(s) != s && n <= |s| && WideSpace(s[..n])
    ensures n <= |TrimRight(s)| && WideSpace(TrimRight(s)[..n])
  {
    TrimRightCut(s);
    var r := TrimRight(s);
    if |r| < n {
      WideSpaceHasNoBlank(s[..n], |r|);
    }
    assert r[..n] == s[..n];
  }

  lemma {:induction false} TrimRightCut(s: string)
    requires TrimRight(s) != s
    ensures |TrimRight(s)| < |s| && s[|TrimRight(s)|] == ' '
  {
    var t := s[..|s| - 1];
    if TrimRight(t) != t { TrimRightCut(t); }
  }

  /** For text whose ends are plain, the two ways of trimming agree. */
  lemma TrimsAgree(s: string)
    requires PlainEnds(s)
    ensures TrimSpace(s) == TrimBlanks(s)
  {
    TrimLeftStops(s);
    LeadingSpacePrefix(TrimLeft(s));
    TrimSpaceLeftPlain(s);
    TrimSpaceRightPlain(TrimLeft(s));
  }

  /** Already trimmed text is left alone. */
  lemma TrimSpaceFixed(s: string)
    requires LeadingSpace(s) == 0 && TrailingSpace(s) == 0
    ensures TrimSpace(s) == s && TrimBlanks(s) == s
  {
  }

  /** A printing character of ASCII. */
  predicate Printable(c: char) {
    0x20 < c as int < 0x7F
  }

  lemma WideSpaceNotPrintable(s: string, k: nat)
    requires WideSpace(s) && k < |s|
    ensures !Printable(s[k])
  {
  }

  lemma PrintableStart(s: string)
    requires |s| > 0 && Printable(s[0])
    ensures LeadingSpace(s) == 0
  {
    hide WideSpace;
    if |s| >= 2 && WideSpace(s[..2]) { WideSpaceNotPrintable(s[..2], 0); }
    if |s| >= 3 && WideSpace(s[..3]) { WideSpaceNotPrintable(s[..3], 0); }
  }

  lemma PrintableEnd(s: string)
    requires |s| > 0 && Printable(s[|s| - 1])
    ensures TrailingSpace(s) == 0
  {
    hide WideSpace;
    if |s| >= 2 && WideSpace(s[|s| - 2..]) { WideSpaceNotPrintable(s[|s| - 2..], 1); }
    if |s| >= 3 && WideSpace(s[|s| - 3..]) { WideSpaceNotPrintable(s[|s| - 3..], 2); }
  }

  /** A text that starts and ends with such a character is left alone. */
  lemma PrintableEnds(s: string)
    requires |s| > 0 && Printable(s[0]) && Printable(s[|s| - 1])
    ensures TrimSpace(s) == s && TrimBlanks(s) == s
  {
    hide *;
    PrintableStart(s);
    PrintableEnd(s);
    TrimSpaceFixed(s);
  }

  lemma {:induction false} TrimSpaceLeftStops(s: string)
    ensures LeadingSpace(TrimSpaceLeft(s)) == 0
    decreases |s|
  {
    if LeadingSpace(s) != 0 { TrimSpaceLeftStops(s[LeadingSpace(s)..]); }
  }

  lemma TrimSpaceIdempotent(s: string)
    ensures LeadingSpace(TrimSpace(s)) == 0 && TrailingSpace(TrimSpace(s)) == 0
    ensures TrimSpace(TrimSpace(s)) == TrimSpace(s) && TrimBlanks(TrimSpace(s)) == TrimSpace(s)
  {
    TrimSpaceLeftStops(s);
    var t := TrimSpaceLeft(s);
    var r := TrimSpaceRight(t);
    assert |r| >= 2 ==> r[..2] == t[..2];
    assert |r| >= 3 ==> r[..3] == t[..3];
    TrimSpaceFixed(r);
  }

  // ----- Trimming blanks first changes nothing for TrimSpace -----

  lemma {:induction false} TrimSpaceLeftBlanks(s: string)
    ensures TrimSpaceLeft(TrimLeft(s)) == TrimSpaceLeft(s)
  {
    if |s| > 0 && s[0] == ' ' {
      assert LeadingSpace(s) == 1;
      TrimSpaceLeftBlanks(s[1..]);
    }
  }

  lemma {:induction false} TrimSpaceRightBlanks(s: string)
    ensures TrimSpaceRight(TrimRight(s)) == TrimSpaceRight(s)
  {
    if |s| > 0 && s[|s| - 1] == ' ' {
      assert TrailingSpace(s) == 1;
      TrimSpaceRightBlanks(s[..|s| - 1]);
    }
  }

  /** Cutting blanks off the end, seen from any point of the text. */
  lemma {:induction false} TrimRightFrom(s: string, n: nat)
    requires n <= |s| && n > 0
    ensures s[n - 1] != ' ' ==> n <= |TrimRight(s)| && TrimRight(s)[n..] == TrimRight(s[n..])
    ensures TrimRight(s) != "" && n == 1 ==> TrimRight(s)[n..] == TrimRight(s[n..])
    ensures TrimRight(s) == "" ==> TrimRight(s[n..]) == ""
  {
    if n < |s| && s[|s| - 1] == ' ' {
      TrimRightFrom(s[..|s| - 1], n);
      assert s[n..][..|s| - n - 1] == s[..|s| - 1][n..];
    }
  }

  /** The two ends are trimmed independently. */
  lemma {:induction false} TrimsCommute(s: string)
    ensures TrimSpaceLeft(TrimRight(s)) == TrimRight(TrimSpaceLeft(s))
    decreases |s|
  {
    var n, r := LeadingSpace(s), TrimRight(s);
    assert |r| >= 2 ==> r[..2] == s[..2];
    assert |r| >= 3 ==> r[..3] == s[..3];
    if n != 0 {
      TrimsCommute(s[n..]);
      TrimRightFrom(s, n);
      if n > 1 { WideSpaceHasNoBlank(s[..n], n - 1); }
    }
  }

  lemma BlanksFirst(s: string)
    ensures TrimSpace(TrimBlanks(s)) == TrimSpace(s)
    ensures TrimBlanks(s) == "" ==> TrimSpace(s) == ""
  {
    hide TrimSpaceLeft, TrimSpaceRight, TrimLeft, TrimRight;
    TrimsCommute(TrimLeft(s));
    TrimSpaceLeftBlanks(s);
    TrimSpaceRightBlanks(TrimSpaceLeft(TrimLeft(s)));
    NothingToTrim();
  }

  lemma NothingToTrim()
    ensures TrimSpace("") == "" && TrimBlanks("") == ""
  {
  }

  // ----- Case and counting -----

  /** A capital letter becomes the small one at its place in the alphabet, anything else stays. */
  function LowerChar(c: char): (r: char)
    ensures 'A' <= c <= 'Z' <==> r != c
    ensures r != c ==> 'a' <= r <= 'z' && r as int - 'a' as int == c as int - 'A' as int
  {
    if 'A' <= c <= 'Z' then (c as int + 32) as char else c
  }

  function Lower(s: string): (r: string)
    ensures |r| == |s| && forall i | 0 <= i < |s| :: r[i] == LowerChar(s[i])
  {
    seq(|s|, i requires 0 <= i < |s| => LowerChar(s[i]))
  }

  /** strings.ReplaceAll(s, from, to) for a one-byte `from`. */
  function Replace(s: string, from: char, to: string): string {
    if |s| == 0 then ""
    else (if s[0] == from then to else [s[0]]) + Replace(s[1..], from, to)
  }

  function Count(s: string, c: char): nat {
    if |s| == 0 then 0 else (if s[0] == c then 1 else 0) + Count(s[1..], c)
  }

  /** The index of the first c, or |s|. */
  function IndexOf(s: string, c: char): (i: nat)
    ensures i <= |s| && (i < |s| ==> s[i] == c) && forall k | 0 <= k < i :: s[k] != c
  {
    if |s| == 0 || s[0] == c then 0 else 1 + IndexOf(s[1..], c)
  }

  lemma {:induction false} RemovingCounts(s: string, c: char)
    ensures |Replace(s, c, "")| == |s| - Count(s, c)
  {
    if |s| > 0 { RemovingCounts(s[1..], c); }
  }

  lemma {:induction false} CountFindsFirst(s: string, c: char)
    ensures Count(s, c) > 0 <==> IndexOf(s, c) < |s|
  {
    if |s| > 0 && s[0] != c { CountFindsFirst(s[1..], c); }
  }
}
