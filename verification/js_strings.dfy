/**
 * The JavaScript string operations the client relies on: `indexOf`,
 * `split` with a one-character separator, `replace` with a string pattern,
 * number-to-string conversion and the UTF-8 byte length `Buffer.from`
 * reports.
 */
module JsStrings {
  import opened Optional

  /** `pat` occurs in `s` starting at index `i`. */
  predicate MatchesAt(s: string, pat: string, i: nat)
  {
    i + |pat| <= |s| && s[i..i + |pat|] == pat
  }

  /** `s.indexOf(pat, from)`: the least index at or after `from` where `pat` occurs. */
  function IndexOfFrom(s: string, pat: string, from: nat): (r: Option<nat>)
    ensures r.Some? ==> from <= r.value && MatchesAt(s, pat, r.value)
    ensures r.Some? ==> forall j: nat :: from <= j < r.value ==> !MatchesAt(s, pat, j)
    ensures r.None? ==> forall j: nat :: from <= j ==> !MatchesAt(s, pat, j)
    decreases |s| - from
  {
    if |s| < from + |pat| then None
    else if s[from..from + |pat|] == pat then Some(from)
    else IndexOfFrom(s, pat, from + 1)
  }

  /** `s.indexOf(pat)`, with `None` for JavaScript's -1. */
  function IndexOf(s: string, pat: string): (r: Option<nat>)
    ensures r.Some? <==> exists j: nat :: MatchesAt(s, pat, j)
    ensures r.Some? ==> MatchesAt(s, pat, r.value)
    ensures r.Some? ==> forall j: nat :: j < r.value ==> !MatchesAt(s, pat, j)
  {
    IndexOfFrom(s, pat, 0)
  }

  /** `s.includes(pat)`, which is also what an unanchored literal regex test decides. */
  predicate Contains(s: string, pat: string)
  {
    IndexOf(s, pat).Some?
  }

  /** A pattern whose first character never appears in `s` cannot occur in `s`. */
  lemma AbsentFirstChar(s: string, pat: string)
    requires |pat| > 0 && pat[0] !in s
    ensures !Contains(s, pat)
  {
    forall j: nat | j + |pat| <= |s|
      ensures !MatchesAt(s, pat, j)
    {
      assert s[j..j + |pat|][0] == s[j];
    }
  }

  /** The first occurrence of `pat` in `p + pat + rest` is right after `p` when `p` lacks `pat[0]`. */
  lemma FirstOccurrenceAfterPrefix(p: string, pat: string, rest: string)
    requires |pat| > 0 && pat[0] !in p
    ensures IndexOf(p + pat + rest, pat) == Some(|p|)
  {
    var s := p + pat + rest;
    assert s[|p|..|p| + |pat|] == pat;
    forall j: nat | j < |p|
      ensures !MatchesAt(s, pat, j)
    {
      assert s[j] == p[j];
      assert s[j..j + |pat|][0] == s[j];
    }
    assert MatchesAt(s, pat, |p|);
    var k := IndexOf(s, pat).value;
    assert !(k < |p|) && !(|p| < k);
  }

  /** The first index of the character `c` in `s`. */
  function FirstIndex(s: string, c: char): (r: Option<nat>)
    ensures r.Some? ==> r.value < |s| && s[r.value] == c && c !in s[..r.value]
    ensures r.None? ==> c !in s
  {
    if |s| == 0 then None
    else if s[0] == c then Some(0)
    else
      assert s == [s[0]] + s[1..];
      match FirstIndex(s[1..], c)
      case None => None
      case Some(k) =>
        assert s[..k + 1] == [s[0]] + s[1..][..k];
        Some(k + 1)
  }

  /** The text of `s` before the first `c`, or all of `s` when there is none. */
  function Before(s: string, c: char): (r: string)
    ensures c !in r
    ensures r <= s
    ensures c in s ==> |r| < |s| && s[|r|] == c
    ensures c !in s ==> r == s
  {
    match FirstIndex(s, c)
    case None => s
    case Some(i) => s[..i]
  }

  /** The text of `s` after its first `c`. */
  function After(s: string, c: char): (r: string)
    requires c in s
    ensures s == Before(s, c) + [c] + r
  {
    var i := FirstIndex(s, c).value;
    assert s == s[..i] + [c] + s[i + 1..];
    s[i + 1..]
  }

  /** Cutting `p + [c] + rest` at its first `c`, when `p` has none, gives back `p` and `rest`. */
  lemma FirstIndexAfter(p: string, c: char, rest: string)
    requires c !in p
    ensures c in p + [c] + rest
    ensures Before(p + [c] + rest, c) == p
    ensures After(p + [c] + rest, c) == rest
  {
    var s := p + [c] + rest;
    assert s[|p|] == c;
    assert forall j :: 0 <= j < |p| ==> s[j] == p[j];
    assert s[..|p|] == p;
    assert s[|p| + 1..] == rest;
  }

  /** `s.split(sep)` for a one-character separator: the pieces between successive separators. */
  function Split(s: string, sep: char): (parts: seq<string>)
    ensures 1 <= |parts|
    ensures forall i :: 0 <= i < |parts| ==> sep !in parts[i]
    ensures parts[0] == Before(s, sep)
    ensures |parts| == 1 <==> sep !in s
    ensures sep in s ==> parts[1] == Before(After(s, sep), sep)
    decreases |s|
  {
    match FirstIndex(s, sep)
    case None => [s]
    case Some(i) =>
      assert s[i + 1..] == After(s, sep);
      [s[..i]] + Split(s[i + 1..], sep)
  }

  /** `parts.join(sep)`. */
  function Join(parts: seq<string>, sep: char): string
    decreases |parts|
  {
    if |parts| == 0 then ""
    else if |parts| == 1 then parts[0]
    else parts[0] + [sep] + Join(parts[1..], sep)
  }

  /** Splitting and re-joining on the same separator gives the original string back. */
  lemma {:induction false} SplitThenJoin(s: string, sep: char)
    ensures Join(Split(s, sep), sep) == s
    decreases |s|
  {
    match FirstIndex(s, sep)
    case None =>
    case Some(i) =>
      var rest := s[i + 1..];
      SplitThenJoin(rest, sep);
      var parts := Split(s, sep);
      assert parts == [s[..i]] + Split(rest, sep);
      assert parts[1..] == Split(rest, sep);
      assert s == s[..i] + [sep] + rest;
  }

  /** Joining separator-free pieces and splitting again gives the pieces back. */
  lemma {:induction false} JoinThenSplit(parts: seq<string>, sep: char)
    requires 1 <= |parts|
    requires forall i :: 0 <= i < |parts| ==> sep !in parts[i]
    ensures Split(Join(parts, sep), sep) == parts
    decreases |parts|
  {
    if |parts| > 1 {
      var tail := Join(parts[1..], sep);
      var s := parts[0] + [sep] + tail;
      FirstIndexAfter(parts[0], sep, tail);
      SplitStep(s, sep);
      JoinThenSplit(parts[1..], sep);
      assert parts == [parts[0]] + parts[1..];
    }
  }

  /** Splitting a string that holds the separator: the text before it, then the pieces of the text after it. */
  lemma SplitStep(s: string, sep: char)
    requires sep in s
    ensures Split(s, sep) == [Before(s, sep)] + Split(After(s, sep), sep)
  {
  }

  /** The characters that may follow `$` in a replacement pattern of a string-pattern `replace`. */
  predicate IsPatternChar(c: char)
  {
    c == '$' || c == '&' || c == '`' || c == '\''
  }

  /** What `$c` stands for: `$$` is `$`, `$&` the matched text, `` $` `` the text before the match, `$'` the text after it. */
  function PatternPiece(c: char, matched: string, before: string, after: string): string
  {
    if c == '$' then "$" else if c == '&' then matched else if c == '`' then before else after
  }

  /**
   * The replacement text for one match of `String.prototype.replace` with a
   * string pattern (no capture groups): each `$` followed by a pattern
   * character becomes its piece; every other character, including any
   * other `$`, is copied.
   */
  function ExpandReplacement(t: string, matched: string, before: string, after: string): (r: string)
    ensures '$' !in t ==> r == t
    decreases |t|
  {
    if |t| == 0 then ""
    else if t[0] == '$' && 2 <= |t| && IsPatternChar(t[1]) then
      PatternPiece(t[1], matched, before, after) + ExpandReplacement(t[2..], matched, before, after)
    else
      assert t == [t[0]] + t[1..];
      [t[0]] + ExpandReplacement(t[1..], matched, before, after)
  }

  /** A character other than `$` is copied. */
  lemma ExpandCopies(c: char, rest: string, matched: string, before: string, after: string)
    requires c != '$'
    ensures ExpandReplacement([c] + rest, matched, before, after) == [c] + ExpandReplacement(rest, matched, before, after)
  {
    assert ([c] + rest)[1..] == rest;
  }

  /** `$` and a pattern character give that character's piece. */
  lemma ExpandsPattern(c: char, rest: string, matched: string, before: string, after: string)
    requires IsPatternChar(c)
    ensures ExpandReplacement(['$', c] + rest, matched, before, after)
            == PatternPiece(c, matched, before, after) + ExpandReplacement(rest, matched, before, after)
  {
    assert (['$', c] + rest)[2..] == rest;
  }

  /** One more copied character in front of a prefix already copied unchanged. */
  lemma ExpandPrefixStep(x: char, p: string, rest: string, matched: string, before: string, after: string)
    requires x != '$'
    requires ExpandReplacement(p + rest, matched, before, after) == p + ExpandReplacement(rest, matched, before, after)
    ensures ExpandReplacement([x] + p + rest, matched, before, after) == [x] + p + ExpandReplacement(rest, matched, before, after)
  {
    assert [x] + p + rest == [x] + (p + rest);
    ExpandCopies(x, p + rest, matched, before, after);
  }

  /** A `$`-free prefix is copied unchanged in front of the expansion of the rest. */
  lemma {:induction false} ExpandFreePrefix(p: string, rest: string, matched: string, before: string, after: string)
    requires '$' !in p
    ensures ExpandReplacement(p + rest, matched, before, after) == p + ExpandReplacement(rest, matched, before, after)
    decreases |p|
  {
    if |p| == 0 {
      assert p + rest == rest;
    } else {
      assert p == [p[0]] + p[1..];
      ExpandFreePrefix(p[1..], rest, matched, before, after);
      ExpandPrefixStep(p[0], p[1..], rest, matched, before, after);
    }
  }

  /** One replacement pattern amid `$`-free text expands to its piece, and the text around it is copied. */
  lemma ExpandOnePattern(p: string, c: char, q: string, matched: string, before: string, after: string)
    requires '$' !in p && '$' !in q && IsPatternChar(c)
    ensures ExpandReplacement(p + ['$', c] + q, matched, before, after)
            == p + PatternPiece(c, matched, before, after) + q
  {
    var piece := PatternPiece(c, matched, before, after);
    assert p + ['$', c] + q == p + (['$', c] + q);
    ExpandFreePrefix(p, ['$', c] + q, matched, before, after);
    ExpandsPattern(c, q, matched, before, after);
    assert p + (piece + q) == p + piece + q;
  }

  /** `s.replace(pat, replacement)` with a string `pat`: only the first occurrence is replaced. */
  function ReplaceFirst(s: string, pat: string, replacement: string): (r: string)
    ensures !Contains(s, pat) ==> r == s
  {
    match IndexOf(s, pat)
    case None => s
    case Some(i) =>
      var tail := s[i + |pat|..];
      s[..i] + ExpandReplacement(replacement, pat, s[..i], tail) + tail
  }

  /** With a `$`-free replacement, the first occurrence is swapped for it and every other character is kept. */
  lemma ReplaceFirstOccurrence(s: string, pat: string, v: string, i: nat)
    requires '$' !in v
    requires MatchesAt(s, pat, i)
    requires forall j: nat :: j < i ==> !MatchesAt(s, pat, j)
    ensures ReplaceFirst(s, pat, v) == s[..i] + v + s[i + |pat|..]
  {
    var k := IndexOf(s, pat).value;
    assert !(k < i) && !(i < k);
  }

  /** The common shape of a template: a placeholder right after text that cannot start it. */
  lemma ReplaceAfterPrefix(p: string, pat: string, rest: string, v: string)
    requires |pat| > 0 && pat[0] !in p
    requires '$' !in v
    ensures ReplaceFirst(p + pat + rest, pat, v) == p + v + rest
  {
    var s := p + pat + rest;
    FirstOccurrenceAfterPrefix(p, pat, rest);
    assert s[..|p|] == p;
    assert s[|p| + |pat|..] == rest;
  }

  /** The decimal digit character for `d`. */
  function DigitChar(d: nat): (c: char)
    requires d < 10
    ensures '0' <= c <= '9'
  {
    ('0' as int + d) as char
  }

  /** The decimal numeral of a natural number, as `Number.prototype.toString` writes integers. */
  function NatToString(n: nat): (s: string)
    ensures 1 <= |s|
    ensures forall i :: 0 <= i < |s| ==> '0' <= s[i] <= '9'
    ensures n > 0 ==> s[0] != '0'
    ensures n == 0 ==> s == "0"
  {
    if n < 10 then [DigitChar(n)] else NatToString(n / 10) + [DigitChar(n % 10)]
  }

  /** The value of a string of decimal digits. */
  function DigitsValue(s: string): nat
    requires forall i :: 0 <= i < |s| ==> '0' <= s[i] <= '9'
  {
    if |s| == 0 then 0
    else DigitsValue(s[..|s| - 1]) * 10 + (s[|s| - 1] as int - '0' as int)
  }

  /** Reading back a numeral gives the number it was written from. */
  lemma {:induction false} NatToStringRoundTrip(n: nat)
    ensures DigitsValue(NatToString(n)) == n
  {
    if n >= 10 {
      NatToStringRoundTrip(n / 10);
      var s := NatToString(n);
      assert s[..|s| - 1] == NatToString(n / 10);
    }
  }

  /** The decimal numeral of an integer, with a leading `-` when it is negative. */
  function IntToString(n: int): string
  {
    if n < 0 then "-" + NatToString(-n) else NatToString(n)
  }

  /** The number of UTF-8 bytes that encode `c`. */
  function Utf8Width(c: char): nat
  {
    if c as int < 0x80 then 1
    else if c as int < 0x800 then 2
    else if c as int < 0x1_0000 then 3
    else 4
  }

  predicate IsAscii(s: string)
  {
    forall i :: 0 <= i < |s| ==> s[i] as int < 0x80
  }

  /** `Buffer.from(s).length`: the UTF-8 byte length of `s`. */
  function Utf8Length(s: string): (n: nat)
    ensures |s| <= n <= 4 * |s|
    ensures IsAscii(s) ==> n == |s|
  {
    if |s| == 0 then 0
    else
      assert IsAscii(s) ==> IsAscii(s[1..]);
      Utf8Width(s[0]) + Utf8Length(s[1..])
  }
}
