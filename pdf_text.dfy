/**
 * The two text helpers of the PDF upload page (app/components/pdfpload.jsx):
 * `formatTime`, which renders a number of seconds as a `MM:SS` clock, and
 * `parseBoldText`, which cuts one paragraph of the summary at its `**…**`
 * markup and turns every marked part into a bold segment.
 */
module PdfText {
  import opened Wrappers
  import opened Js

  // ---------------------------------------------------------------------
  // formatTime
  // ---------------------------------------------------------------------

  /** One clock field: the integer's `toString()` padded with '0' to at least two characters. */
  function ClockField(i: int): (f: string)
    ensures |f| >= 2
  {
    PadStart(IntToString(i), 2, '0')
  }

  /**
   * A clock field of a non-negative value is a string of at least two
   * decimal digits worth exactly that value, and exactly two when the value
   * is below 100.
   */
  lemma ClockFieldValue(i: int)
    ensures |ClockField(i)| >= 2
    ensures i >= 0 ==> AllDigits(ClockField(i)) && DigitsValue(ClockField(i)) == i
    ensures 0 <= i < 100 ==> |ClockField(i)| == 2
  {
    var digits := IntToString(i);
    var f := ClockField(i);
    if i >= 0 {
      NatToStringValue(i);
      NatToStringShort(i);
      LeadingZerosValue(digits, |f| - |digits|);
      assert f == Repeat('0', |f| - |digits|) + digits;
    }
  }

  /** `formatTime(seconds)`: whole minutes, a colon, the remaining seconds. */
  function FormatTime(seconds: int): (r: string)
    ensures |r| >= 5
  {
    var mins := FloorDiv(seconds, 60);
    var secs := Remainder(seconds, 60);
    ClockField(mins) + ":" + ClockField(secs)
  }

  /**
   * Reads a clock written as `MM:SS` back into seconds: a non-empty field of
   * minute digits, a colon, and exactly two digits of seconds.
   */
  function ParseClock(t: string): Option<nat> {
    if |t| >= 4 && t[|t| - 3] == ':' && AllDigits(t[..|t| - 3]) && AllDigits(t[|t| - 2..])
    then Some(DigitsValue(t[..|t| - 3]) * 60 + DigitsValue(t[|t| - 2..]))
    else None
  }

  /**
   * `t` is a clock `MM:SS`: a field of at least two digits worth `mins`, a
   * colon, and a field of exactly two digits worth `secs`.
   */
  predicate IsClock(t: string, mins: nat, secs: nat) {
    |t| >= 5 && t[|t| - 3] == ':' &&
    AllDigits(t[..|t| - 3]) && DigitsValue(t[..|t| - 3]) == mins &&
    AllDigits(t[|t| - 2..]) && DigitsValue(t[|t| - 2..]) == secs
  }

  /**
   * For every non-negative number of seconds, `formatTime` writes a minutes
   * field of at least two digits (never truncated, so 100 minutes or more stay
   * whole), a colon and a two-digit seconds field below 60, and the clock reads
   * back to exactly the seconds it was made from.
   */
  lemma FormatTimeIsClock(seconds: nat)
    ensures IsClock(FormatTime(seconds), seconds / 60, seconds % 60) && seconds % 60 < 60
    ensures ParseClock(FormatTime(seconds)) == Some(seconds)
  {
    FormatTimeFields(seconds);
    var mins, secs := seconds / 60, seconds % 60;
    ClockFieldValue(mins);
    ClockFieldValue(secs);
    ClockReads(FormatTime(seconds), ClockField(mins), ClockField(secs), mins, secs, seconds);
  }

  /** For a non-negative count, the two fields are the quotient and remainder by 60. */
  lemma FormatTimeFields(seconds: nat)
    ensures seconds / 60 * 60 + seconds % 60 == seconds && seconds % 60 < 60
    ensures FormatTime(seconds) == ClockField(seconds / 60) + ":" + ClockField(seconds % 60)
  {
    assert FloorDiv(seconds, 60) == seconds / 60;
    assert Remainder(seconds, 60) == seconds % 60;
  }

  /** A minutes field, a colon and a two-digit seconds field: their values, and how the clock reads. */
  lemma ClockReads(t: string, m: string, s: string, mins: nat, secs: nat, total: nat)
    requires |m| >= 2 && AllDigits(m) && DigitsValue(m) == mins
    requires |s| == 2 && AllDigits(s) && DigitsValue(s) == secs
    requires t == m + ":" + s && total == mins * 60 + secs
    ensures IsClock(t, mins, secs)
    ensures ParseClock(t) == Some(total)
  {
    assert t[..|t| - 3] == m && t[|t| - 2..] == s;
  }

  lemma FormatTimeZero()
    ensures FormatTime(0) == "00:00"
  {
  }

  /**
   * A negative count, which the page never produces, shows the JavaScript
   * arithmetic: `Math.floor` rounds the minutes down, `%` keeps the sign.
   */
  lemma FormatTimeNegative()
    ensures FormatTime(-1) == "-1:-1"
  {
    assert FloorDiv(-1, 60) == -1 && Remainder(-1, 60) == -1;
    assert NatToString(1) == "1";
    assert ClockField(-1) == "-1";
  }

  lemma {:induction false} LeadingZerosValue(s: string, n: nat)
    requires AllDigits(s)
    ensures AllDigits(Repeat('0', n) + s)
    ensures DigitsValue(Repeat('0', n) + s) == DigitsValue(s)
    decreases n
  {
    if n > 0 {
      LeadingZerosValue(s, n - 1);
      var z := Repeat('0', n - 1) + s;
      assert Repeat('0', n) == ['0'] + Repeat('0', n - 1);
      assert Repeat('0', n) + s == ['0'] + z;
      LeadingZeroValue(z);
    } else {
      assert Repeat('0', n) + s == s;
    }
  }

  lemma {:induction false} LeadingZeroValue(s: string)
    requires AllDigits(s)
    ensures AllDigits(['0'] + s) && DigitsValue(['0'] + s) == DigitsValue(s)
    decreases |s|
  {
    if s != [] {
      var z := ['0'] + s;
      assert z[..|z| - 1] == ['0'] + s[..|s| - 1];
      LeadingZeroValue(s[..|s| - 1]);
    }
  }

  lemma NatToStringShort(n: nat)
    ensures n < 100 ==> |NatToString(n)| <= 2
  {
    if 10 <= n < 100 {
      assert NatToString(n) == NatToString(n / 10) + [DigitChar(n % 10)];
    }
  }

  // ---------------------------------------------------------------------
  // parseBoldText
  // ---------------------------------------------------------------------

  /** A rendered piece of a paragraph: text as it is, or text inside `<strong>`. */
  datatype Segment = Plain(text: string) | Bold(text: string)

  /** The characters that the regular-expression `.` does not match. */
  predicate IsLineTerminator(c: char) {
    c == '\n' || c == '\r' || c == '\U{2028}' || c == '\U{2029}'
  }

  /** A `**` marker starts at position `k` of `s`. */
  predicate MarkerAt(s: string, k: int) {
    0 <= k && k + 2 <= |s| && s[k] == '*' && s[k + 1] == '*'
  }

  predicate HasMarker(s: string) {
    exists k :: 0 <= k < |s| && MarkerAt(s, k)
  }

  predicate NoLineTerminator(s: string) {
    forall i :: 0 <= i < |s| ==> !IsLineTerminator(s[i])
  }

  /** `m` belongs to the language of `\*\*.*\*\*`: two markers around line-terminator-free text. */
  predicate InPattern(m: string) {
    |m| >= 4 && StartsWith(m, "**") && EndsWith(m, "**") && NoLineTerminator(m[2..|m| - 2])
  }

  /**
   * The lazy `.*?\*\*` part of the pattern, tried from position `k`: the first
   * marker at or after `k`, provided no line terminator comes before it.
   */
  function FindClose(s: string, k: nat): (r: Option<nat>)
    requires k <= |s|
    ensures r.Some? ==> k <= r.value && r.value + 2 <= |s|
    decreases |s| - k
  {
    if k + 2 > |s| then None
    else if MarkerAt(s, k) then Some(k)
    else if IsLineTerminator(s[k]) then None
    else FindClose(s, k + 1)
  }

  /**
   * `FindClose` finds the nearest closing marker: the marker it returns has
   * no line terminator and no other marker before it, and when it returns
   * nothing, every marker after `k` has a line terminator in front of it.
   */
  lemma {:induction false} FindCloseIsNearest(s: string, k: nat)
    requires k <= |s|
    ensures var r := FindClose(s, k);
            r.Some? ==> MarkerAt(s, r.value) && NoLineTerminator(s[k..r.value]) &&
                         forall j :: k <= j < r.value ==> !MarkerAt(s, j)
    ensures FindClose(s, k).None? ==>
              forall j :: k <= j <= |s| && NoLineTerminator(s[k..j]) ==> !MarkerAt(s, j)
    decreases |s| - k
  {
    if k + 2 <= |s| && !MarkerAt(s, k) && !IsLineTerminator(s[k]) {
      FindCloseIsNearest(s, k + 1);
      var r := FindClose(s, k + 1);
      assert forall j :: k + 1 <= j <= |s| && NoLineTerminator(s[k..j]) ==> NoLineTerminator(s[k + 1..j]);
      assert r.Some? ==> s[k..r.value] == [s[k]] + s[k + 1..r.value];
    }
  }

  /** The end of the match of `\*\*.*?\*\*` that starts exactly at `q`, if any. */
  function MatchAt(s: string, q: nat): (r: Option<nat>)
    requires q <= |s|
    ensures r.Some? ==> q + 4 <= r.value <= |s|
  {
    if MarkerAt(s, q) then
      match FindClose(s, q + 2)
      case Some(k) => Some(k + 2)
      case None => None
    else None
  }

  /**
   * `MatchAt` agrees with the pattern's language and picks the SHORTEST
   * match (the `?` of `.*?`): what it returns is in the pattern, no shorter
   * piece from `q` is, and the text between the markers holds no `**`.
   * When it finds nothing, no piece of `s` starting at `q` is in the pattern.
   */
  lemma MatchAtIsShortest(s: string, q: nat)
    requires q <= |s|
    ensures MatchAt(s, q).Some? ==>
              var e := MatchAt(s, q).value;
              IsBoldMatch(s[q..e]) &&
              forall e' :: q <= e' < e ==> !InPattern(s[q..e'])
    ensures MatchAt(s, q).None? ==> forall e' :: q <= e' <= |s| ==> !InPattern(s[q..e'])
  {
    match MatchAt(s, q)
    case Some(e) =>
      MatchIsBold(s, q, e);
      MatchIsShortest(s, q, e);
    case None =>
      NoMatchNoPattern(s, q);
  }

  /** The piece `MatchAt` returns is a whole lazy match. */
  lemma MatchIsBold(s: string, q: nat, e: nat)
    requires q <= |s| && MatchAt(s, q) == Some(e)
    ensures IsBoldMatch(s[q..e])
  {
    FindCloseIsNearest(s, q + 2);
    var k := e - 2;
    assert FindClose(s, q + 2) == Some(k);
    var m := s[q..e];
    var inner := s[q + 2..k];
    SliceOfSlice(s, q, e, 0, 2);
    SliceOfSlice(s, q, e, |m| - 2, |m|);
    SliceOfSlice(s, q, e, 2, |m| - 2);
    if HasMarker(inner) {
      var j :| 0 <= j < |inner| && MarkerAt(inner, j);
      assert MarkerAt(s, q + 2 + j);
    }
  }

  lemma SliceOfSlice(s: string, a: nat, b: nat, c: nat, d: nat)
    requires a <= b <= |s| && c <= d <= b - a
    ensures s[a..b][c..d] == s[a + c..a + d]
  {
    forall i | 0 <= i < d - c ensures s[a..b][c..d][i] == s[a + c..a + d][i] {
      assert s[a..b][c..d][i] == s[a..b][c + i] == s[a + c + i];
    }
  }

  /** No piece from `q` shorter than the one `MatchAt` returns is in the pattern. */
  lemma MatchIsShortest(s: string, q: nat, e: nat)
    requires q <= |s| && MatchAt(s, q) == Some(e)
    ensures forall e' :: q <= e' < e ==> !InPattern(s[q..e'])
  {
    FindCloseIsNearest(s, q + 2);
    assert FindClose(s, q + 2) == Some(e - 2);
    forall e' | q <= e' < e ensures !InPattern(s[q..e']) {
      if InPattern(s[q..e']) {
        PatternAt(s, q, e');
      }
    }
  }

  /** When `MatchAt` finds nothing, no piece from `q` is in the pattern. */
  lemma NoMatchNoPattern(s: string, q: nat)
    requires q <= |s| && MatchAt(s, q).None?
    ensures forall e' :: q <= e' <= |s| ==> !InPattern(s[q..e'])
  {
    if MarkerAt(s, q) {
      FindCloseIsNearest(s, q + 2);
    }
    forall e' | q <= e' <= |s| ensures !InPattern(s[q..e']) {
      if InPattern(s[q..e']) {
        PatternAt(s, q, e');
      }
    }
  }

  /** A piece `s[q..e]` in the pattern, seen from `s`. */
  lemma PatternAt(s: string, q: nat, e: nat)
    requires q <= e <= |s| && InPattern(s[q..e])
    ensures MarkerAt(s, q) && MarkerAt(s, e - 2) && NoLineTerminator(s[q + 2..e - 2])
  {
    var m := s[q..e];
    assert m[..2] == "**" && m[|m| - 2..] == "**";
    assert m[0] == s[q] && m[1] == s[q + 1];
    assert m[|m| - 2] == s[e - 2] && m[|m| - 1] == s[e - 1];
    var inner := s[q + 2..e - 2];
    forall i | 0 <= i < |inner| ensures !IsLineTerminator(inner[i]) {
      assert inner[i] == m[2 + i] == m[2..|m| - 2][i];
    }
  }

  /** A whole lazy match: in the pattern, and no `**` between its two markers. */
  predicate IsBoldMatch(m: string) {
    InPattern(m) && !HasMarker(m[2..|m| - 2])
  }

  /** No match of the pattern starts anywhere in `lo..hi`. */
  ghost predicate NoMatchIn(s: string, lo: nat, hi: nat)
    requires hi <= |s|
    decreases hi
  {
    hi <= lo || (NoMatchIn(s, lo, hi - 1) && MatchAt(s, hi - 1).None?)
  }

  lemma {:induction false} NoMatchInAt(s: string, lo: nat, hi: nat, q: nat)
    requires hi <= |s| && NoMatchIn(s, lo, hi) && lo <= q < hi
    ensures MatchAt(s, q).None?
    decreases hi
  {
    if q < hi - 1 {
      NoMatchInAt(s, lo, hi - 1, q);
    }
  }

  lemma {:induction false} NoMatchInFromAll(s: string, lo: nat, hi: nat)
    requires hi <= |s| && forall q :: lo <= q < hi ==> MatchAt(s, q).None?
    ensures NoMatchIn(s, lo, hi)
    decreases hi
  {
    if lo < hi {
      NoMatchInFromAll(s, lo, hi - 1);
    }
  }

  /**
   * `s[p..]` split by a global regular expression with one capturing group,
   * as `String.prototype.split` does it: try a match at every position from
   * the left; on a match, emit the text since the last match and the captured
   * match, and continue after it; at the end emit the remaining text. (The
   * empty string, which the pattern cannot match, gives `[""]`, as JavaScript
   * does.)
   */
  function SplitFrom(s: string, p: nat, q: nat): (r: seq<string>)
    requires p <= q <= |s|
    ensures |r| % 2 == 1
    decreases |s| - q
  {
    if q == |s| then [s[p..]]
    else match MatchAt(s, q)
      case Some(e) => [s[p..q], s[q..e]] + SplitFrom(s, e, e)
      case None => SplitFrom(s, p, q + 1)
  }

  /** `text.split(/(\*\*.*?\*\*)/g)`. */
  function Split(text: string): (r: seq<string>)
    ensures |r| % 2 == 1
  {
    SplitFrom(text, 0, 0)
  }

  /**
   * What a split of `s[p..]` is, stated declaratively: text and matches
   * alternate, starting and ending with (possibly empty) text; each text
   * part contains no position where a match begins, and each match part is
   * the match found right where the text before it ends.
   */
  ghost predicate Tokenizes(s: string, p: nat, parts: seq<string>)
    decreases |parts|
  {
    p <= |s| && |parts| % 2 == 1 &&
    if |parts| == 1 then parts[0] == s[p..] && NoMatchIn(s, p, |s|)
    else
      var q := p + |parts[0]|;
      var e := q + |parts[1]|;
      e <= |s| && parts[0] == s[p..q] && NoMatchIn(s, p, q) &&
      MatchAt(s, q) == Some(e) && parts[1] == s[q..e] &&
      Tokenizes(s, e, parts[2..])
  }

  function Concat(parts: seq<string>): string {
    if parts == [] then "" else parts[0] + Concat(parts[1..])
  }

  lemma {:induction false} SplitFromTokenizes(s: string, p: nat, q: nat)
    requires p <= q <= |s| && NoMatchIn(s, p, q)
    ensures Tokenizes(s, p, SplitFrom(s, p, q))
    decreases |s| - q
  {
    if q == |s| {
      assert SplitFrom(s, p, q) == [s[p..]];
    } else if MatchAt(s, q).Some? {
      var e := MatchAt(s, q).value;
      assert SplitFrom(s, p, q) == [s[p..q], s[q..e]] + SplitFrom(s, e, e);
      SplitFromTokenizes(s, e, e);
      TokenizesCons(s, p, q, e, SplitFrom(s, e, e));
    } else {
      assert SplitFrom(s, p, q) == SplitFrom(s, p, q + 1);
      assert NoMatchIn(s, p, q + 1);
      SplitFromTokenizes(s, p, q + 1);
    }
  }

  /** One text part and one match in front of the split of the rest. */
  lemma TokenizesCons(s: string, p: nat, q: nat, e: nat, rest: seq<string>)
    requires p <= q <= e <= |s| && NoMatchIn(s, p, q) && MatchAt(s, q) == Some(e)
    requires Tokenizes(s, e, rest)
    ensures Tokenizes(s, p, [s[p..q], s[q..e]] + rest)
  {
    var parts := [s[p..q], s[q..e]] + rest;
    assert parts[0] == s[p..q] && parts[1] == s[q..e] && parts[2..] == rest;
  }

  /** Positions `q..q'` that start no match do not change the split. */
  lemma {:induction false} SplitFromSkip(s: string, p: nat, q: nat, q': nat)
    requires p <= q <= q' <= |s| && NoMatchIn(s, q, q')
    ensures SplitFrom(s, p, q) == SplitFrom(s, p, q')
    decreases q' - q
  {
    if q < q' {
      SplitFromSkip(s, p, q, q' - 1);
    }
  }

  lemma {:induction false} TokenizesIsSplit(s: string, p: nat, parts: seq<string>)
    requires Tokenizes(s, p, parts)
    ensures parts == SplitFrom(s, p, p)
    decreases |parts|
  {
    var q := p + |parts[0]|;
    SplitFromSkip(s, p, p, q);
    if |parts| == 1 {
      assert SplitFrom(s, p, q) == [s[p..]];
    } else {
      var e := q + |parts[1]|;
      TokenizesIsSplit(s, e, parts[2..]);
      SplitFromAtMatch(s, p, q, e);
      assert parts == [parts[0], parts[1]] + parts[2..];
    }
  }

  /** At a position where a match starts, the split emits the text before it and the match. */
  lemma SplitFromAtMatch(s: string, p: nat, q: nat, e: nat)
    requires p <= q <= |s| && MatchAt(s, q) == Some(e)
    ensures SplitFrom(s, p, q) == [s[p..q], s[q..e]] + SplitFrom(s, e, e)
  {
  }

  lemma {:induction false} TokensConcat(s: string, p: nat, parts: seq<string>)
    requires Tokenizes(s, p, parts)
    ensures Concat(parts) == s[p..]
    decreases |parts|
  {
    if |parts| > 1 {
      var q := p + |parts[0]|;
      var e := q + |parts[1]|;
      TokensConcat(s, e, parts[2..]);
      ConcatTwo(parts);
      assert s[p..] == s[p..q] + s[q..e] + s[e..];
    }
  }

  lemma ConcatTwo(parts: seq<string>)
    requires |parts| >= 2
    ensures Concat(parts) == parts[0] + parts[1] + Concat(parts[2..])
  {
    assert parts[1..][1..] == parts[2..];
  }

  lemma {:induction false} TokenMatches(s: string, p: nat, parts: seq<string>, i: nat)
    requires Tokenizes(s, p, parts) && i < |parts| && i % 2 == 1
    ensures IsBoldMatch(parts[i])
    decreases |parts|
  {
    var q := p + |parts[0]|;
    var e := q + |parts[1]|;
    if i == 1 {
      MatchIsBold(s, q, e);
    } else {
      TokenMatches(s, e, parts[2..], i - 2);
      assert parts[2..][i - 2] == parts[i];
    }
  }

  /**
   * No match of the pattern begins anywhere inside a text part (an
   * even-numbered part) of a tokenization.
   */
  lemma {:induction false} TextPartHasNoMatch(s: string, p: nat, parts: seq<string>, i: nat, q: nat)
    requires Tokenizes(s, p, parts) && i < |parts| && i % 2 == 0 && q < |s|
    requires p + |Concat(parts[..i])| <= q < p + |Concat(parts[..i])| + |parts[i]|
    ensures MatchAt(s, q).None?
    decreases |parts|
  {
    if i == 0 {
      assert parts[..0] == [];
      if |parts| == 1 {
        NoMatchInAt(s, p, |s|, q);
      } else {
        NoMatchInAt(s, p, p + |parts[0]|, q);
      }
    } else {
      var e := p + |parts[0]| + |parts[1]|;
      ConcatTwo(parts[..i]);
      assert parts[..i][2..] == parts[2..][..i - 2];
      assert parts[2..][i - 2] == parts[i];
      TextPartHasNoMatch(s, e, parts[2..], i - 2, q);
    }
  }

  /**
   * The parts of `text.split(/(\*\*.*?\*\*)/g)`, in order, concatenate back
   * to `text`; there is an odd number of them; every odd-numbered part is a
   * whole `**…**` match whose inner text holds no `**` (the match is lazy)
   * and no line terminator; and no match begins anywhere inside an
   * even-numbered, plain-text part.
   */
  lemma SplitParts(text: string)
    ensures Concat(Split(text)) == text
    ensures |Split(text)| % 2 == 1
    ensures forall i :: 0 <= i < |Split(text)| && i % 2 == 1 ==> IsBoldMatch(Split(text)[i])
    ensures forall i, q :: 0 <= i < |Split(text)| && i % 2 == 0 && q < |text| &&
                           |Concat(Split(text)[..i])| <= q < |Concat(Split(text)[..i])| + |Split(text)[i]| ==>
                             MatchAt(text, q).None?
  {
    SplitFromTokenizes(text, 0, 0);
    TokensConcat(text, 0, Split(text));
    forall i | 0 <= i < |Split(text)| && i % 2 == 1 ensures IsBoldMatch(Split(text)[i]) {
      TokenMatches(text, 0, Split(text), i);
    }
    forall i, q | 0 <= i < |Split(text)| && i % 2 == 0 && q < |text| &&
                  |Concat(Split(text)[..i])| <= q < |Concat(Split(text)[..i])| + |Split(text)[i]|
      ensures MatchAt(text, q).None?
    {
      TextPartHasNoMatch(text, 0, Split(text), i, q);
    }
  }

  /** The declarative description of a split has exactly one solution, and it is `Split`. */
  lemma SplitIsTheTokenization(text: string, parts: seq<string>)
    ensures Tokenizes(text, 0, parts) <==> parts == Split(text)
  {
    SplitFromTokenizes(text, 0, 0);
    if Tokenizes(text, 0, parts) {
      TokenizesIsSplit(text, 0, parts);
    }
  }

  /** A paragraph without any `**` is one plain part. */
  lemma SplitWithoutMarkers(text: string)
    requires !HasMarker(text)
    ensures Split(text) == [text]
  {
    forall q | 0 <= q < |text| ensures MatchAt(text, q).None? {
      if MarkerAt(text, q) {
        assert HasMarker(text);
      }
    }
    NoMatchInFromAll(text, 0, |text|);
    SplitFromSkip(text, 0, 0, |text|);
  }

  /**
   * How one part is rendered: one that starts and ends with `**` becomes bold,
   * with `slice(2, -2)` taking two characters off each end (so the short
   * parts "**" and "***" give empty bold text); any other part, the empty
   * string included, stays as it is.
   */
  function RenderPart(part: string): (seg: Segment)
    ensures seg.Bold? <==> StartsWith(part, "**") && EndsWith(part, "**")
    ensures seg.Bold? && |part| >= 4 ==> "**" + seg.text + "**" == part
    ensures seg.Bold? && |part| < 4 ==> seg.text == ""
    ensures seg.Plain? ==> seg.text == part
  {
    if StartsWith(part, "**") && EndsWith(part, "**") then
      var inner := Slice(part, 2, -2);
      assert |part| >= 4 ==> part == part[..2] + inner + part[|part| - 2..];
      Bold(inner)
    else Plain(part)
  }

  lemma ShortMarkerParts()
    ensures RenderPart("**") == Bold("")
    ensures RenderPart("***") == Bold("")
    ensures RenderPart("") == Plain("")
  {
  }

  /** `parseBoldText(text)`: every part of the split, rendered, in its original position. */
  function ParseBoldText(text: string): (r: seq<Segment>)
    ensures |r| == |Split(text)| && |r| % 2 == 1
  {
    var parts := Split(text);
    seq(|parts|, i requires 0 <= i < |parts| => RenderPart(parts[i]))
  }

  /**
   * Every `**…**` match of the paragraph comes out as a bold segment holding
   * the text between its markers, which contains no `**`; every other part
   * keeps its place, and stays plain text unless it happens to start and end
   * with `**` itself.
   */
  lemma ParseBoldTextSegments(text: string)
    ensures |ParseBoldText(text)| == |Split(text)|
    ensures forall i :: 0 <= i < |Split(text)| && i % 2 == 1 ==>
              ParseBoldText(text)[i].Bold? &&
              "**" + ParseBoldText(text)[i].text + "**" == Split(text)[i] &&
              !HasMarker(ParseBoldText(text)[i].text)
    ensures forall i :: 0 <= i < |Split(text)| && i % 2 == 0 ==>
              ParseBoldText(text)[i] == RenderPart(Split(text)[i])
  {
    SplitParts(text);
    var parts := Split(text);
    forall i | 0 <= i < |parts| && i % 2 == 1
      ensures ParseBoldText(text)[i].Bold? && "**" + ParseBoldText(text)[i].text + "**" == parts[i] &&
              !HasMarker(ParseBoldText(text)[i].text)
    {
      var seg := RenderPart(parts[i]);
      assert seg.text == parts[i][2..|parts[i]| - 2];
    }
  }

  /** A paragraph without `**` is shown as one plain segment holding the whole paragraph. */
  lemma ParseBoldTextWithoutMarkers(text: string)
    requires !HasMarker(text)
    ensures ParseBoldText(text) == [Plain(text)]
  {
    SplitWithoutMarkers(text);
    if StartsWith(text, "**") {
      assert MarkerAt(text, 0);
    }
  }

  lemma ParseBoldTextExamples()
    ensures ParseBoldText("a **b** c") == [Plain("a "), Bold("b"), Plain(" c")]
  {
    ExampleSplit();
    assert RenderPart("a ") == Plain("a ");
    var bold := RenderPart("**b**");
    assert StartsWith("**b**", "**") && EndsWith("**b**", "**");
    assert "**" + bold.text + "**" == "**b**";
    assert |bold.text| == 1 && bold.text[0] == ("**" + bold.text + "**")[2];
    assert bold == Bold("b");
    assert RenderPart(" c") == Plain(" c");
  }

  /** Where matches start in the example paragraph. */
  lemma ExampleMatches()
    ensures MatchAt("a **b** c", 0).None? && MatchAt("a **b** c", 1).None?
    ensures MatchAt("a **b** c", 2) == Some(7)
    ensures MatchAt("a **b** c", 7).None? && MatchAt("a **b** c", 8).None?
  {
    assert FindClose("a **b** c", 4) == Some(5);
  }

  lemma ExampleSplit()
    ensures Split("a **b** c") == ["a ", "**b**", " c"]
  {
    var s := "a **b** c";
    ExampleMatches();
    SplitFromSkip(s, 0, 0, 2);
    SplitFromSkip(s, 7, 7, 9);
    assert SplitFrom(s, 7, 9) == [s[7..]];
    assert SplitFrom(s, 0, 2) == [s[0..2], s[2..7]] + SplitFrom(s, 7, 7);
    assert s[0..2] == "a " && s[2..7] == "**b**" && s[7..] == " c";
  }
}
