/** The clock panel's text: zero-padded numbers with the padding greyed out
    (`n2s`), the uptime line (`get_uptime_str`) and the five-row glyph
    rendering of the time string (`generate_ascii_time` over `DIGITS_5`). */
module Clock {
  import opened Wrappers
  import opened Text

  /** Left-pads `s` with `'0'` up to `width` characters. */
  function ZeroPad(s: string, width: nat): string
  {
    if |s| < width then Repeat('0', width - |s|) + s else s
  }

  /** `f"{n:0{d}d}"`: the sign, then the digits zero-padded so that the whole
      text is at least `d` characters wide. */
  function Padded(n: int, d: nat): string
  {
    if n >= 0 then ZeroPad(Digits(n), d)
    else "-" + ZeroPad(Digits(-n), if d >= 1 then d - 1 else 0)
  }

  // ---------------------------------------------------------------------------
  // n2s

  /** The number of `'0'` characters `s` starts with. */
  function LeadingZeros(s: string): (k: nat)
    ensures k <= |s|
  {
    if s == [] || s[0] != '0' then 0 else 1 + LeadingZeros(s[1..])
  }

  /** The match of the pattern `^(0*)($|[1-9]\d*$)` against `s`, as its two
      groups: the leading zeros, and the rest, which must be empty or a
      decimal number without leading zero. Backtracking `0*` cannot help, as
      the second group cannot start with `'0'`. */
  function MatchZeros(s: string): Option<(string, string)>
  {
    var k := LeadingZeros(s);
    var rest := s[k..];
    if rest == [] || ('1' <= rest[0] <= '9' && AllDigits(rest[1..])) then Some((s[..k], rest))
    else None
  }

  function Grey(s: string): string
  {
    "[#666666]" + s + "[/#666666]"
  }

  function Cyan(s: string): string
  {
    "[bold cyan]" + s + "[/bold cyan]"
  }

  /** The markup of `n2s` once its two segments are known: each segment is
      emitted, in its colour, only when it is not empty. */
  function Styled(zeros: string, significant: string): string
  {
    (if zeros != "" then Grey(zeros) else "") + (if significant != "" then Cyan(significant) else "")
  }

  /** `n2s(n, d)`: `n` zero-padded to width `d`, its leading zeros grey and the
      rest bold cyan; text the pattern does not match is all bold cyan. */
  function N2s(n: int, d: nat): string
  {
    var padded := Padded(n, d);
    match MatchZeros(padded)
    case None => Cyan(padded)
    case Some((zeros, significant)) => Styled(zeros, significant)
  }

  lemma {:induction false} LeadingZerosOfPadding(m: nat, t: string)
    requires t == [] || t[0] != '0'
    ensures LeadingZeros(Repeat('0', m) + t) == m
  {
    if m > 0 {
      var s := Repeat('0', m) + t;
      assert s[1..] == Repeat('0', m - 1) + t by {
        assert Repeat('0', m) == Repeat('0', m - 1) + ['0'];
        assert forall i :: 0 <= i < |s[1..]| ==> s[1..][i] == (Repeat('0', m - 1) + t)[i];
      }
      LeadingZerosOfPadding(m - 1, t);
    }
  }

  /** Zero padding keeps the value: the padded text is all digits, as wide as
      `d` or as `n`'s own digits, and still denotes `n`. */
  lemma {:induction false} PaddedValue(n: nat, d: nat)
    ensures AllDigits(Padded(n, d))
    ensures |Padded(n, d)| == if |Digits(n)| < d then d else |Digits(n)|
    ensures Value(Padded(n, d)) == n
  {
    DigitsRoundTrip(n);
    var s := Digits(n);
    if |s| < d {
      assert Padded(n, d) == Repeat('0', d - |s|) + s;
      ValueOfZeroPrefix(d - |s|, s);
    } else {
      assert Padded(n, d) == s;
    }
  }

  lemma {:induction false} ValueOfZeroPrefix(m: nat, s: string)
    requires AllDigits(s)
    ensures AllDigits(Repeat('0', m) + s)
    ensures Value(Repeat('0', m) + s) == Value(s)
  {
    var t := Repeat('0', m) + s;
    assert AllDigits(t) by {
      forall i | 0 <= i < |t| ensures IsDigit(t[i]) {
        if i >= m { assert t[i] == s[i - m]; }
      }
    }
    if s == [] {
      assert t == Repeat('0', m);
      AllZerosValue(m);
    } else {
      var s' := s[..|s| - 1];
      assert t[..|t| - 1] == Repeat('0', m) + s';
      ValueOfZeroPrefix(m, s');
    }
  }

  lemma {:induction false} AllZerosValue(m: nat)
    ensures AllDigits(Repeat('0', m))
    ensures Value(Repeat('0', m)) == 0
  {
    if m > 0 {
      assert Repeat('0', m)[..m - 1] == Repeat('0', m - 1);
      AllZerosValue(m - 1);
    }
  }

  /** For a positive `n`, the grey segment is exactly the padding zeros
      (`d - len(str(n))` of them, possibly none) and the cyan segment is `str(n)`. */
  lemma N2sPositive(n: nat, d: nat)
    requires n > 0
    ensures N2s(n, d) == Styled(Repeat('0', if |Digits(n)| < d then d - |Digits(n)| else 0), Digits(n))
  {
    var m, s := PaddedParts(n, d);
    MatchPadding(m, s);
  }

  /** A positive `n` that already fills the width has no grey segment. */
  lemma NoGreyWhenWide(n: nat, d: nat)
    requires n > 0 && |Digits(n)| >= d
    ensures N2s(n, d) == Cyan(Digits(n))
  {
    N2sPositive(n, d);
    DigitsRoundTrip(n);
  }

  /** `n2s(0, d)` is all grey: `d` zeros (one zero when `d` is 0), no cyan segment. */
  lemma N2sZero(d: nat)
    ensures N2s(0, d) == Grey(Repeat('0', if d == 0 then 1 else d))
  {
    var m, s := PaddedParts(0, d);
    MatchPadding(m, s);
  }

  /** Zero padding in front of digits that do not start with a zero splits
      back into the padding and those digits. */
  lemma {:induction false} MatchPadding(m: nat, s: string)
    requires AllDigits(s) && (s == [] || s[0] != '0')
    ensures MatchZeros(Repeat('0', m) + s) == Some((Repeat('0', m), s))
  {
    var p := Repeat('0', m) + s;
    LeadingZerosOfPadding(m, s);
    assert p[..m] == Repeat('0', m);
    assert p[m..] == s;
    if s != [] {
      assert AllDigits(s[1..]) by {
        forall i | 0 <= i < |s[1..]| ensures IsDigit(s[1..][i]) { assert s[1..][i] == s[i + 1]; }
      }
    }
  }

  /** The padded text of `n >= 0` is its padding zeros, then its digits with
      no leading zero (none at all for 0). */
  lemma PaddedParts(n: nat, d: nat) returns (m: nat, s: string)
    ensures Padded(n, d) == Repeat('0', m) + s
    ensures AllDigits(s) && (s == [] || s[0] != '0')
    ensures n == 0 ==> s == [] && m == (if d == 0 then 1 else d)
    ensures n > 0 ==> s == Digits(n) && m == (if |Digits(n)| < d then d - |Digits(n)| else 0)
  {
    DigitsRoundTrip(n);
    if n == 0 {
      m, s := if d == 0 then 1 else d, "";
      if d > 1 {
        assert Repeat('0', d - 1) + "0" == Repeat('0', d);
      }
    } else {
      s := Digits(n);
      m := if |s| < d then d - |s| else 0;
    }
  }

  /** For every `n >= 0` the pattern matches: the grey segment followed by the
      cyan segment is the zero-padded text of `n`, the grey segment is all
      zeros, and the cyan segment is empty or starts with 1-9. */
  lemma N2sSegments(n: nat, d: nat)
    ensures MatchZeros(Padded(n, d)).Some?
    ensures MatchZeros(Padded(n, d)).value.0 + MatchZeros(Padded(n, d)).value.1 == Padded(n, d)
    ensures forall i :: 0 <= i < |MatchZeros(Padded(n, d)).value.0| ==> MatchZeros(Padded(n, d)).value.0[i] == '0'
    ensures MatchZeros(Padded(n, d)).value.1 == [] || '1' <= MatchZeros(Padded(n, d)).value.1[0] <= '9'
    ensures N2s(n, d) == Styled(MatchZeros(Padded(n, d)).value.0, MatchZeros(Padded(n, d)).value.1)
  {
    var m, s := PaddedParts(n, d);
    MatchPadding(m, s);
  }

  /** A negative number's text starts with `-`, so the pattern fails and the
      whole padded text is bold cyan. */
  lemma N2sNegative(n: int, d: nat)
    requires n < 0
    ensures Padded(n, d)[0] == '-'
    ensures N2s(n, d) == Cyan(Padded(n, d))
  {
    var p := Padded(n, d);
    assert LeadingZeros(p) == 0;
    assert p[0..] == p;
  }

  /** `n2s(42, 4)`: two grey padding zeros, then `42`. */
  lemma N2sPadsFortyTwo()
    ensures N2s(42, 4) == Grey("00") + Cyan("42")
  {
    assert Digits(42) == "42" by { assert Digits(4) == "4"; }
    assert Repeat('0', 2) == "00" by { assert Repeat('0', 1) == "0"; }
    N2sPositive(42, 4);
  }

  /** `n2s(1234, 4)`: the number fills the width, so nothing is grey. */
  lemma N2sFillsWidth()
    ensures N2s(1234, 4) == Cyan("1234")
  {
    assert Digits(1234) == "1234" by {
      assert Digits(1) == "1";
      assert Digits(12) == "12";
      assert Digits(123) == "123";
    }
    N2sPositive(1234, 4);
  }

  /** `n2s(5, 2)`: one grey zero, then `5`. */
  lemma N2sPadsFive()
    ensures N2s(5, 2) == Grey("0") + Cyan("5")
  {
    assert Digits(5) == "5";
    assert Repeat('0', 1) == "0";
    N2sPositive(5, 2);
  }

  // ---------------------------------------------------------------------------
  // get_uptime_str

  datatype Uptime = Uptime(days: int, hours: int, minutes: int, seconds: int)

  /** The days/hours/minutes/seconds split of `get_uptime_str`. Python's `//`
      and `%` floor; with a positive divisor that is Dafny's `/` and `%`. */
  function UptimeParts(upFor: int): Uptime
  {
    Uptime(upFor / 86400, (upFor % 86400) / 3600, (upFor % 3600) / 60, upFor % 60)
  }

  predicate InRange(u: Uptime)
  {
    0 <= u.hours < 24 && 0 <= u.minutes < 60 && 0 <= u.seconds < 60
  }

  function TotalSeconds(u: Uptime): int
  {
    u.days * 86400 + u.hours * 3600 + u.minutes * 60 + u.seconds
  }

  /** The split is a days/hours/minutes/seconds decomposition of `upFor`,
      and the only one with hours, minutes and seconds in range. */
  lemma UptimeDecomposes(upFor: int)
    ensures InRange(UptimeParts(upFor))
    ensures TotalSeconds(UptimeParts(upFor)) == upFor
    ensures forall u :: InRange(u) && TotalSeconds(u) == upFor ==> u == UptimeParts(upFor)
  {
    var u := UptimeParts(upFor);
    var r := upFor % 86400;
    assert upFor == u.days * 86400 + r;
    assert r == u.hours * 3600 + r % 3600;
    assert r % 3600 == upFor % 3600 by {
      assert upFor == (u.days * 24) * 3600 + r;
      ModOfMultiple(upFor, u.days * 24 + r / 3600, r % 3600, 3600);
    }
    var q := upFor % 3600;
    assert q == u.minutes * 60 + q % 60;
    assert q % 60 == upFor % 60 by {
      assert upFor == (u.days * 1440 + u.hours * 60) * 60 + q;
      ModOfMultiple(upFor, u.days * 1440 + u.hours * 60 + q / 60, q % 60, 60);
    }
    forall v | InRange(v) && TotalSeconds(v) == upFor ensures v == u {
      var below := v.hours * 3600 + v.minutes * 60 + v.seconds;
      assert 0 <= below < 86400;
      DivModUnique(upFor, v.days, below, 86400);
      DivModUnique(below, v.hours, v.minutes * 60 + v.seconds, 3600);
      var belowHour := v.minutes * 60 + v.seconds;
      assert upFor == (v.days * 24 + v.hours) * 3600 + belowHour;
      DivModUnique(upFor, v.days * 24 + v.hours, belowHour, 3600);
      DivModUnique(belowHour, v.minutes, v.seconds, 60);
      assert upFor == ((v.days * 24 + v.hours) * 60 + v.minutes) * 60 + v.seconds;
      DivModUnique(upFor, (v.days * 24 + v.hours) * 60 + v.minutes, v.seconds, 60);
    }
  }

  lemma ModOfMultiple(x: int, q: int, r: int, m: int)
    requires m > 0 && 0 <= r < m && x == q * m + r
    ensures x % m == r
  {
    DivModUnique(x, q, r, m);
  }

  lemma DivModUnique(x: int, q: int, r: int, m: int)
    requires m > 0 && 0 <= r < m && x == q * m + r
    ensures x / m == q && x % m == r
  {
    var q0, r0 := x / m, x % m;
    assert q0 * m + r0 == q * m + r;
    assert (q0 - q) * m == r - r0;
    if q0 > q {
      MulAtLeast(q0 - q, m);
    } else if q0 < q {
      MulAtLeast(q - q0, m);
    }
  }

  lemma MulAtLeast(k: int, m: int)
    requires k >= 1 && m > 0
    ensures k * m >= m
  {
  }

  lemma UptimeExample()
    ensures UptimeParts(90061) == Uptime(1, 1, 1, 1)
    ensures UptimeParts(0) == Uptime(0, 0, 0, 0)
  {
  }

  /** `get_uptime_str(up_for)`. */
  function UptimeStr(upFor: int): string
  {
    var u := UptimeParts(upFor);
    N2s(u.days, 4) + "     " + N2s(u.hours, 2) + "      " + N2s(u.minutes, 2) + "       " + N2s(u.seconds, 2) + "  "
  }

  /** The grey zeros and the cyan digits sit in separate markup tags, so for an
      uptime of one day, one hour, one minute and one second the text holds
      `000` and `1` apart rather than `0001`. */
  lemma UptimeStrExample()
    ensures UptimeStr(90061) ==
      Grey("000") + Cyan("1") + "     " + Grey("0") + Cyan("1") + "      "
      + Grey("0") + Cyan("1") + "       " + Grey("0") + Cyan("1") + "  "
  {
    assert UptimeParts(90061) == Uptime(1, 1, 1, 1);
    assert UptimeStr(90061) == N2s(1, 4) + "     " + N2s(1, 2) + "      " + N2s(1, 2) + "       " + N2s(1, 2) + "  ";
    N2sOne();
  }

  lemma N2sOne()
    ensures N2s(1, 4) == Grey("000") + Cyan("1")
    ensures N2s(1, 2) == Grey("0") + Cyan("1")
  {
    assert Digits(1) == "1";
    assert Repeat('0', 1) == "0";
    assert Repeat('0', 3) == "000" by { assert Repeat('0', 2) == "00"; }
    N2sPositive(1, 4);
    N2sPositive(1, 2);
  }

  // ---------------------------------------------------------------------------
  // generate_ascii_time

  const Space5: string := "     "
  const Space2: string := "  "

  /** `DIGITS_5`: five rows per character. */
  const Digits5: map<char, seq<string>> := map[
    '0' := ["▄▄▄▄▄", "█   █", "█   █", "█▄▄▄█", Space5],
    '1' := ["  ▄  ", " ▀█  ", "  █  ", "▄▄█▄▄", Space5],
    '2' := ["▄▄▄▄▄", "    █", "█▀▀▀▀", "█▄▄▄▄", Space5],
    '3' := ["▄▄▄▄▄", "    █", "▀▀▀▀█", "▄▄▄▄█", Space5],
    '4' := ["▄   ▄", "█   █", "▀▀▀▀█", "    █", Space5],
    '5' := ["▄▄▄▄▄", "█    ", "▀▀▀▀█", "▄▄▄▄█", Space5],
    '6' := ["▄▄▄▄▄", "█    ", "█▀▀▀█", "█▄▄▄█", Space5],
    '7' := ["▄▄▄▄▄", "    █", "    █", "    █", Space5],
    '8' := ["▄▄▄▄▄", "█   █", "█▀▀▀█", "█▄▄▄█", Space5],
    '9' := ["▄▄▄▄▄", "█   █", "▀▀▀▀█", "▄▄▄▄█", Space5],
    'A' := [Space5, "▄▄▄▄ ", "█  █ ", "█▄▄█▄", Space5],
    'M' := [Space5, "▄▄ ▄▄", "█ █ █", "█ █ █", Space5],
    'P' := [Space5, "▄▄▄▄▄", "█   █", "█▄▄▄█", "█    "],
    '-' := [Space5, Space5, "▄▄▄▄▄", Space5, Space5],
    '+' := [Space5, "  ▄  ", "▄▄█▄▄", "  █  ", Space5],
    ':' := [" ", "▄", " ", "▀", " "],
    ' ' := [Space2, Space2, Space2, Space2, Space2]
  ]

  /** `DIGITS_5.get(c, DIGITS_5[" "])`. */
  function Glyph(c: char): seq<string>
  {
    if c in Digits5 then Digits5[c] else Digits5[' ']
  }

  /** The segment character `c` contributes to row `i`. */
  function Segment(c: char, i: nat): string
  {
    var pattern := Glyph(c);
    if i < |pattern| then pattern[i] else " "
  }

  /** `line_segments` of row `i` after the characters of `s`. */
  function LineSegments(s: string, i: nat): seq<string>
  {
    if s == [] then [" "] else LineSegments(s[..|s| - 1], i) + [Segment(s[|s| - 1], i), " "]
  }

  function AsciiRow(s: string, i: nat): string
  {
    Concat(LineSegments(s, i))
  }

  function AsciiRows(s: string): seq<string>
  {
    [AsciiRow(s, 0), AsciiRow(s, 1), AsciiRow(s, 2), AsciiRow(s, 3), AsciiRow(s, 4)]
  }

  /** `generate_ascii_time(s)`. */
  function AsciiTime(s: string): string
  {
    JoinLines(AsciiRows(s))
  }

  /** A glyph of the table: five rows, all as wide as the first, no newline. */
  predicate WellFormedGlyph(g: seq<string>)
  {
    |g| == 5 && forall i :: 0 <= i < 5 ==> |g[i]| == |g[0]| && '\n' !in g[i]
  }

  lemma TableWellFormed(c: char)
    ensures WellFormedGlyph(Glyph(c))
  {
  }

  /** How wide a character's glyph is. */
  function GlyphWidth(c: char): nat
  {
    |Glyph(c)[0]|
  }

  /** The width of a rendered row: a leading space, then each glyph and a space. */
  function RowWidth(s: string): nat
  {
    if s == [] then 1 else RowWidth(s[..|s| - 1]) + GlyphWidth(s[|s| - 1]) + 1
  }

  /** Each row of a glyph is as wide as the glyph and holds no newline. */
  lemma SegmentShape(c: char, i: nat)
    requires i < 5
    ensures |Segment(c, i)| == GlyphWidth(c) && '\n' !in Segment(c, i)
  {
    TableWellFormed(c);
  }

  lemma {:induction false} RowParts(s: string, i: nat)
    requires i < 5
    ensures |AsciiRow(s, i)| == RowWidth(s)
    ensures '\n' !in AsciiRow(s, i)
  {
    if s == [] {
      assert AsciiRow(s, i) == " " by { ConcatSnoc([], " "); }
    } else {
      var init, c := s[..|s| - 1], s[|s| - 1];
      RowParts(init, i);
      var seg := Segment(c, i);
      SegmentShape(c, i);
      var segs := LineSegments(init, i) + [seg];
      assert LineSegments(s, i) == segs + [" "];
      ConcatSnoc(segs, " ");
      ConcatSnoc(LineSegments(init, i), seg);
      assert RowWidth(s) == RowWidth(init) + GlyphWidth(c) + 1;
    }
  }

  /** All five rows are equally wide, and none holds a newline. */
  lemma RowsEquallyWide(s: string)
    ensures forall i :: 0 <= i < 5 ==> |AsciiRows(s)[i]| == RowWidth(s) && '\n' !in AsciiRows(s)[i]
  {
    forall i | 0 <= i < 5 ensures |AsciiRows(s)[i]| == RowWidth(s) && '\n' !in AsciiRows(s)[i] {
      RowParts(s, i);
    }
  }

  /** The rendering is exactly five lines, one per glyph row, whatever the input. */
  lemma AsciiTimeFiveLines(s: string)
    ensures SplitLines(AsciiTime(s)) == AsciiRows(s)
    ensures |SplitLines(AsciiTime(s))| == 5
  {
    RowsEquallyWide(s);
    SplitJoinLines(AsciiRows(s));
  }

  lemma {:induction false} SegmentsAgree(s: string, t: string, i: nat)
    requires |s| == |t|
    requires forall j :: 0 <= j < |s| ==> Glyph(s[j]) == Glyph(t[j])
    ensures LineSegments(s, i) == LineSegments(t, i)
  {
    if s != [] {
      SegmentsAgree(s[..|s| - 1], t[..|t| - 1], i);
    }
  }

  /** A character missing from the table renders exactly as a space does. */
  lemma UnknownRendersAsSpace(s: string, k: nat)
    requires k < |s| && s[k] !in Digits5
    ensures AsciiTime(s) == AsciiTime(s[k := ' '])
  {
    var t := s[k := ' '];
    forall i: nat ensures LineSegments(s, i) == LineSegments(t, i) {
      SegmentsAgree(s, t, i);
    }
  }

  /** `generate_ascii_time`: five rows, each built from a list of segments. */
  method GenerateAsciiTime(timeStr: string) returns (r: string)
    ensures r == AsciiTime(timeStr)
    ensures |SplitLines(r)| == 5
  {
    var rows: seq<string> := [];
    for i := 0 to 5
      invariant |rows| == i
      invariant forall k :: 0 <= k < i ==> rows[k] == AsciiRow(timeStr, k)
    {
      var lineSegments := RowSegments(timeStr, i);
      rows := rows + [Concat(lineSegments)];
    }
    assert rows == AsciiRows(timeStr);
    r := JoinLines(rows);
    AsciiTimeFiveLines(timeStr);
  }

  lemma LineSegmentsSnoc(s: string, c: char, i: nat)
    ensures LineSegments(s + [c], i) == LineSegments(s, i) + [Segment(c, i), " "]
  {
    assert (s + [c])[..|s|] == s;
  }

  /** The inner loop of `generate_ascii_time`: the segments of row `i`. */
  method RowSegments(timeStr: string, i: nat) returns (lineSegments: seq<string>)
    ensures lineSegments == LineSegments(timeStr, i)
  {
    lineSegments := [" "];
    for j := 0 to |timeStr|
      invariant lineSegments == LineSegments(timeStr[..j], i)
    {
      var charVal := timeStr[j];
      var digitPattern := Glyph(charVal);
      if i < |digitPattern| {
        lineSegments := lineSegments + [digitPattern[i]];
      } else {
        lineSegments := lineSegments + [" "];
      }
      lineSegments := lineSegments + [" "];
      assert timeStr[..j + 1] == timeStr[..j] + [charVal];
      LineSegmentsSnoc(timeStr[..j], charVal, i);
    }
    assert timeStr[..|timeStr|] == timeStr;
  }
}
