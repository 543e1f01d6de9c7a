/**
 * The format list of `GET /api/video-info` (server.js:211-376): the title
 * taken from the `[info]` header line, one record per line of `yt-dlp -F`
 * output that the format-line expression matches, the two synthetic entries
 * put in front, and the sort by kind and height.
 */
module FormatList {
  import opened Text
  import VideoId

  // ---------------------------------------------------------------------------
  // The format-line expression  ^(\d+)\s+(\w+)\s+(.+?)(\s+\((.+)\))?$
  // ---------------------------------------------------------------------------

  /** Every character of s[i..j] satisfies `p`. */
  predicate AllOf(s: string, i: int, j: int, p: char -> bool) {
    0 <= i <= j <= |s| && forall k :: i <= k < j ==> p(s[k])
  }

  /** `\((.+)\)$` matches from `r`: an opening parenthesis, at least one character that is no line terminator, and a closing parenthesis ending the line. */
  predicate CloseGroupAt(s: string, r: int) {
    0 <= r && r + 3 <= |s| && s[r] == '(' && s[|s| - 1] == ')' && NoLineTerminator(s[r + 1..|s| - 1])
  }

  /** `\s+\((.+)\)$` matches from `q`. */
  ghost predicate GroupMatches(s: string, q: int) {
    exists r :: q < r && AllOf(s, q, r, IsJsSpace) && CloseGroupAt(s, r)
  }

  /** What may follow the description when it ends at `q`: the end of the line, or the type group. */
  ghost predicate Accepts(s: string, q: int) {
    q == |s| || GroupMatches(s, q)
  }

  /**
   * One way the expression matches `s`: group 1 is s[..a], then whitespace
   * s[a..b], group 2 is s[b..c], whitespace s[c..d], group 3 is s[d..q].
   */
  ghost predicate Decomp(s: string, a: int, b: int, c: int, d: int, q: int) {
    && 0 < a < b < c < d < q <= |s|
    && AllOf(s, 0, a, IsDigit) && AllOf(s, a, b, IsJsSpace) && AllOf(s, b, c, IsWordChar)
    && AllOf(s, c, d, IsJsSpace) && NoLineTerminator(s[d..q]) && Accepts(s, q)
  }

  /** The expression matches `s` in some way. */
  ghost predicate LineMatches(s: string) {
    exists a, b, c, d, q :: Decomp(s, a, b, c, d, q)
  }

  /** Where the type group's parenthesis opens when that group matches from `q`. */
  function GroupEnd(s: string, q: nat): (r: Option<nat>)
    requires q <= |s|
    ensures r.Some? ==> q < r.value && AllOf(s, q, r.value, IsJsSpace) && CloseGroupAt(s, r.value)
  {
    if q < |s| && IsJsSpace(s[q]) then
      var r := RunEnd(s, q, IsJsSpace);
      if CloseGroupAt(s, r) then Some(r) else None
    else None
  }

  lemma GroupEndComplete(s: string, q: nat)
    requires q <= |s| && GroupMatches(s, q)
    ensures GroupEnd(s, q).Some?
  {
    var r :| q < r && AllOf(s, q, r, IsJsSpace) && CloseGroupAt(s, r);
    RunEndIsFirstFailure(s, q, r, IsJsSpace);
  }

  /**
   * The lazy `(.+?)` started at `d` and grown to `q` so far: the first end at
   * or after `q` where the rest of the expression matches, unless a line
   * terminator comes first.
   */
  function DescEnd(s: string, d: nat, q: nat): (r: Option<nat>)
    requires d < q <= |s| && NoLineTerminator(s[d..q])
    ensures r.Some? ==> q <= r.value <= |s|
    decreases |s| - q
  {
    if q == |s| || GroupEnd(s, q).Some? then Some(q)
    else if IsLineTerminator(s[q]) then None
    else
      assert s[d..q + 1] == s[d..q] + [s[q]];
      DescEnd(s, d, q + 1)
  }

  /**
   * The lazy description ends at the first accepting end within the line, and
   * finds none exactly when every end up to the next line terminator fails.
   */
  lemma {:induction false} DescEndSpec(s: string, d: nat, q: nat)
    requires d < q <= |s| && NoLineTerminator(s[d..q])
    ensures var r := DescEnd(s, d, q);
      && (r.Some? ==> NoLineTerminator(s[d..r.value]))
      && (r.Some? ==> r.value == |s| || GroupEnd(s, r.value).Some?)
      && (r.Some? ==> forall k :: q <= k < r.value ==> GroupEnd(s, k).None?)
      && (r.None? ==> forall k :: q <= k <= |s| && NoLineTerminator(s[d..k]) ==> k < |s| && GroupEnd(s, k).None?)
    decreases |s| - q
  {
    if q == |s| || GroupEnd(s, q).Some? {
    } else if IsLineTerminator(s[q]) {
      assert forall k :: q < k <= |s| ==> s[d..k][q - d] == s[q];
    } else {
      assert s[d..q + 1] == s[d..q] + [s[q]];
      DescEndSpec(s, d, q + 1);
    }
  }

  datatype Positions = Positions(a: nat, b: nat, c: nat, d: nat, q: nat)

  /**
   * The match that JavaScript's backtracking finds first. Groups 1 and 2 and
   * the whitespace between are the maximal runs (a shorter run leaves a
   * character the next item cannot take). The second `\s+` is greedy, so the
   * description starts after all of the whitespace when something is left;
   * when the whitespace reaches the end of the line, it gives back its last
   * character to the description.
   */
  function FindMatch(s: string): (m: Option<Positions>)
    ensures m.Some? ==> 0 < m.value.a < m.value.b < m.value.c < m.value.d < m.value.q <= |s|
  {
    var a := RunEnd(s, 0, IsDigit);
    var b := RunEnd(s, a, IsJsSpace);
    var c := RunEnd(s, b, IsWordChar);
    if a == 0 || b == a || c == b then None
    else Describe(s, a, b, c, RunEnd(s, c, IsJsSpace))
  }

  /** The rest of FindMatch once the runs end at `a`, `b`, `c` and `p`. */
  function Describe(s: string, a: nat, b: nat, c: nat, p: nat): (m: Option<Positions>)
    requires 0 < a < b < c <= p <= |s|
    ensures m.Some? ==> m.value.a == a && m.value.b == b && m.value.c == c
    ensures m.Some? ==> c < m.value.d < m.value.q <= |s|
  {
    if p == c then None
    else if p < |s| then
      if IsLineTerminator(s[p]) then None
      else
        OneCharLine(s, p);
        match DescEnd(s, p, p + 1)
        case None => None
        case Some(q) => Some(Positions(a, b, c, p, q))
    else if p - c >= 2 && !IsLineTerminator(s[p - 1]) then
      Some(Positions(a, b, c, p - 1, p))
    else None
  }

  /** What FindMatch finds is a match. */
  lemma FindMatchSound(s: string)
    requires FindMatch(s).Some?
    ensures var m := FindMatch(s).value; Decomp(s, m.a, m.b, m.c, m.d, m.q)
  {
    var a := RunEnd(s, 0, IsDigit);
    var b := RunEnd(s, a, IsJsSpace);
    var c := RunEnd(s, b, IsWordChar);
    DescribeSound(s, a, b, c, RunEnd(s, c, IsJsSpace));
  }

  lemma DescribeSound(s: string, a: nat, b: nat, c: nat, p: nat)
    requires a == RunEnd(s, 0, IsDigit) && b == RunEnd(s, a, IsJsSpace) && c == RunEnd(s, b, IsWordChar)
    requires p == RunEnd(s, c, IsJsSpace) && 0 < a < b < c && Describe(s, a, b, c, p).Some?
    ensures var m := Describe(s, a, b, c, p).value; Decomp(s, m.a, m.b, m.c, m.d, m.q)
  {
    if p < |s| {
      OneCharLine(s, p);
      var q := DescEnd(s, p, p + 1).value;
      DescEndAccepts(s, p, q);
      DecompOfRuns(s, a, b, c, p, q);
    } else {
      OneCharLine(s, p - 1);
      DecompOfRuns(s, a, b, c, p - 1, p);
    }
  }

  lemma OneCharLine(s: string, p: nat)
    requires p < |s| && !IsLineTerminator(s[p])
    ensures NoLineTerminator(s[p..p + 1])
  {
    assert s[p..p + 1] == [s[p]];
  }

  /** Where the lazy description stops, the rest of the expression matches. */
  lemma DescEndAccepts(s: string, p: nat, q: nat)
    requires p < |s| && NoLineTerminator(s[p..p + 1]) && DescEnd(s, p, p + 1) == Some(q)
    ensures Accepts(s, q) && NoLineTerminator(s[p..q]) && p < q <= |s|
  {
    DescEndSpec(s, p, p + 1);
    if q < |s| {
      var r := GroupEnd(s, q).value;
      assert q < r && AllOf(s, q, r, IsJsSpace) && CloseGroupAt(s, r);
    }
  }

  /** The maximal runs with a description after them make a match. */
  lemma DecompOfRuns(s: string, a: nat, b: nat, c: nat, d: nat, q: nat)
    requires a == RunEnd(s, 0, IsDigit) && b == RunEnd(s, a, IsJsSpace) && c == RunEnd(s, b, IsWordChar)
    requires 0 < a < b < c < d < q <= |s| && d <= RunEnd(s, c, IsJsSpace)
    requires NoLineTerminator(s[d..q]) && Accepts(s, q)
    ensures Decomp(s, a, b, c, d, q)
  {
    assert AllOf(s, c, d, IsJsSpace);
  }

  /** The lazy description reaches every accepting end it can reach. */
  lemma DescEndReaches(s: string, d: nat, q: nat, k: nat)
    requires d < q <= k <= |s| && NoLineTerminator(s[d..q]) && NoLineTerminator(s[d..k]) && Accepts(s, k)
    ensures DescEnd(s, d, q).Some? && DescEnd(s, d, q).value <= k
  {
    DescEndSpec(s, d, q);
    if k < |s| {
      GroupEndComplete(s, k);
    }
  }

  /** In any match, groups 1 and 2 and the whitespace between are the maximal runs. */
  lemma MatchPrefixForced(s: string, a': int, b': int, c': int, d': int, q': int)
    requires Decomp(s, a', b', c', d', q')
    ensures RunEnd(s, 0, IsDigit) == a' && RunEnd(s, a', IsJsSpace) == b' && RunEnd(s, b', IsWordChar) == c'
    ensures d' <= RunEnd(s, c', IsJsSpace)
  {
    assert IsJsSpace(s[a']) && IsWordChar(s[b']) && IsJsSpace(s[c']);
    RunEndIsFirstFailure(s, 0, a', IsDigit);
    RunEndIsFirstFailure(s, a', b', IsJsSpace);
    RunEndIsFirstFailure(s, b', c', IsWordChar);
    RunEndCovers(s, c', d', IsJsSpace);
  }

  /** When text is left after the whitespace run ending at `p`, the description started at `p` finds an end no later than any match's. */
  lemma DescriptionFromRunEnd(s: string, c': int, d': int, q': int, p: nat)
    requires 0 <= c' < d' < q' <= |s| && AllOf(s, c', d', IsJsSpace) && NoLineTerminator(s[d'..q']) && Accepts(s, q')
    requires p == RunEnd(s, c', IsJsSpace) && d' <= p < |s|
    ensures !IsLineTerminator(s[p])
    ensures DescEnd(s, p, p + 1).Some?
    ensures d' == p ==> DescEnd(s, p, p + 1).value <= q'
  {
    if q' > p {
      NoLineTerminatorWithin(s, d', q', p, q');
      NoLineTerminatorWithin(s, d', q', p, p + 1);
      assert s[p..p + 1][0] == s[p];
      DescEndReaches(s, p, p + 1, q');
    } else {
      var r :| q' < r && AllOf(s, q', r, IsJsSpace) && CloseGroupAt(s, r);
      RunEndCovers(s, c', r, IsJsSpace);
      assert r == p;
      DescriptionAtGroup(s, p);
    }
  }

  /** A description that runs into the `(` of the closing group starts at that `(` and reaches the end of the line. */
  lemma DescriptionAtGroup(s: string, p: nat)
    requires p < |s| && CloseGroupAt(s, p)
    ensures !IsLineTerminator(s[p])
    ensures DescEnd(s, p, p + 1).Some?
  {
    assert NoLineTerminator(s[p..|s|]) by {
      forall i | p <= i < |s| ensures !IsLineTerminator(s[i]) {
        if p < i < |s| - 1 {
          assert s[i] == s[p + 1..|s| - 1][i - p - 1];
        }
      }
    }
    NoLineTerminatorWithin(s, p, |s|, p, p + 1);
    assert s[p..p + 1][0] == s[p];
    DescEndReaches(s, p, p + 1, |s|);
  }

  /** When the whitespace run reaches the end of the line, a match ends there and its description is the last character. */
  lemma DescriptionAtEnd(s: string, c': int, d': int, q': int)
    requires 0 <= c' < d' < q' <= |s| && AllOf(s, c', |s|, IsJsSpace) && NoLineTerminator(s[d'..q']) && Accepts(s, q')
    ensures q' == |s| && |s| - c' >= 2 && !IsLineTerminator(s[|s| - 1])
  {
    assert s[q' - 1] == s[d'..q'][q' - 1 - d'];
  }

  /**
   * FindMatch finds a match whenever there is one, and it is the one the
   * backtracking order tries first: the first three items are forced, the
   * whitespace before the description is as long as possible, and then the
   * description is as short as possible.
   */
  lemma FindMatchFirst(s: string, a': int, b': int, c': int, d': int, q': int)
    requires Decomp(s, a', b', c', d', q')
    ensures FindMatch(s).Some?
    ensures var m := FindMatch(s).value;
      m.a == a' && m.b == b' && m.c == c' && (d' < m.d || (d' == m.d && m.q <= q'))
  {
    MatchPrefixForced(s, a', b', c', d', q');
    var p := RunEnd(s, c', IsJsSpace);
    if p < |s| {
      DescriptionFromRunEnd(s, c', d', q', p);
    } else {
      DescriptionAtEnd(s, c', d', q');
    }
  }

  lemma FindMatchComplete(s: string)
    ensures FindMatch(s).Some? <==> LineMatches(s)
  {
    if FindMatch(s).Some? {
      FindMatchSound(s);
    }
    if LineMatches(s) {
      var a, b, c, d, q :| Decomp(s, a, b, c, d, q);
      FindMatchFirst(s, a, b, c, d, q);
    }
  }

  /** The match JavaScript reports: a match that comes first in backtracking order. */
  ghost predicate IsFirstMatch(s: string, m: Positions) {
    && Decomp(s, m.a, m.b, m.c, m.d, m.q)
    && forall a', b', c', d', q' :: Decomp(s, a', b', c', d', q') ==>
         a' == m.a && b' == m.b && c' == m.c && (d' < m.d || (d' == m.d && m.q <= q'))
  }

  lemma FindMatchIsFirst(s: string)
    requires FindMatch(s).Some?
    ensures IsFirstMatch(s, FindMatch(s).value)
  {
    FindMatchSound(s);
    forall a', b', c', d', q' | Decomp(s, a', b', c', d', q')
      ensures var m := FindMatch(s).value;
        a' == m.a && b' == m.b && c' == m.c && (d' < m.d || (d' == m.d && m.q <= q'))
    {
      FindMatchFirst(s, a', b', c', d', q');
    }
  }

  /** Group 5, the type text: what the parentheses at the end enclose, or '' when group 4 did not take part. */
  function TypeText(s: string, q: nat): (t: string)
    requires q <= |s|
  {
    match GroupEnd(s, q)
    case Some(r) => s[r + 1..|s| - 1]
    case None => ""
  }

  lemma TypeTextIsGroup(s: string, q: nat, r: nat)
    requires q < r && AllOf(s, q, r, IsJsSpace) && CloseGroupAt(s, r)
    ensures TypeText(s, q) == s[r + 1..|s| - 1]
  {
    RunEndIsFirstFailure(s, q, r, IsJsSpace);
  }

  // ---------------------------------------------------------------------------
  // The record built from one line (server.js:262-308)
  // ---------------------------------------------------------------------------

  datatype Format = Format(
    itag: string,
    qualityLabel: string,
    container: string,
    hasVideo: bool,
    hasAudio: bool,
    formatNote: string,
    filesize: string)

  /** The three number patterns searched in a description: `(\d+)x(\d+)`, `(\d+)fps`, `(\d+)k`. */
  datatype Pattern = Resolution | FrameRate | Bitrate

  /** `pat` matches at `i`; its first group is the digit run from `i`. */
  predicate PatternAt(s: string, i: nat, pat: Pattern) {
    i < |s| && IsDigit(s[i]) &&
    var e := RunEnd(s, i, IsDigit);
    match pat
    case Resolution => e + 1 < |s| && s[e] == 'x' && IsDigit(s[e + 1])
    case FrameRate => OccursAt(s, "fps", e)
    case Bitrate => e < |s| && s[e] == 'k'
  }

  /** `s.match(pat)` searching from `i`: the leftmost position where `pat` matches. */
  function FirstPattern(s: string, i: nat, pat: Pattern): (r: Option<nat>)
    requires i <= |s|
    ensures r.Some? ==> i <= r.value && PatternAt(s, r.value, pat)
    ensures r.Some? ==> forall j :: i <= j < r.value ==> !PatternAt(s, j, pat)
    ensures r.None? ==> forall j :: i <= j ==> !PatternAt(s, j, pat)
    decreases |s| - i
  {
    if i == |s| then None
    else if PatternAt(s, i, pat) then Some(i)
    else FirstPattern(s, i + 1, pat)
  }

  /** The leftmost match starts a digit run, so its first group is the whole run of digits. */
  lemma FirstPatternIsWholeRun(s: string, pat: Pattern)
    requires FirstPattern(s, 0, pat).Some?
    ensures var k := FirstPattern(s, 0, pat).value; k == 0 || !IsDigit(s[k - 1])
  {
    var k := FirstPattern(s, 0, pat).value;
    if k > 0 && IsDigit(s[k - 1]) {
      RunEndFromInside(s, k - 1, k, IsDigit);
      assert PatternAt(s, k - 1, pat);
    }
  }

  /** The digit run starting at `i` (the first group of a pattern match there). */
  function DigitsAt(s: string, i: nat): (ds: string)
    requires i <= |s|
    ensures AllDigits(ds)
  {
    s[i..RunEnd(s, i, IsDigit)]
  }

  /** The digits after the `x` of the `WxH` that starts at `k`. */
  function ResolutionHeight(desc: string, k: nat): (h: string)
    requires PatternAt(desc, k, Resolution)
    ensures |h| > 0 && AllDigits(h)
  {
    var e := RunEnd(desc, k, IsDigit);
    assert IsDigit(desc[e + 1]);
    DigitsAt(desc, e + 1)
  }

  /** `" <n>fps"` for the leftmost `<n>fps`, or nothing. */
  function FrameRateSuffix(desc: string): (r: string)
    ensures r == "" <==> FirstPattern(desc, 0, FrameRate).None?
    ensures r != "" ==> |r| > 4 && r[0] == ' ' && r[|r| - 3..] == "fps" && AllDigits(r[1..|r| - 3])
  {
    match FirstPattern(desc, 0, FrameRate)
    case Some(f) =>
      var n := DigitsAt(desc, f);
      assert IsDigit(desc[f]);
      assert (" " + n + "fps")[1..|n| + 1] == n;
      " " + n + "fps"
    case None => ""
  }

  /** server.js:271-289 */
  function QualityLabel(desc: string): string {
    match FirstPattern(desc, 0, Resolution)
    case Some(k) => ResolutionHeight(desc, k) + "p" + FrameRateSuffix(desc)
    case None =>
      if Contains(desc, "audio only") then
        (match FirstPattern(desc, 0, Bitrate)
         case Some(k) => DigitsAt(desc, k) + "kbps"
         case None => "Audio")
      else desc
  }

  /** The kind the note names; empty only for a record with neither video nor sound. */
  function NoteSuffix(hasVideo: bool, hasAudio: bool): (r: string)
    ensures r == "" <==> !hasVideo && !hasAudio
    ensures r != "" ==> |r| > 2 && r[..2] == " ("
  {
    if hasVideo && hasAudio then " (Video + Ses)"
    else if hasVideo then " (Sadece Video)"
    else if hasAudio then " (Sadece Ses)"
    else ""
  }

  /** The note tells the kind: different flags give different suffixes. */
  lemma NoteSuffixTellsKind(v: bool, a: bool, v': bool, a': bool)
    requires NoteSuffix(v, a) == NoteSuffix(v', a')
    ensures v == v' && a == a'
  {
  }

  /** The record for a line whose groups 1, 2, 3 and 5 are `itag`, `container`, `desc` and `formatType`. */
  function MakeFormat(itag: string, container: string, desc: string, formatType: string): (f: Format)
    ensures f.itag == itag && f.container == container && f.filesize == "Otomatik"
    ensures f.qualityLabel == QualityLabel(desc)
    ensures f.hasAudio <==> Contains(formatType, "audio")
    ensures f.hasVideo <==> Contains(formatType, "video") || Contains(desc, "x") || Contains(desc, "fps")
    ensures f.formatNote == (if f.hasVideo || f.hasAudio then f.qualityLabel + NoteSuffix(f.hasVideo, f.hasAudio) else "")
  {
    var quality := QualityLabel(desc);
    var hasVideo := Contains(formatType, "video") || Contains(desc, "x") || Contains(desc, "fps");
    var hasAudio := Contains(formatType, "audio");
    var note := if hasVideo || hasAudio then quality + NoteSuffix(hasVideo, hasAudio) else "";
    Format(itag, quality, container, hasVideo, hasAudio, note, "Otomatik")
  }

  /** The record built from the groups of the match `m` on `line`. */
  function FormatOf(line: string, m: Positions): Format
    requires m.a <= m.b <= m.c <= m.d <= m.q <= |line|
  {
    MakeFormat(line[..m.a], line[m.b..m.c], line[m.d..m.q], TypeText(line, m.q))
  }

  /**
   * One line of `yt-dlp -F` output (server.js:261-309): a record when the
   * format-line expression matches, nothing otherwise.
   */
  function ParseLine(line: string): (r: Option<Format>)
    ensures r.Some? <==> LineMatches(line)
    ensures r.Some? ==> r.value.filesize == "Otomatik"
    ensures r.Some? ==> |r.value.itag| > 0 && AllDigits(r.value.itag) && StartsWith(line, r.value.itag)
  {
    FindMatchComplete(line);
    match FindMatch(line)
    case None => None
    case Some(m) => Some(FormatOf(line, m))
  }

  /**
   * The record of a matching line is the one built from the groups of the
   * match JavaScript reports: group 1 is the leading digit run, group 2 the
   * following word, group 3 the description, group 5 the type text.
   */
  lemma ParseLineIsFirstMatch(line: string, m: Positions)
    requires IsFirstMatch(line, m)
    ensures ParseLine(line) == Some(FormatOf(line, m))
  {
    var m' := FindMatch(line);
    FindMatchFirst(line, m.a, m.b, m.c, m.d, m.q);
    FindMatchIsFirst(line);
    assert m'.value == m;
  }

  /** The itag is the whole leading digit run and the container the whole word after the whitespace. */
  lemma ParseLineFields(line: string)
    requires ParseLine(line).Some?
    ensures var f := ParseLine(line).value;
      && f.itag == line[..RunEnd(line, 0, IsDigit)]
      && var b := RunEnd(line, |f.itag|, IsJsSpace);
         b > |f.itag| && f.container == line[b..RunEnd(line, b, IsWordChar)] && |f.container| > 0
  {
    var m := FindMatch(line).value;
    FindMatchSound(line);
    MatchPrefixForced(line, m.a, m.b, m.c, m.d, m.q);
  }

  // ---------------------------------------------------------------------------
  // Sorting (server.js:343-361)
  // ---------------------------------------------------------------------------

  predicate IsHexDigit(c: char) { IsDigit(c) || 'a' <= c <= 'f' || 'A' <= c <= 'F' }

  function HexDigitValue(c: char): nat
    requires IsHexDigit(c)
  {
    if IsDigit(c) then DigitValue(c)
    else if 'a' <= c <= 'f' then c as int - 'a' as int + 10
    else c as int - 'A' as int + 10
  }

  function HexValue(hs: string): nat
    requires forall i :: 0 <= i < |hs| ==> IsHexDigit(hs[i])
    decreases |hs|
  {
    if hs == [] then 0 else HexValue(hs[..|hs| - 1]) * 16 + HexDigitValue(hs[|hs| - 1])
  }

  /** The digits after the sign: `0x`/`0X` selects base 16; no digits is NaN (None). */
  function ParseMagnitude(u: string): (r: Option<int>)
    ensures r.Some? ==> r.value >= 0
    ensures |u| == 0 || !IsDigit(u[0]) ==> r.None?
  {
    if |u| >= 2 && u[0] == '0' && (u[1] == 'x' || u[1] == 'X') then
      var e := RunEnd(u, 2, IsHexDigit);
      if e == 2 then None else Some(HexValue(u[2..e]))
    else
      var e := RunEnd(u, 0, IsDigit);
      if e == 0 then None else Some(DecimalValue(u[..e]))
  }

  /**
   * JavaScript's `parseInt(s)` without a radix: leading white space is
   * skipped, one sign is taken, and the longest run of digits that follows
   * gives the value.
   */
  function ParseInt(s: string): (r: Option<int>)
    ensures (forall k :: 0 <= k < |s| ==> !IsDigit(s[k])) ==> r.None?
  {
    var t := s[RunEnd(s, 0, IsJsSpace)..];
    var signed := |t| > 0 && (t[0] == '-' || t[0] == '+');
    match ParseMagnitude(if signed then t[1..] else t)
    case Some(n) => Some(if signed && t[0] == '-' then -n else n)
    case None => None
  }

  lemma ParseMagnitudeLeadingDigits(ds: string, rest: string)
    requires |ds| > 0 && AllDigits(ds)
    requires rest == [] || !IsDigit(rest[0])
    requires |ds| == 1 && ds[0] == '0' && rest != [] ==> rest[0] != 'x' && rest[0] != 'X'
    ensures ParseMagnitude(ds + rest) == Some(DecimalValue(ds))
  {
    var s := ds + rest;
    RunEndIsFirstFailure(s, 0, |ds|, IsDigit);
    assert s[..|ds|] == ds;
  }

  /** Digits followed by something that is neither a digit nor an `x` after a lone 0 read as those digits. */
  lemma ParseIntLeadingDigits(ds: string, rest: string)
    requires |ds| > 0 && AllDigits(ds)
    requires rest == [] || !IsDigit(rest[0])
    requires |ds| == 1 && ds[0] == '0' && rest != [] ==> rest[0] != 'x' && rest[0] != 'X'
    ensures ParseInt(ds + rest) == Some(DecimalValue(ds))
  {
    var s := ds + rest;
    assert IsDigit(s[0]);
    ParseIntUnsigned(s);
    ParseMagnitudeLeadingDigits(ds, rest);
  }

  /** Text that starts with a digit is read by ParseMagnitude from its first character. */
  lemma ParseIntUnsigned(s: string)
    requires |s| > 0 && IsDigit(s[0])
    ensures ParseInt(s) == ParseMagnitude(s)
  {
    assert !IsJsSpace(s[0]);
    assert RunEnd(s, 0, IsJsSpace) == 0;
    assert s[0..] == s;
  }

  /** `String(n)` read back by `parseInt` is `n`. */
  lemma ParseIntDecimal(n: nat)
    ensures ParseInt(NatToDecimal(n)) == Some(n)
  {
    DecimalRoundTrip(n);
    ParseIntLeadingDigits(NatToDecimal(n), "");
    assert NatToDecimal(n) + "" == NatToDecimal(n);
  }

  /** The sort key: `parseInt(label)` when the label contains `p`, else 0; None is NaN. */
  function LabelHeight(quality: string): (r: Option<int>)
    ensures !Contains(quality, "p") ==> r == Some(0)
    ensures r.None? ==> Contains(quality, "p")
  {
    if Contains(quality, "p") then ParseInt(quality) else Some(0)
  }

  function Height(f: Format): Option<int> { LabelHeight(f.qualityLabel) }

  lemma ContainsAt(s: string, t: string, i: nat)
    requires OccursAt(s, t, i)
    ensures Contains(s, t)
  {
    ContainsIffOccurs(s, t);
  }

  /** A label made of digits, a `p` and anything else sorts by those digits. */
  lemma HeightBeforeP(h: string, tail: string)
    requires |h| > 0 && AllDigits(h)
    ensures LabelHeight(h + "p" + tail) == Some(DecimalValue(h))
  {
    var quality := h + "p" + tail;
    assert quality == h + ("p" + tail);
    assert quality[|h|..|h| + 1] == "p";
    ContainsAt(quality, "p", |h|);
    ParseIntLeadingDigits(h, "p" + tail);
  }

  /**
   * A resolution label is "<H>p", followed by " <n>fps" for the leftmost
   * `<n>fps` when there is one.
   */
  lemma ResolutionLabel(desc: string, k: nat)
    requires FirstPattern(desc, 0, Resolution) == Some(k)
    ensures var h := ResolutionHeight(desc, k);
      FirstPattern(desc, 0, FrameRate).None? ==> QualityLabel(desc) == h + "p"
    ensures var h := ResolutionHeight(desc, k);
      FirstPattern(desc, 0, FrameRate).Some? ==>
        QualityLabel(desc) == h + "p " + DigitsAt(desc, FirstPattern(desc, 0, FrameRate).value) + "fps"
  {
    var h := ResolutionHeight(desc, k);
    assert QualityLabel(desc) == h + "p" + FrameRateSuffix(desc);
    match FirstPattern(desc, 0, FrameRate)
    case None =>
      assert h + "p" + "" == h + "p";
    case Some(f) =>
      var n := DigitsAt(desc, f);
      assert FrameRateSuffix(desc) == " " + n + "fps";
      LabelWithRate(h, n);
  }

  lemma LabelWithRate(h: string, n: string)
    ensures h + "p" + (" " + n + "fps") == h + "p " + n + "fps"
  {
    assert "p" + " " == "p ";
  }

  /** A resolution label "<H>p…" sorts by H, the height of the leftmost `WxH`. */
  lemma ResolutionLabelHeight(desc: string, k: nat)
    requires FirstPattern(desc, 0, Resolution) == Some(k)
    ensures var h := ResolutionHeight(desc, k);
      StartsWith(QualityLabel(desc), h + "p") && LabelHeight(QualityLabel(desc)) == Some(DecimalValue(h))
  {
    var h := ResolutionHeight(desc, k);
    var fps := FrameRateSuffix(desc);
    assert QualityLabel(desc) == h + "p" + fps;
    assert (h + "p" + fps)[..|h| + 1] == h + "p";
    HeightBeforeP(h, fps);
  }

  /** A label `<n>kbps` sorts by n. */
  lemma BitrateHeight(n: string)
    requires |n| > 0 && AllDigits(n)
    ensures LabelHeight(n + "kbps") == Some(DecimalValue(n))
  {
    var quality := n + "kbps";
    assert quality[|n| + 2..|n| + 3] == "p";
    ContainsAt(quality, "p", |n| + 2);
    ParseIntLeadingDigits(n, "kbps");
  }

  /** A description with no `WxH` and no `audio only` is its own label. */
  lemma VerbatimLabel(desc: string)
    requires FirstPattern(desc, 0, Resolution).None? && !Contains(desc, "audio only")
    ensures QualityLabel(desc) == desc
  {
  }

  /** An audio label "<n>kbps" sorts by n, the number before the leftmost `k`. */
  lemma BitrateLabelHeight(desc: string, k: nat)
    requires FirstPattern(desc, 0, Resolution).None? && Contains(desc, "audio only")
    requires FirstPattern(desc, 0, Bitrate) == Some(k)
    ensures var n := DigitsAt(desc, k);
      |n| > 0 && QualityLabel(desc) == n + "kbps" && LabelHeight(QualityLabel(desc)) == Some(DecimalValue(n))
  {
    var n := DigitsAt(desc, k);
    var quality := n + "kbps";
    assert quality[|n| + 2..|n| + 3] == "p";
    ContainsAt(quality, "p", |n| + 2);
    ParseIntLeadingDigits(n, "kbps");
  }

  /** An audio description without a bitrate is labelled "Audio", which sorts as height 0. */
  lemma AudioLabelHeight(desc: string)
    requires FirstPattern(desc, 0, Resolution).None? && Contains(desc, "audio only")
    requires FirstPattern(desc, 0, Bitrate).None?
    ensures QualityLabel(desc) == "Audio" && LabelHeight("Audio") == Some(0)
  {
    AbsentCharNotContained("Audio", 'p');
  }

  lemma {:induction false} AbsentCharNotContained(s: string, c: char)
    requires c !in s
    ensures !Contains(s, [c])
    decreases |s|
  {
    if |s| > 0 {
      assert s[..1][0] == s[0];
      assert s == [s[0]] + s[1..];
      AbsentCharNotContained(s[1..], c);
    }
  }

  /** `typeOrder`: video with sound first, then video only, then sound only, then neither. */
  function Rank(f: Format): (r: nat)
    ensures r <= 3
    ensures r == 0 <==> f.hasVideo && f.hasAudio
    ensures r == 1 <==> f.hasVideo && !f.hasAudio
    ensures r == 2 <==> !f.hasVideo && f.hasAudio
  {
    if f.hasVideo && f.hasAudio then 0
    else if f.hasVideo then 1
    else if f.hasAudio then 2
    else 3
  }

  /**
   * The comparator: the lower rank first; within a rank the greater height
   * first; a NaN difference counts as equal, as `Array.prototype.sort` treats it.
   */
  function Compare(x: Format, y: Format): int {
    if Rank(x) != Rank(y) then Rank(x) - Rank(y)
    else match (Height(x), Height(y))
      case (Some(hx), Some(hy)) => hy - hx
      case _ => 0
  }

  /**
   * What the comparator's sign means: the lower rank first; within a rank
   * the greater height first, equal heights tie, and a NaN height ties with anything.
   */
  lemma CompareOrder(x: Format, y: Format)
    ensures Rank(x) < Rank(y) ==> Compare(x, y) < 0
    ensures Rank(x) > Rank(y) ==> Compare(x, y) > 0
    ensures Rank(x) == Rank(y) && Height(x).Some? && Height(y).Some? ==>
      (Compare(x, y) < 0 <==> Height(x).value > Height(y).value) && (Compare(x, y) == 0 <==> Height(x).value == Height(y).value)
    ensures Rank(x) == Rank(y) && (Height(x).None? || Height(y).None?) ==> Compare(x, y) == 0
  {
  }

  lemma CompareAntisymmetric(x: Format, y: Format)
    ensures Compare(x, y) == -Compare(y, x)
  {
  }

  /** Every neighbour pair is in comparator order. */
  predicate Sorted(s: seq<Format>) {
    forall k :: 0 < k < |s| ==> Compare(s[k - 1], s[k]) <= 0
  }

  /** In a sorted list the kinds come in order: video with sound, video only, sound only, neither. */
  lemma {:induction false} SortedByRank(s: seq<Format>, i: nat, j: nat)
    requires Sorted(s) && i <= j < |s|
    ensures Rank(s[i]) <= Rank(s[j])
    decreases j - i
  {
    if i < j {
      SortedByRank(s, i, j - 1);
      assert Compare(s[j - 1], s[j]) <= 0;
    }
  }

  /**
   * The integer core of the next lemma: if each neighbour pair either raises the
   * rank or keeps it and does not raise the height, then between two equal ranks
   * the height never rises.
   */
  lemma {:induction false} StepsDescend(ranks: seq<int>, heights: seq<int>, i: nat, j: nat)
    requires |ranks| == |heights| && i <= j < |ranks|
    requires forall k :: 0 < k < |ranks| ==> ranks[k - 1] <= ranks[k]
    requires forall k :: 0 < k < |ranks| && ranks[k - 1] == ranks[k] ==> heights[k - 1] >= heights[k]
    requires ranks[i] == ranks[j]
    ensures heights[i] >= heights[j]
    decreases j - i
  {
    if i < j {
      Nondecreasing(ranks, i, j - 1);
      StepsDescend(ranks, heights, i, j - 1);
    }
  }

  lemma {:induction false} Nondecreasing(ranks: seq<int>, i: nat, j: nat)
    requires i <= j < |ranks|
    requires forall k :: 0 < k < |ranks| ==> ranks[k - 1] <= ranks[k]
    ensures ranks[i] <= ranks[j]
    decreases j - i
  {
    if i < j {
      Nondecreasing(ranks, i, j - 1);
    }
  }

  /** Within one kind, a sorted list whose labels all read as numbers goes from the greatest height down. */
  lemma SortedByHeight(s: seq<Format>, i: nat, j: nat)
    requires Sorted(s) && i <= j < |s| && Rank(s[i]) == Rank(s[j])
    requires forall k :: 0 <= k < |s| ==> Height(s[k]).Some?
    ensures Height(s[i]).value >= Height(s[j]).value
  {
    var ranks := seq(|s|, k requires 0 <= k < |s| => Rank(s[k]) as int);
    var heights := seq(|s|, k requires 0 <= k < |s| => Height(s[k]).value);
    forall k | 0 < k < |s|
      ensures ranks[k - 1] <= ranks[k]
      ensures ranks[k - 1] == ranks[k] ==> heights[k - 1] >= heights[k]
    {
      assert Compare(s[k - 1], s[k]) <= 0;
      CompareOrder(s[k - 1], s[k]);
    }
    StepsDescend(ranks, heights, i, j);
  }

  // The stable insertion sort is stated for any comparator, so that its
  // proofs never unfold the label parsing behind Compare.

  /** Every neighbour pair is in `cmp` order. */
  predicate SortedBy<T>(s: seq<T>, cmp: (T, T) -> int) {
    forall k :: 0 < k < |s| ==> cmp(s[k - 1], s[k]) <= 0
  }

  /** Swapping the arguments negates the result, as for `Compare`. */
  ghost predicate Antisymmetric<T(!new)>(cmp: (T, T) -> int) {
    forall x, y :: cmp(x, y) == -cmp(y, x)
  }

  /**
   * Insertion from the back: `x` moves down past every element that compares
   * greater than it and stops behind the first one that does not, so it stays
   * after the elements it ties with.
   */
  function InsertBack<T>(s: seq<T>, x: T, cmp: (T, T) -> int): (r: seq<T>)
    ensures |r| == |s| + 1
    ensures r[|s|] == x || (s != [] && r[|s|] == s[|s| - 1])
    decreases |s|
  {
    if s == [] || cmp(s[|s| - 1], x) <= 0 then s + [x]
    else InsertBack(s[..|s| - 1], x, cmp) + [s[|s| - 1]]
  }

  /**
   * Where the insertion puts `x`: behind every element that does not compare
   * greater than it (so behind everything it ties with), and in front of the
   * elements after that point, which all compare greater.
   */
  lemma {:induction false} InsertBackAt<T>(s: seq<T>, x: T, cmp: (T, T) -> int) returns (p: nat)
    ensures p <= |s| && InsertBack(s, x, cmp) == s[..p] + [x] + s[p..]
    ensures forall k :: p <= k < |s| ==> cmp(s[k], x) > 0
    ensures p > 0 ==> cmp(s[p - 1], x) <= 0
    decreases |s|
  {
    if s == [] || cmp(s[|s| - 1], x) <= 0 {
      p := |s|;
      assert s[..p] == s && s[p..] == [];
    } else {
      var init := s[..|s| - 1];
      p := InsertBackAt(init, x, cmp);
      assert init[..p] == s[..p];
      assert init[p..] + [s[|s| - 1]] == s[p..];
      forall k | p <= k < |s| ensures cmp(s[k], x) > 0 {
        if k < |s| - 1 {
          assert s[k] == init[k];
        }
      }
    }
  }

  /** The stable sort: each element in input order is inserted from the back into the sorted elements before it. */
  function InsertionSort<T>(s: seq<T>, cmp: (T, T) -> int): (r: seq<T>)
    ensures |r| == |s|
    decreases |s|
  {
    if s == [] then [] else InsertBack(InsertionSort(s[..|s| - 1], cmp), s[|s| - 1], cmp)
  }

  lemma {:induction false} InsertBackElements<T>(s: seq<T>, x: T, cmp: (T, T) -> int)
    ensures multiset(InsertBack(s, x, cmp)) == multiset(s) + multiset{x}
    decreases |s|
  {
    if s != [] && cmp(s[|s| - 1], x) > 0 {
      InsertBackElements(s[..|s| - 1], x, cmp);
      assert s == s[..|s| - 1] + [s[|s| - 1]];
    }
  }

  lemma SortedByInit<T>(s: seq<T>, cmp: (T, T) -> int)
    requires s != [] && SortedBy(s, cmp)
    ensures SortedBy(s[..|s| - 1], cmp)
  {
    var init := s[..|s| - 1];
    forall k | 0 < k < |init| ensures cmp(init[k - 1], init[k]) <= 0 {
      assert init[k - 1] == s[k - 1] && init[k] == s[k];
    }
  }

  lemma {:induction false} InsertBackSorted<T(!new)>(s: seq<T>, x: T, cmp: (T, T) -> int)
    requires Antisymmetric(cmp) && SortedBy(s, cmp)
    ensures SortedBy(InsertBack(s, x, cmp), cmp)
    decreases |s|
  {
    if s != [] && cmp(s[|s| - 1], x) > 0 {
      var init, last := s[..|s| - 1], s[|s| - 1];
      SortedByInit(s, cmp);
      InsertBackSorted(init, x, cmp);
      var t := InsertBack(init, x, cmp);
      var r := t + [last];
      assert cmp(x, last) == -cmp(last, x);
      assert cmp(t[|t| - 1], last) <= 0;
      forall k | 0 < k < |r| ensures cmp(r[k - 1], r[k]) <= 0 {
        if k < |t| {
          assert r[k - 1] == t[k - 1] && r[k] == t[k];
        }
      }
    }
  }

  /** The insertion sort puts every neighbour pair in order and keeps the elements. */
  lemma {:induction false} InsertionSortSpec<T(!new)>(s: seq<T>, cmp: (T, T) -> int)
    requires Antisymmetric(cmp)
    ensures SortedBy(InsertionSort(s, cmp), cmp)
    ensures multiset(InsertionSort(s, cmp)) == multiset(s)
    decreases |s|
  {
    if s != [] {
      InsertionSortSpec(s[..|s| - 1], cmp);
      InsertBackSorted(InsertionSort(s[..|s| - 1], cmp), s[|s| - 1], cmp);
      InsertBackElements(InsertionSort(s[..|s| - 1], cmp), s[|s| - 1], cmp);
      assert s == s[..|s| - 1] + [s[|s| - 1]];
    }
  }

  /** Input already in order comes back as it is: ties keep their input order. */
  lemma {:induction false} InsertionSortOfSorted<T>(s: seq<T>, cmp: (T, T) -> int)
    requires SortedBy(s, cmp)
    ensures InsertionSort(s, cmp) == s
    decreases |s|
  {
    if s != [] {
      SortedByInit(s, cmp);
      InsertionSortOfSorted(s[..|s| - 1], cmp);
      if |s| > 1 {
        assert cmp(s[|s| - 2], s[|s| - 1]) <= 0;
      }
      assert s[..|s| - 1] + [s[|s| - 1]] == s;
    }
  }

  /**
   * The inner loop's invariant: `x` stands at `j`, and inserting it into the
   * sorted prefix gives what inserting it into `s[..j]` gives, followed by the
   * elements it has already passed.
   */
  ghost predicate Inserting<T>(s: seq<T>, sorted: seq<T>, x: T, i: nat, j: nat, cmp: (T, T) -> int) {
    j <= i < |s| && s[j] == x && InsertBack(sorted, x, cmp) == InsertBack(s[..j], x, cmp) + s[j + 1..i + 1]
  }

  /** Swapping `x` with a greater element in front of it moves the insertion point one place down. */
  lemma InsertingSwap<T>(s: seq<T>, sorted: seq<T>, x: T, i: nat, j: nat, cmp: (T, T) -> int)
    requires Inserting(s, sorted, x, i, j, cmp) && 0 < j && cmp(s[j - 1], x) > 0
    ensures Inserting(s[j - 1 := s[j]][j := s[j - 1]], sorted, x, i, j - 1, cmp)
  {
    var t := s[j - 1 := s[j]][j := s[j - 1]];
    assert s[..j][..j - 1] == s[..j - 1] == t[..j - 1];
    assert t[j..i + 1] == [s[j - 1]] + s[j + 1..i + 1];
  }

  /** Once the element in front of `x` does not compare greater, the first `i + 1` elements are the insertion. */
  lemma InsertingDone<T>(s: seq<T>, sorted: seq<T>, x: T, i: nat, j: nat, cmp: (T, T) -> int)
    requires Inserting(s, sorted, x, i, j, cmp) && (j == 0 || cmp(s[j - 1], x) <= 0)
    ensures s[..i + 1] == InsertBack(sorted, x, cmp)
  {
    assert s[..i + 1] == s[..j] + [x] + s[j + 1..i + 1];
  }

  /** Sorting one more element of the input inserts it into the sorted elements before it. */
  lemma InsertionSortStep<T>(input: seq<T>, i: nat, cmp: (T, T) -> int)
    requires i < |input|
    ensures InsertionSort(input[..i + 1], cmp) == InsertBack(InsertionSort(input[..i], cmp), input[i], cmp)
  {
    assert input[..i + 1][..i] == input[..i];
  }

  /** The records in the order the ES2019 stable `sort` gives them with the comparator. */
  function StableSort(s: seq<Format>): seq<Format> {
    InsertionSort(s, Compare)
  }

  lemma CompareIsAntisymmetric()
    ensures Antisymmetric(Compare)
  {
    forall x: Format, y: Format ensures Compare(x, y) == -Compare(y, x) {
      CompareAntisymmetric(x, y);
    }
  }

  /** The stable sort is in comparator order and keeps the records; a sorted list is returned as it is. */
  lemma StableSortSpec(s: seq<Format>)
    ensures Sorted(StableSort(s)) && multiset(StableSort(s)) == multiset(s)
    ensures Sorted(s) ==> StableSort(s) == s
  {
    CompareIsAntisymmetric();
    InsertionSortSpec(s, Compare);
    if Sorted(s) {
      InsertionSortOfSorted(s, Compare);
    }
  }

  /** One pass of the insertion sort: `a[i]` moves down behind the last of `a[..i]` that does not compare greater. */
  method InsertLast(a: array<Format>, i: nat)
    requires i < a.Length
    modifies a
    ensures a[..i + 1] == InsertBack(old(a[..i]), old(a[i]), Compare)
    ensures a[i + 1..] == old(a[i + 1..])
  {
    ghost var sorted := a[..i];
    ghost var x := a[i];
    var j := i;
    while j > 0 && Compare(a[j - 1], a[j]) > 0
      invariant Inserting(a[..], sorted, x, i, j, Compare)
      invariant a[i + 1..] == old(a[i + 1..])
    {
      InsertingSwap(a[..], sorted, x, i, j, Compare);
      a[j - 1], a[j] := a[j], a[j - 1];
      j := j - 1;
    }
    InsertingDone(a[..], sorted, x, i, j, Compare);
  }

  /** `formats.sort(comparator)`, as an insertion sort with the same comparator: the stable sort in place. */
  method SortFormats(a: array<Format>)
    modifies a
    ensures a[..] == StableSort(old(a[..]))
    ensures Sorted(a[..])
    ensures multiset(a[..]) == multiset(old(a[..]))
  {
    ghost var input := a[..];
    var i := 0;
    while i < a.Length
      invariant 0 <= i <= a.Length
      invariant a[..i] == InsertionSort(input[..i], Compare)
      invariant a[i..] == input[i..]
    {
      InsertLast(a, i);
      InsertionSortStep(input, i, Compare);
      i := i + 1;
    }
    assert a[..] == a[..a.Length] && input == input[..a.Length];
    StableSortSpec(input);
  }

  // ---------------------------------------------------------------------------
  // All lines (server.js:240-241, 259-310)
  // ---------------------------------------------------------------------------

  /** The records of the lines that match, in line order. */
  function ParseLines(lines: seq<string>): seq<Format>
    decreases |lines|
  {
    if lines == [] then [] else ParseLines(lines[..|lines| - 1]) + LineRecord(lines[|lines| - 1])
  }

  /** The record of one line, if it matches. */
  function LineRecord(line: string): (r: seq<Format>)
    ensures |r| <= 1
  {
    match ParseLine(line) case Some(f) => [f] case None => []
  }

  /** Every parsed record has a digit itag and the `Otomatik` size. */
  lemma {:induction false} ParseLinesRecords(lines: seq<string>)
    ensures forall k :: 0 <= k < |ParseLines(lines)| ==>
      ParseLines(lines)[k].filesize == "Otomatik" && |ParseLines(lines)[k].itag| > 0 && AllDigits(ParseLines(lines)[k].itag)
    decreases |lines|
  {
    if lines != [] {
      ParseLinesRecords(lines[..|lines| - 1]);
    }
  }

  /** Each line contributes on its own and in its place: parsing a concatenation concatenates the results. */
  lemma {:induction false} ParseLinesAppend(xs: seq<string>, ys: seq<string>)
    ensures ParseLines(xs + ys) == ParseLines(xs) + ParseLines(ys)
    decreases |ys|
  {
    if ys == [] {
      assert xs + ys == xs;
    } else {
      var init, last := ys[..|ys| - 1], ys[|ys| - 1];
      assert (xs + ys)[..|xs + ys| - 1] == xs + init;
      assert (xs + ys)[|xs + ys| - 1] == last;
      assert ParseLines(xs + ys) == ParseLines(xs + init) + LineRecord(last);
      ParseLinesAppend(xs, init);
      assert ParseLines(ys) == ParseLines(init) + LineRecord(last);
    }
  }

  /** A matching line yields exactly one record and any other line none. */
  lemma ParseOneLine(line: string)
    ensures |ParseLines([line])| == (if LineMatches(line) then 1 else 0)
    ensures LineMatches(line) ==> ParseLines([line]) == [ParseLine(line).value]
  {
    assert [line][..0] == [];
  }

  // ---------------------------------------------------------------------------
  // The synthetic entries (server.js:314-340)
  // ---------------------------------------------------------------------------

  const Best: Format := Format("best", "Otomatik", "mp4", true, true, "En İyi Kalite (Otomatik)", "Otomatik")

  predicate VideoOnly(f: Format) { f.hasVideo && !f.hasAudio }
  predicate AudioOnly(f: Format) { f.hasAudio && !f.hasVideo }

  /** `formats.find(…)`: the first video-only (`video`) or audio-only (`!video`) record. */
  function FindOnly(fs: seq<Format>, video: bool): (r: Option<nat>)
    ensures r.Some? ==> r.value < |fs| && (if video then VideoOnly(fs[r.value]) else AudioOnly(fs[r.value]))
    ensures r.Some? ==> forall k :: 0 <= k < r.value ==> !(if video then VideoOnly(fs[k]) else AudioOnly(fs[k]))
    ensures r.None? ==> forall k :: 0 <= k < |fs| ==> !(if video then VideoOnly(fs[k]) else AudioOnly(fs[k]))
    decreases |fs|
  {
    if fs == [] then None
    else if (if video then VideoOnly(fs[0]) else AudioOnly(fs[0])) then Some(0)
    else match FindOnly(fs[1..], video)
      case Some(k) => Some(k + 1)
      case None => None
  }

  /** The entry that asks for the first video-only and the first audio-only format together. */
  function Combined(v: Format, a: Format): (r: Format)
    ensures r.itag == v.itag + "+" + a.itag && r.hasVideo && r.hasAudio && Rank(r) == 0
    ensures r.qualityLabel == v.qualityLabel && r.container == "mp4"
  {
    Format(v.itag + "+" + a.itag, v.qualityLabel, "mp4", true, true, v.qualityLabel + " (En İyi Kalite Video + Ses)", "Otomatik")
  }

  /** The list after the two `unshift` calls. */
  function WithSyntheticEntries(fs: seq<Format>): (r: seq<Format>)
    ensures fs == [] ==> r == []
    ensures fs != [] ==> |fs| < |r| <= |fs| + 2 && r[0] == Best && r[|r| - |fs|..] == fs
    ensures fs != [] ==> (|r| == |fs| + 2 <==>
      (exists k :: 0 <= k < |fs| && VideoOnly(fs[k])) && (exists k :: 0 <= k < |fs| && AudioOnly(fs[k])))
    ensures |r| == |fs| + 2 ==> r[1] == Combined(fs[FindOnly(fs, true).value], fs[FindOnly(fs, false).value])
  {
    if fs == [] then []
    else
      var withCombined :=
        match (FindOnly(fs, true), FindOnly(fs, false))
        case (Some(v), Some(a)) => [Combined(fs[v], fs[a])] + fs
        case _ => fs;
      [Best] + withCombined
  }

  /** The `best` entry asks for video with sound, so it leads the sorted list's first kind. */
  lemma SyntheticEntriesHaveSound(fs: seq<Format>)
    requires fs != []
    ensures var r := WithSyntheticEntries(fs);
      forall k :: 0 <= k < |r| - |fs| ==> r[k].hasAudio && r[k].hasVideo && Rank(r[k]) == 0
  {
    var r := WithSyntheticEntries(fs);
    forall k | 0 <= k < |r| - |fs|
      ensures r[k].hasAudio && r[k].hasVideo && Rank(r[k]) == 0
    {
      if k == 0 {
        assert r[0] == Best;
      } else {
        CombinedEntryHasSound(fs);
      }
    }
  }

  lemma CombinedEntryHasSound(fs: seq<Format>)
    requires |WithSyntheticEntries(fs)| == |fs| + 2
    ensures var c := WithSyntheticEntries(fs)[1]; c.hasAudio && c.hasVideo && Rank(c) == 0
  {
    var v, a := FindOnly(fs, true).value, FindOnly(fs, false).value;
    assert WithSyntheticEntries(fs)[1] == Combined(fs[v], fs[a]);
  }

  // ---------------------------------------------------------------------------
  // The title (server.js:244-251)
  // ---------------------------------------------------------------------------

  const DefaultTitle: string := "YouTube Video"

  /** `lines.find(line => line.startsWith('[info]'))` */
  function FirstInfoLine(lines: seq<string>): (r: Option<nat>)
    ensures r.Some? ==> r.value < |lines| && StartsWith(lines[r.value], "[info]")
    ensures r.Some? ==> forall k :: 0 <= k < r.value ==> !StartsWith(lines[k], "[info]")
    ensures r.None? ==> forall k :: 0 <= k < |lines| ==> !StartsWith(lines[k], "[info]")
    decreases |lines|
  {
    if lines == [] then None
    else if StartsWith(lines[0], "[info]") then Some(0)
    else match FirstInfoLine(lines[1..])
      case Some(k) => Some(k + 1)
      case None => None
  }

  /** The lazy `(.*?):` from `k`: the first colon, unless a line terminator comes before it. */
  function ColonAfter(s: string, k: nat): (r: Option<nat>)
    requires k <= |s|
    ensures r.Some? ==> k <= r.value < |s| && s[r.value] == ':'
    ensures r.Some? ==> forall i :: k <= i < r.value ==> s[i] != ':' && !IsLineTerminator(s[i])
    ensures r.None? ==> forall j :: k <= j < |s| && s[j] == ':' ==> exists i :: k <= i < j && IsLineTerminator(s[i])
    decreases |s| - k
  {
    if k == |s| then None
    else if s[k] == ':' then Some(k)
    else if IsLineTerminator(s[k]) then None
    else ColonAfter(s, k + 1)
  }

  /** `\[info\] (.*?):` matches at `j`: `[info] ` stands there and a colon follows on its line. */
  predicate InfoAt(s: string, j: nat) {
    OccursAt(s, "[info] ", j) && ColonAfter(s, j + 7).Some?
  }

  /** The leftmost match of `\[info\] (.*?):` at or after `i`: where `[info] ` starts and where the colon is. */
  function InfoMatch(s: string, i: nat): (r: Option<(nat, nat)>)
    requires i <= |s|
    ensures r.Some? ==> i <= r.value.0 && InfoAt(s, r.value.0) && ColonAfter(s, r.value.0 + 7) == Some(r.value.1)
    ensures r.Some? ==> forall j :: i <= j < r.value.0 ==> !InfoAt(s, j)
    ensures r.None? ==> forall j :: i <= j < |s| ==> !InfoAt(s, j)
    decreases |s| - i
  {
    if i == |s| then None
    else if InfoAt(s, i) then Some((i, ColonAfter(s, i + 7).value))
    else InfoMatch(s, i + 1)
  }

  /**
   * The title shown: group 1 of the first `[info]` line's match, unless there
   * is no such line or no match or the group is empty.
   */
  function HeaderTitle(lines: seq<string>): (t: string)
    ensures t == DefaultTitle || (t != "" && ':' !in t && NoLineTerminator(t))
    ensures (forall k :: 0 <= k < |lines| ==> !StartsWith(lines[k], "[info]")) ==> t == DefaultTitle
  {
    match FirstInfoLine(lines)
    case None => DefaultTitle
    case Some(n) =>
      var line := lines[n];
      match InfoMatch(line, 0)
      case None => DefaultTitle
      case Some((i, j)) =>
        if j > i + 7 then line[i + 7..j]
        else DefaultTitle
  }

  /** A first `[info]` line in which no `[info] ` is followed by a colon on its line leaves the default title. */
  lemma HeaderWithoutMatch(lines: seq<string>, n: nat)
    requires n < |lines| && StartsWith(lines[n], "[info]")
    requires forall k :: 0 <= k < n ==> !StartsWith(lines[k], "[info]")
    requires forall j :: 0 <= j < |lines[n]| ==> !InfoAt(lines[n], j)
    ensures HeaderTitle(lines) == DefaultTitle
  {
    assert FirstInfoLine(lines) == Some(n);
  }

  lemma ColonAfterIs(s: string, k: nat, j: nat)
    requires k <= j < |s| && s[j] == ':'
    requires forall i :: k <= i < j ==> s[i] != ':' && !IsLineTerminator(s[i])
    ensures ColonAfter(s, k) == Some(j)
    decreases j - k
  {
    if k < j {
      ColonAfterIs(s, k + 1, j);
    }
  }

  /** A header line `[info] <title>:<rest>` after lines that are not `[info]` lines gives back `<title>`. */
  lemma HeaderTitleOf(before: seq<string>, title: string, rest: string, after: seq<string>)
    requires forall k :: 0 <= k < |before| ==> !StartsWith(before[k], "[info]")
    requires title != "" && ':' !in title && NoLineTerminator(title)
    ensures HeaderTitle(before + ["[info] " + title + ":" + rest] + after) == title
  {
    var lines := before + ["[info] " + title + ":" + rest] + after;
    var line := "[info] " + title + ":" + rest;
    assert lines[|before|] == line;
    FirstInfoLineIs(before, line, after);
    HeaderLineMatch(title, rest);
  }

  /** The first `[info]` line after lines that are not `[info]` lines is that line. */
  lemma FirstInfoLineIs(before: seq<string>, line: string, after: seq<string>)
    requires forall k :: 0 <= k < |before| ==> !StartsWith(before[k], "[info]")
    requires StartsWith(line, "[info]")
    ensures FirstInfoLine(before + [line] + after) == Some(|before|)
  {
    var lines := before + [line] + after;
    assert lines[|before|] == line;
    assert forall k :: 0 <= k < |before| ==> lines[k] == before[k];
  }

  /** In `[info] <title>:<rest>` the match starts at 0 and the lazy group ends at the first colon. */
  lemma HeaderLineMatch(title: string, rest: string)
    requires ':' !in title && NoLineTerminator(title)
    ensures var line := "[info] " + title + ":" + rest;
      && StartsWith(line, "[info]")
      && InfoMatch(line, 0) == Some((0, 7 + |title|)) && line[7..7 + |title|] == title
  {
    var line := "[info] " + title + ":" + rest;
    assert line[..6] == "[info]";
    assert line[0..7] == "[info] ";
    forall i | 7 <= i < 7 + |title| ensures line[i] != ':' && !IsLineTerminator(line[i]) {
      assert line[i] == title[i - 7];
    }
    ColonAfterIs(line, 7, 7 + |title|);
    assert line[7..7 + |title|] == title;
  }

  // ---------------------------------------------------------------------------
  // getVideoInfo on a successful `yt-dlp -F` run (server.js:234-368)
  // ---------------------------------------------------------------------------

  datatype VideoInfo = VideoInfo(title: string, thumbnailUrl: string, formats: seq<Format>)

  /** The line loop: one `push` per matching line. */
  method CollectFormats(lines: seq<string>) returns (formats: seq<Format>)
    ensures formats == ParseLines(lines)
  {
    formats := [];
    for n := 0 to |lines|
      invariant formats == ParseLines(lines[..n])
    {
      assert lines[..n + 1][..n] == lines[..n];
      match ParseLine(lines[n]) {
        case Some(f) => formats := formats + [f];
        case None =>
      }
    }
    assert lines[..|lines|] == lines;
  }

  /** The two `unshift` calls. */
  method AddSyntheticEntries(parsed: seq<Format>) returns (formats: seq<Format>)
    ensures formats == WithSyntheticEntries(parsed)
  {
    formats := parsed;
    if |formats| > 0 {
      var bestVideo := FindOnly(formats, true);
      var bestAudio := FindOnly(formats, false);
      if bestVideo.Some? && bestAudio.Some? {
        formats := [Combined(formats[bestVideo.value], formats[bestAudio.value])] + formats;
      }
      formats := [Best] + formats;
    }
  }

  /**
   * The answer built from the output of `yt-dlp -F "<url>"`: the title, the
   * thumbnail of the id in `url`, and the records of the matching lines with
   * the synthetic entries, sorted.
   */
  method GetVideoInfo(url: string, stdout: string) returns (info: VideoInfo)
    ensures var lines := Split(stdout, '\n');
      && info.title == HeaderTitle(lines)
      && info.thumbnailUrl == VideoId.ThumbnailUrl(VideoId.ExtractVideoId(url))
      && info.formats == StableSort(WithSyntheticEntries(ParseLines(lines)))
      && multiset(info.formats) == multiset(WithSyntheticEntries(ParseLines(lines)))
      && Sorted(info.formats)
  {
    var lines := Split(stdout, '\n');
    var title := HeaderTitle(lines);
    var thumbnailUrl := VideoId.ThumbnailUrl(VideoId.ExtractVideoId(url));
    var parsed := CollectFormats(lines);
    var formats := AddSyntheticEntries(parsed);
    var sorted := SortedCopy(formats);
    StableSortSpec(formats);
    info := VideoInfo(title, thumbnailUrl, sorted);
  }

  /** The list sorted in place in an array of its own, as the handler's `formats.sort` does. */
  method SortedCopy(formats: seq<Format>) returns (sorted: seq<Format>)
    ensures sorted == StableSort(formats)
  {
    var a := new Format[|formats|](k requires 0 <= k < |formats| => formats[k]);
    assert a[..] == formats;
    SortFormats(a);
    sorted := a[..];
  }
}
