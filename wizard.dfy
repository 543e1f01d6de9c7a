/**
 * The Flask wizard of app.py: a URL form, a quality page, a download step
 * and a completion page, held together by the user's session.
 *
 * The session is a `Session` object whose fields are the keys `video_info`,
 * `streams` and `download_file` and the flashed messages.  Each route
 * handler is a method on it.  pytube is an oracle: the handlers receive its
 * answer as a parameter and report which URL they handed it, so that "the
 * resolver is not called" is a statement about that report.
 */
module Wizard {
  import opened Text

  // ---------------------------------------------------------------------------
  // sanitize_filename (app.py:22-24)
  // ---------------------------------------------------------------------------

  /** The nine characters the pattern of app.py:24 removes: backslash, slash, `*`, `?`, `:`, `"`, `<`, `>` and `|`. */
  predicate IsForbidden(c: char) {
    c == '\\' || c == '/' || c == '*' || c == '?' || c == ':' || c == '"' || c == '<' || c == '>' || c == '|'
  }

  /** `sanitize_filename`: every forbidden character is deleted, the rest are kept in order. */
  function Sanitize(s: string): (r: string)
    ensures |r| <= |s|
    ensures forall i :: 0 <= i < |r| ==> !IsForbidden(r[i])
    decreases |s|
  {
    if s == [] then ""
    else (if IsForbidden(s[0]) then "" else [s[0]]) + Sanitize(s[1..])
  }

  /** Removing characters from two pieces is removing them from the whole: order is kept. */
  lemma {:induction false} SanitizeConcat(a: string, b: string)
    ensures Sanitize(a + b) == Sanitize(a) + Sanitize(b)
    decreases |a|
  {
    if a != [] {
      var head := if IsForbidden(a[0]) then "" else [a[0]];
      assert (a + b)[0] == a[0];
      assert (a + b)[1..] == a[1..] + b;
      assert Sanitize(a + b) == head + Sanitize(a[1..] + b);
      SanitizeConcat(a[1..], b);
    } else {
      assert a + b == b;
    }
  }

  /** Text without forbidden characters is left as it is. */
  lemma {:induction false} SanitizeKeeps(s: string)
    requires forall i :: 0 <= i < |s| ==> !IsForbidden(s[i])
    ensures Sanitize(s) == s
    decreases |s|
  {
    if s != [] {
      SanitizeKeeps(s[1..]);
      assert [s[0]] + s[1..] == s;
    }
  }

  lemma SanitizeIdempotent(s: string)
    ensures Sanitize(Sanitize(s)) == Sanitize(s)
  {
    SanitizeKeeps(Sanitize(s));
  }

  /** Every character that is not forbidden survives as often as it occurs. */
  lemma {:induction false} SanitizeCounts(s: string, c: char)
    requires !IsForbidden(c)
    ensures multiset(Sanitize(s))[c] == multiset(s)[c]
    decreases |s|
  {
    if s != [] {
      SanitizeCounts(s[1..], c);
      var kept := if IsForbidden(s[0]) then "" else [s[0]];
      assert multiset(kept)[c] == multiset([s[0]])[c];
      assert multiset(Sanitize(s)) == multiset(kept) + multiset(Sanitize(s[1..]));
      assert s == [s[0]] + s[1..];
      assert multiset(s) == multiset([s[0]]) + multiset(s[1..]);
    }
  }

  // ---------------------------------------------------------------------------
  // The file name (app.py:92-101)
  // ---------------------------------------------------------------------------

  datatype DateTime = DateTime(year: nat, month: nat, day: nat, hour: nat, minute: nat, second: nat)

  /** The ranges of Python's `datetime`, with a four-digit year. */
  predicate ValidDateTime(d: DateTime) {
    1000 <= d.year <= 9999 && 1 <= d.month <= 12 && 1 <= d.day <= 31 &&
    d.hour < 24 && d.minute < 60 && d.second < 60
  }

  function Pad2(n: nat): (ds: string)
    requires n < 100
    ensures |ds| == 2 && AllDigits(ds)
  {
    [DigitChar(n / 10), DigitChar(n % 10)]
  }

  function Pad4(n: nat): (ds: string)
    requires 1000 <= n <= 9999
    ensures |ds| == 4 && AllDigits(ds)
  {
    Pad2(n / 100) + Pad2(n % 100)
  }

  /** `strftime('%Y%m%d_%H%M%S')` */
  function Timestamp(d: DateTime): (ts: string)
    requires ValidDateTime(d)
    ensures |ts| == 15 && ts[8] == '_'
    ensures forall i :: 0 <= i < 15 && i != 8 ==> IsDigit(ts[i])
  {
    Pad4(d.year) + (Pad2(d.month) + (Pad2(d.day) + ("_" + (Pad2(d.hour) + (Pad2(d.minute) + Pad2(d.second))))))
  }

  /** The front of a concatenation is its first part. */
  lemma FrontOf(a: string, b: string, n: nat)
    requires n == |a|
    ensures (a + b)[..n] == a && (a + b)[n..] == b
  {
  }

  lemma Pad2Value(n: nat)
    requires n < 100
    ensures DecimalValue(Pad2(n)) == n
  {
    var ds := Pad2(n);
    assert ds[..1] == [DigitChar(n / 10)];
    assert ds[..1][..0] == [];
    assert DecimalValue(ds[..1]) == n / 10;
  }

  lemma Pad4Value(n: nat)
    requires 1000 <= n <= 9999
    ensures DecimalValue(Pad4(n)) == n
  {
    Pad2Value(n / 100);
    Pad2Value(n % 100);
    DecimalAppend(Pad2(n / 100), Pad2(n % 100));
    assert Pow10(2) == 100;
  }

  /** The timestamp reads back as the date and time it was made from. */
  lemma TimestampFields(d: DateTime)
    requires ValidDateTime(d)
    ensures var ts := Timestamp(d);
      && DecimalValue(ts[0..4]) == d.year && DecimalValue(ts[4..6]) == d.month
      && DecimalValue(ts[6..8]) == d.day && DecimalValue(ts[9..11]) == d.hour
      && DecimalValue(ts[11..13]) == d.minute && DecimalValue(ts[13..15]) == d.second
  {
    var ts := Timestamp(d);
    var r1 := Pad2(d.month) + (Pad2(d.day) + ("_" + (Pad2(d.hour) + (Pad2(d.minute) + Pad2(d.second)))));
    var r2 := Pad2(d.day) + ("_" + (Pad2(d.hour) + (Pad2(d.minute) + Pad2(d.second))));
    var r3 := Pad2(d.hour) + (Pad2(d.minute) + Pad2(d.second));
    var r4 := Pad2(d.minute) + Pad2(d.second);
    FrontOf(Pad4(d.year), r1, 4);
    FrontOf(Pad2(d.month), r2, 2);
    FrontOf(Pad2(d.day), "_" + r3, 2);
    FrontOf("_", r3, 1);
    FrontOf(Pad2(d.hour), r4, 2);
    FrontOf(Pad2(d.minute), Pad2(d.second), 2);
    assert ts[0..4] == Pad4(d.year);
    assert ts[4..6] == ts[4..][..2];
    assert ts[4..6] == Pad2(d.month);
    assert ts[6..8] == ts[4..][2..][..2];
    assert ts[6..8] == Pad2(d.day);
    assert ts[9..11] == ts[4..][2..][2..][1..][..2];
    assert ts[9..11] == Pad2(d.hour);
    assert ts[11..13] == ts[4..][2..][2..][1..][2..][..2];
    assert ts[11..13] == Pad2(d.minute);
    assert ts[13..15] == ts[4..][2..][2..][1..][2..][2..];
    assert ts[13..15] == Pad2(d.second);
    Pad4Value(d.year);
    Pad2Value(d.month);
    Pad2Value(d.day);
    Pad2Value(d.hour);
    Pad2Value(d.minute);
    Pad2Value(d.second);
  }

  /** An f-string shows a missing resolution as `None`. */
  function ResolutionText(resolution: Option<string>): string {
    match resolution
    case Some(r) => r
    case None => "None"
  }

  /** `f"{safe_title}_{stream.resolution}_{timestamp}.mp4"` */
  function FileName(title: string, resolution: Option<string>, ts: string): (name: string)
    ensures StartsWith(name, Sanitize(title) + "_")
    ensures |name| >= |ts| + 4 && name[|name| - |ts| - 4..] == ts + ".mp4"
  {
    Sanitize(title) + "_" + ResolutionText(resolution) + "_" + ts + ".mp4"
  }

  /** `os.path.join(a, b)` on POSIX: an absolute `b` replaces `a`; otherwise `b` follows `a` and one separator. */
  function PathJoin(a: string, b: string): (r: string)
    ensures |b| > 0 && b[0] == '/' ==> r == b
    ensures !(|b| > 0 && b[0] == '/') && a != "" ==>
      |r| > |b| && r[|r| - |b|..] == b && r[|r| - |b| - 1] == '/' && StartsWith(r, a)
  {
    if |b| > 0 && b[0] == '/' then b
    else if a == "" || a[|a| - 1] == '/' then a + b
    else a + "/" + b
  }

  /**
   * The stored download path is one file directly inside `downloads`: the
   * sanitised title cannot contain a `/`, so the join never escapes.
   */
  lemma DownloadPathShape(title: string, resolution: Option<string>, d: DateTime)
    requires ValidDateTime(d) && '/' !in ResolutionText(resolution)
    ensures var name := FileName(title, resolution, Timestamp(d));
      && PathJoin("downloads", name) == "downloads/" + name
      && '/' !in name
      && StartsWith(name, Sanitize(title) + "_")
      && name[|name| - 19..] == Timestamp(d) + ".mp4"
  {
    var ts := Timestamp(d);
    var safe := Sanitize(title);
    var res := ResolutionText(resolution);
    var name := FileName(title, resolution, ts);
    assert name == (safe + "_" + res + "_") + (ts + ".mp4");
    assert name[|name| - 19..] == ts + ".mp4";
    assert name[..|safe + "_"|] == safe + "_";
    assert forall i :: 0 <= i < |name| ==> name[i] != '/' by {
      forall i | 0 <= i < |name| ensures name[i] != '/' {
        if i < |safe| {
          assert name[i] == safe[i];
        } else if i == |safe| {
          assert name[i] == '_';
        } else if i < |safe| + 1 + |res| {
          assert name[i] == res[i - |safe| - 1];
        } else if i == |safe| + 1 + |res| {
          assert name[i] == '_';
        } else if i < |safe| + 2 + |res| + 15 {
          assert name[i] == ts[i - |safe| - 2 - |res|];
        } else {
          assert name[i] == ".mp4"[i - |safe| - 2 - |res| - 15];
        }
      }
    }
    if |name| > 0 {
      assert name[0] != '/';
    }
  }

  // ---------------------------------------------------------------------------
  // int(itag) (app.py:85)
  // ---------------------------------------------------------------------------

  /** The characters Python strips around an integer literal. */
  predicate IsPySpace(c: char) {
    || ('\t' <= c <= '\r') || ('\U{001C}' <= c <= '\U{001F}') || c == ' '
    || c == '\U{0085}' || c == '\U{00A0}' || c == '\U{1680}' || ('\U{2000}' <= c <= '\U{200A}')
    || c == '\U{2028}' || c == '\U{2029}' || c == '\U{202F}' || c == '\U{205F}' || c == '\U{3000}'
  }

  /** Where the trailing run of spaces before `e` starts, not going below `i`. */
  function SpaceStart(s: string, i: nat, e: nat): (j: nat)
    requires i <= e <= |s|
    ensures i <= j <= e
    ensures forall k :: j <= k < e ==> IsPySpace(s[k])
    ensures j == i || !IsPySpace(s[j - 1])
    decreases e
  {
    if e > i && IsPySpace(s[e - 1]) then SpaceStart(s, i, e - 1) else e
  }

  /** Position `k` holds a digit, or an underscore with a digit after it. */
  predicate GroupChar(d: string, k: nat)
    requires k < |d|
  {
    IsDigit(d[k]) || (d[k] == '_' && k + 1 < |d| && IsDigit(d[k + 1]))
  }

  /** Decimal digits with single underscores between them. */
  predicate DigitGroups(d: string) {
    |d| > 0 && IsDigit(d[0]) && forall k: nat :: k < |d| ==> GroupChar(d, k)
  }

  lemma DigitGroupsChars(d: string)
    requires DigitGroups(d)
    ensures forall k :: 0 <= k < |d| ==> IsDigit(d[k]) || d[k] == '_'
  {
    forall k | 0 <= k < |d| ensures IsDigit(d[k]) || d[k] == '_' {
      assert GroupChar(d, k);
    }
  }

  function RemoveUnderscores(d: string): (r: string)
    requires forall k :: 0 <= k < |d| ==> IsDigit(d[k]) || d[k] == '_'
    ensures AllDigits(r)
    ensures AllDigits(d) ==> r == d
    decreases |d|
  {
    if d == [] then []
    else
      assert AllDigits(d) ==> [d[0]] + d[1..] == d;
      (if d[0] == '_' then [] else [d[0]]) + RemoveUnderscores(d[1..])
  }

  /** `int(s)` with base 10: the value, or None where Python raises `ValueError`. */
  function PyInt(s: string): (r: Option<int>)
    ensures s == "" ==> r.None?
  {
    var i := RunEnd(s, 0, IsPySpace);
    var body := s[i..SpaceStart(s, i, |s|)];
    var signed := |body| > 0 && (body[0] == '-' || body[0] == '+');
    var digits := if signed then body[1..] else body;
    if DigitGroups(digits) then
      DigitGroupsChars(digits);
      var v: int := DecimalValue(RemoveUnderscores(digits));
      Some(if signed && body[0] == '-' then -v else v)
    else None
  }

  /** The itag a quality page submits, `str(stream.itag)`, reads back as that itag. */
  lemma PyIntOfDecimal(n: nat)
    ensures PyInt(NatToDecimal(n)) == Some(n)
  {
    var s := NatToDecimal(n);
    assert !IsPySpace(s[0]);
    assert RunEnd(s, 0, IsPySpace) == 0;
    assert !IsPySpace(s[|s| - 1]);
    assert SpaceStart(s, 0, |s|) == |s|;
    assert s[0..|s|] == s;
    assert !(s[0] == '-' || s[0] == '+');
    assert DigitGroups(s);
    DecimalRoundTrip(n);
  }

  // ---------------------------------------------------------------------------
  // repr() of the rejected text, as the ValueError message shows it
  // ---------------------------------------------------------------------------

  /** A lower-case hexadecimal digit, and its value. */
  function HexDigit(n: nat): (c: char)
    requires n < 16
    ensures IsLowerHex(c) && LowerHexValue(c) == n
  {
    if n < 10 then DigitChar(n) else ('a' as int + n - 10) as char
  }

  predicate IsLowerHex(c: char) { IsDigit(c) || 'a' <= c <= 'f' }

  function LowerHexValue(c: char): nat
    requires IsLowerHex(c)
  {
    if IsDigit(c) then DigitValue(c) else c as int - 'a' as int + 10
  }

  /** The value of the two hexadecimal digits of a `\xhh` escape. */
  function HexValue2(hi: char, lo: char): int {
    if IsLowerHex(hi) && IsLowerHex(lo) then LowerHexValue(hi) * 16 + LowerHexValue(lo) else -1
  }

  /** The quote `repr` uses: double quotes only for text with a single quote and no double quote. */
  function ReprQuote(s: string): char {
    if '\'' in s && '"' !in s then '"' else '\''
  }

  /**
   * How `repr` shows one character inside quotes `q`: the quote and the
   * backslash get a backslash, tab, newline and carriage return their
   * escapes, other ASCII control characters `\xhh`, and the rest is itself.
   */
  function ReprChar(c: char, q: char): (r: string)
    ensures c == q || c == '\\' ==> r == ['\\', c]
    ensures c != q && c == '\t' ==> r == "\\t"
    ensures c != q && c == '\n' ==> r == "\\n"
    ensures c != q && c == '\r' ==> r == "\\r"
    ensures c != q && c != '\\' && (c < ' ' || c == '\U{007F}') && c != '\t' && c != '\n' && c != '\r' ==>
      |r| == 4 && r[..2] == "\\x" && HexValue2(r[2], r[3]) == c as int
    ensures c != q && c != '\\' && ' ' <= c && c != '\U{007F}' ==> r == [c]
  {
    if c == q || c == '\\' then ['\\', c]
    else if c == '\t' then "\\t"
    else if c == '\n' then "\\n"
    else if c == '\r' then "\\r"
    else if c < ' ' || c == '\U{007F}' then ['\\', 'x', HexDigit(c as int / 16), HexDigit(c as int % 16)]
    else [c]
  }

  function ReprBody(s: string, q: char): string
    decreases |s|
  {
    if s == [] then "" else ReprChar(s[0], q) + ReprBody(s[1..], q)
  }

  /** `repr(s)`: the body between two equal quotes, single unless `s` has a single quote and no double quote. */
  function PyRepr(s: string): (r: string)
    ensures |r| >= 2 && r[0] == r[|r| - 1] == ReprQuote(s) && (r[0] == '\'' || r[0] == '"')
  {
    var q := ReprQuote(s);
    [q] + ReprBody(s, q) + [q]
  }

  /** Plain printable text is shown between single quotes, unchanged. */
  lemma {:induction false} ReprPlain(s: string, q: char)
    requires forall i :: 0 <= i < |s| ==> s[i] != q && s[i] != '\\' && ' ' <= s[i] && s[i] != '\U{007F}'
    ensures ReprBody(s, q) == s
    decreases |s|
  {
    if s != [] {
      ReprPlain(s[1..], q);
      assert [s[0]] + s[1..] == s;
    }
  }

  const IntErrorPrefix: string := "invalid literal for int() with base 10: "

  /**
   * The message of the `ValueError` that `int(s)` raises. CPython formats it
   * with `%.200R`, so the repr is cut after 200 characters.
   */
  function IntError(s: string): (m: string)
    ensures StartsWith(m, IntErrorPrefix) && |m| <= |IntErrorPrefix| + 200
    ensures |PyRepr(s)| <= 200 ==> m == IntErrorPrefix + PyRepr(s)
    ensures |PyRepr(s)| > 200 ==> m == IntErrorPrefix + PyRepr(s)[..200]
  {
    var r := PyRepr(s);
    IntErrorPrefix + (if |r| > 200 then r[..200] else r)
  }

  // ---------------------------------------------------------------------------
  // The resolver's answers
  // ---------------------------------------------------------------------------

  /** The attributes of a pytube `YouTube` object that `index` stores. */
  datatype Metadata = Metadata(title: string, thumbnail: string, author: string, length: int)

  /** One progressive stream as pytube describes it. */
  datatype StreamDesc = StreamDesc(itag: int, resolution: Option<string>, fps: int, mimeType: string, filesize: int)

  /** `session['video_info']` */
  datatype VideoInfo = VideoInfo(url: string, title: string, thumbnail: string, author: string, length: int)

  /** One element of `session['streams']`; `sizeMb` is the exact quotient. */
  datatype StreamRow = StreamRow(itag: int, resolution: Option<string>, fps: int, mimeType: string, sizeMb: real)

  /**
   * What `YouTube(url)` and its stream listing do for `index`: raise before
   * the metadata is read, raise while the streams are listed, or give both.
   */
  datatype Lookup =
    | LookupFailed(error: string)
    | StreamsFailed(metadata: Metadata, error: string)
    | Listed(metadata: Metadata, streams: seq<StreamDesc>)

  /** The stream `get_by_itag` finds: none, or one whose download raises or saves the file. */
  datatype Found =
    | NoStream
    | StreamFound(title: string, resolution: Option<string>, downloadError: Option<string>)

  /** What `YouTube(url).streams` does for `download_video`: raise, or offer a lookup. */
  datatype Fetch = OpenFailed(error: string) | Opened(found: Found)

  function Row(d: StreamDesc): (row: StreamRow)
    ensures row.itag == d.itag && row.resolution == d.resolution && row.fps == d.fps && row.mimeType == d.mimeType
    ensures row.sizeMb * 1048576.0 == d.filesize as real
  {
    StreamRow(d.itag, d.resolution, d.fps, d.mimeType, d.filesize as real / 1048576.0)
  }

  /** The append loop of app.py:45-53. */
  method ListStreams(descs: seq<StreamDesc>) returns (rows: seq<StreamRow>)
    ensures |rows| == |descs|
    ensures forall k :: 0 <= k < |descs| ==> rows[k] == Row(descs[k])
  {
    rows := [];
    for n := 0 to |descs|
      invariant |rows| == n
      invariant forall k :: 0 <= k < n ==> rows[k] == Row(descs[k])
    {
      rows := rows + [Row(descs[n])];
    }
  }

  // ---------------------------------------------------------------------------
  // The session and the handlers
  // ---------------------------------------------------------------------------

  datatype Category = Danger | Warning

  datatype Flash = Flash(message: string, category: Category)

  datatype Page = IndexPage | QualityPage | CompletePage

  datatype Response =
    | Redirect(page: Page)
    | RenderIndex
    | RenderQuality(videoInfo: VideoInfo, streams: seq<StreamRow>)
    | RenderComplete(downloadFile: string)

  class Session {
    var videoInfo: Option<VideoInfo>
    var streams: Option<seq<StreamRow>>
    var downloadFile: Option<string>
    /** The pending `_flashes`; their consumption when a template renders them is not modelled. */
    var flashes: seq<Flash>

    constructor()
      ensures videoInfo.None? && streams.None? && downloadFile.None? && flashes == []
    {
      videoInfo := None;
      streams := None;
      downloadFile := None;
      flashes := [];
    }

    /**
     * `/` (app.py:26-62).  A GET renders the form.  A POST without a URL
     * flashes and redirects without asking the resolver; otherwise the
     * resolver is asked for that URL, `video_info` is written as soon as the
     * metadata is read, and `streams` only once every stream is listed.
     */
    method Index(post: bool, youtubeUrl: Option<string>, lookup: Lookup) returns (response: Response, asked: seq<string>)
      modifies this
      ensures downloadFile == old(downloadFile)
      ensures !post ==> (response == RenderIndex && asked == [] &&
        videoInfo == old(videoInfo) && streams == old(streams) && flashes == old(flashes))
      ensures post && Missing(youtubeUrl) ==>
        response == Redirect(IndexPage) && asked == [] &&
        videoInfo == old(videoInfo) && streams == old(streams) &&
        flashes == old(flashes) + [Flash("Lütfen geçerli bir YouTube URL'si girin", Danger)]
      ensures post && !Missing(youtubeUrl) ==> asked == [youtubeUrl.value]
      ensures post && !Missing(youtubeUrl) ==> (
        match lookup
        case LookupFailed(e) =>
          response == Redirect(IndexPage) && videoInfo == old(videoInfo) && streams == old(streams) &&
          flashes == old(flashes) + [Flash("Video bilgilerini yüklerken hata oluştu: " + e, Danger)]
        case StreamsFailed(m, e) =>
          response == Redirect(IndexPage) &&
          videoInfo == Some(VideoInfo(youtubeUrl.value, m.title, m.thumbnail, m.author, m.length)) &&
          streams == old(streams) &&
          flashes == old(flashes) + [Flash("Video bilgilerini yüklerken hata oluştu: " + e, Danger)]
        case Listed(m, descs) =>
          response == Redirect(QualityPage) &&
          videoInfo == Some(VideoInfo(youtubeUrl.value, m.title, m.thumbnail, m.author, m.length)) &&
          streams.Some? && |streams.value| == |descs| &&
          (forall k :: 0 <= k < |descs| ==> streams.value[k] == Row(descs[k])) &&
          flashes == old(flashes))
    {
      if !post {
        return RenderIndex, [];
      }
      if Missing(youtubeUrl) {
        flashes := flashes + [Flash("Lütfen geçerli bir YouTube URL'si girin", Danger)];
        return Redirect(IndexPage), [];
      }
      var url := youtubeUrl.value;
      asked := [url];
      match lookup {
        case LookupFailed(e) =>
          flashes := flashes + [Flash("Video bilgilerini yüklerken hata oluştu: " + e, Danger)];
          response := Redirect(IndexPage);
        case StreamsFailed(m, e) =>
          videoInfo := Some(VideoInfo(url, m.title, m.thumbnail, m.author, m.length));
          flashes := flashes + [Flash("Video bilgilerini yüklerken hata oluştu: " + e, Danger)];
          response := Redirect(IndexPage);
        case Listed(m, descs) =>
          videoInfo := Some(VideoInfo(url, m.title, m.thumbnail, m.author, m.length));
          var rows := ListStreams(descs);
          streams := Some(rows);
          response := Redirect(QualityPage);
      }
    }

    /** `/quality-selection` (app.py:64-70): it renders only with both keys present. */
    method QualitySelection() returns (response: Response)
      modifies this
      ensures videoInfo == old(videoInfo) && streams == old(streams) && downloadFile == old(downloadFile)
      ensures videoInfo.Some? && streams.Some? ==>
        response == RenderQuality(videoInfo.value, streams.value) && flashes == old(flashes)
      ensures videoInfo.None? || streams.None? ==>
        response == Redirect(IndexPage) &&
        flashes == old(flashes) + [Flash("Lütfen önce bir YouTube video URL'si girin", Warning)]
    {
      if videoInfo.None? || streams.None? {
        flashes := flashes + [Flash("Lütfen önce bir YouTube video URL'si girin", Warning)];
        return Redirect(IndexPage);
      }
      response := RenderQuality(videoInfo.value, streams.value);
    }

    /**
     * `/download` (app.py:72-108).  The itag is not checked against the
     * offered streams: it is parsed with `int` and handed to the resolver.
     * Every failure leaves the keys alone and flashes; only a saved file
     * sets `download_file`.
     */
    method DownloadVideo(itag: Option<string>, fetch: Fetch, now: DateTime) returns (response: Response, asked: seq<string>, requested: Option<int>)
      requires ValidDateTime(now)
      modifies this
      ensures videoInfo == old(videoInfo) && streams == old(streams)
      ensures old(videoInfo).None? ==>
        response == Redirect(IndexPage) && asked == [] && requested.None? && downloadFile == old(downloadFile) &&
        flashes == old(flashes) + [Flash("Video bilgileri bulunamadı", Danger)]
      ensures old(videoInfo).Some? && Missing(itag) ==>
        response == Redirect(QualityPage) && asked == [] && requested.None? && downloadFile == old(downloadFile) &&
        flashes == old(flashes) + [Flash("Kalite seçimi bulunamadı", Danger)]
      ensures old(videoInfo).Some? && !Missing(itag) ==>
        asked == [old(videoInfo).value.url] &&
        (fetch.Opened? ==> requested == PyInt(itag.value)) &&
        (fetch.OpenFailed? ==> requested.None?)
      ensures response.Redirect? && response.page == CompletePage <==>
        old(videoInfo).Some? && !Missing(itag) && fetch.Opened? && PyInt(itag.value).Some? &&
        fetch.found.StreamFound? && fetch.found.downloadError.None?
      ensures response == Redirect(CompletePage) ==>
        downloadFile == Some(PathJoin("downloads", FileName(fetch.found.title, fetch.found.resolution, Timestamp(now)))) &&
        flashes == old(flashes)
      ensures response != Redirect(CompletePage) ==> downloadFile == old(downloadFile)
      ensures old(videoInfo).Some? && !Missing(itag) && response != Redirect(CompletePage) ==>
        response == Redirect(QualityPage) &&
        flashes == old(flashes) + [Flash(DownloadFailure(itag.value, fetch),  Danger)]
    {
      if videoInfo.None? {
        flashes := flashes + [Flash("Video bilgileri bulunamadı", Danger)];
        return Redirect(IndexPage), [], None;
      }
      if Missing(itag) {
        flashes := flashes + [Flash("Kalite seçimi bulunamadı", Danger)];
        return Redirect(QualityPage), [], None;
      }
      asked := [videoInfo.value.url];
      requested := None;
      match fetch {
        case OpenFailed(e) =>
          flashes := flashes + [Flash("Video indirilirken hata oluştu: " + e, Danger)];
          response := Redirect(QualityPage);
        case Opened(found) =>
          requested := PyInt(itag.value);
          if requested.None? {
            flashes := flashes + [Flash("Video indirilirken hata oluştu: " + IntError(itag.value), Danger)];
            response := Redirect(QualityPage);
          } else {
            match found {
              case NoStream =>
                flashes := flashes + [Flash("Seçilen kalite bulunamadı", Danger)];
                response := Redirect(QualityPage);
              case StreamFound(title, resolution, downloadError) =>
                if downloadError.Some? {
                  flashes := flashes + [Flash("Video indirilirken hata oluştu: " + downloadError.value, Danger)];
                  response := Redirect(QualityPage);
                } else {
                  var filename := FileName(title, resolution, Timestamp(now));
                  downloadFile := Some(PathJoin("downloads", filename));
                  response := Redirect(CompletePage);
                }
            }
          }
      }
    }

    /** `/complete` (app.py:110-117): it renders only when a download was recorded. */
    method Complete() returns (response: Response)
      modifies this
      ensures videoInfo == old(videoInfo) && streams == old(streams) && downloadFile == old(downloadFile)
      ensures downloadFile.Some? ==> response == RenderComplete(downloadFile.value) && flashes == old(flashes)
      ensures downloadFile.None? ==>
        response == Redirect(IndexPage) && flashes == old(flashes) + [Flash("İndirme bilgisi bulunamadı", Warning)]
    {
      if downloadFile.None? {
        flashes := flashes + [Flash("İndirme bilgisi bulunamadı", Warning)];
        return Redirect(IndexPage);
      }
      response := RenderComplete(downloadFile.value);
    }

    /** `/clear` (app.py:123-126): every key goes, flashed messages included. */
    method Clear() returns (response: Response)
      modifies this
      ensures videoInfo.None? && streams.None? && downloadFile.None? && flashes == []
      ensures response == Redirect(IndexPage)
    {
      videoInfo := None;
      streams := None;
      downloadFile := None;
      flashes := [];
      response := Redirect(IndexPage);
    }

    /** After `/clear`, neither the quality page nor the completion page renders. */
    method ClearThenRevisit() returns (quality: Response, complete: Response)
      modifies this
      ensures quality == Redirect(IndexPage) && complete == Redirect(IndexPage)
      ensures videoInfo.None? && streams.None? && downloadFile.None?
    {
      var _ := Clear();
      quality := QualitySelection();
      complete := Complete();
    }
  }

  const FailurePrefix: string := "Video indirilirken hata oluştu: "

  /**
   * The message `download_video` flashes when it gets past its own checks and
   * fails: the generic prefix with the error text, or the missing-stream
   * message when the lookup found nothing. A bad itag fails at `int` before
   * the lookup.
   */
  function DownloadFailure(itag: string, fetch: Fetch): (m: string)
    ensures StartsWith(m, FailurePrefix) || m == "Seçilen kalite bulunamadı"
    ensures fetch.Opened? && PyInt(itag).None? ==> m == FailurePrefix + IntError(itag)
    ensures m == "Seçilen kalite bulunamadı" <==> fetch == Opened(NoStream) && PyInt(itag).Some?
  {
    match fetch
    case OpenFailed(e) => FailurePrefix + e
    case Opened(found) =>
      if PyInt(itag).None? then FailurePrefix + IntError(itag)
      else (match found
        case NoStream => "Seçilen kalite bulunamadı"
        case StreamFound(_, _, downloadError) =>
          FailurePrefix + (if downloadError.Some? then downloadError.value else ""))
  }
}
