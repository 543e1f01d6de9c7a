/**
 * The download side of server.js: the content type of a served file
 * (server.js:173-188), the extension read from the format list and the output
 * name (server.js:488-503), the `-f` selectors of the first attempt and of the
 * retry (server.js:507-516, 636-645), the progress updates (server.js:539-585,
 * 659-688), the choice of the largest downloaded file (server.js:597-626,
 * 697-729), the backup attempt (server.js:731-768) and the progress tracker
 * that the routes keep per video (server.js:27, 72-84).
 */
module Downloads {
  import opened Text

  // ---------------------------------------------------------------------------
  // Content type of a served file (server.js:173-188)
  // ---------------------------------------------------------------------------

  /** The index just past the last character that is not `/`; 0 when there is none. */
  function TrimmedEnd(path: string, e: nat): (r: nat)
    requires e <= |path|
    ensures r <= e
    ensures r > 0 ==> path[r - 1] != '/'
    ensures forall i :: r <= i < e ==> path[i] == '/'
    decreases e
  {
    if e > 0 && path[e - 1] == '/' then TrimmedEnd(path, e - 1) else e
  }

  /** Where the last path segment before `e` starts: just after the last `/`. */
  function SegmentStart(path: string, e: nat): (r: nat)
    requires e <= |path|
    ensures r <= e
    ensures r > 0 ==> path[r - 1] == '/'
    ensures forall i :: r <= i < e ==> path[i] != '/'
    decreases e
  {
    if e > 0 && path[e - 1] != '/' then SegmentStart(path, e - 1) else e
  }

  /** The index of the last `.` in `s`. */
  function LastDot(s: string): (r: Option<nat>)
    ensures r.Some? ==> r.value < |s| && s[r.value] == '.'
    ensures r.Some? ==> forall i :: r.value < i < |s| ==> s[i] != '.'
    ensures r.None? ==> '.' !in s
    decreases |s|
  {
    if s == [] then None
    else if s[|s| - 1] == '.' then Some(|s| - 1)
    else
      var r := LastDot(s[..|s| - 1]);
      assert s == s[..|s| - 1] + [s[|s| - 1]];
      r
  }

  /**
   * Node's POSIX `path.extname`: trailing slashes are ignored, and in the last
   * segment the extension runs from the last dot, unless there is none, the
   * dot is the segment's first character, or the segment is `..`.
   */
  function Extname(path: string): (ext: string)
    ensures ext == "" || ext[0] == '.'
    ensures '/' !in ext
  {
    var e := TrimmedEnd(path, |path|);
    var segment := path[SegmentStart(path, e)..e];
    match LastDot(segment)
    case None => ""
    case Some(d) =>
      if d == 0 || segment == ".." then ""
      else
        assert forall i :: d <= i < |segment| ==> segment[d..][i - d] == segment[i];
        segment[d..]
  }

  /**
   * `path.extname` in terms of the last segment `path[st..e]`: empty exactly
   * when no dot follows the segment's first character or the segment is `..`;
   * otherwise the end of the segment from its last dot.
   */
  /** A segment with no `.` after its first character leaves no `.` after its first index in the path. */
  lemma NoDotInSegment(path: string, st: nat, e: nat)
    requires st <= e <= |path|
    requires forall i :: 0 < i < e - st ==> path[st..e][i] != '.'
    ensures forall d :: st < d < e ==> path[d] != '.'
  {
    forall d | st < d < e
      ensures path[d] != '.'
    {
      assert path[d] == path[st..e][d - st];
    }
  }

  lemma ExtnameSpec(path: string)
    ensures var e := TrimmedEnd(path, |path|); var st := SegmentStart(path, e);
      Extname(path) == "" <==> (forall d :: st < d < e ==> path[d] != '.') || path[st..e] == ".."
    ensures var e := TrimmedEnd(path, |path|); var st := SegmentStart(path, e); var ext := Extname(path);
      ext != "" ==> st < e - |ext| && path[e - |ext|..e] == ext && '.' !in ext[1..]
  {
    var e := TrimmedEnd(path, |path|);
    var st := SegmentStart(path, e);
    var segment := path[st..e];
    match LastDot(segment)
    case None =>
      ExtnameEmpty(path, e, st);
    case Some(d) =>
      if d == 0 || segment == ".." {
        ExtnameEmpty(path, e, st);
      } else {
        ExtnameFromDot(path, e, st, d);
        assert path[st + d..e][1..] == path[st + d + 1..e];
      }
  }

  /** No `.` after the segment's first character, or the segment `..`: no extension. */
  lemma ExtnameEmpty(path: string, e: nat, st: nat)
    requires e == TrimmedEnd(path, |path|) && st == SegmentStart(path, e)
    requires LastDot(path[st..e]).None? || LastDot(path[st..e]) == Some(0) || path[st..e] == ".."
    ensures Extname(path) == ""
    ensures (forall d :: st < d < e ==> path[d] != '.') || path[st..e] == ".."
  {
    if path[st..e] != ".." {
      NoDotInSegment(path, st, e);
    }
  }

  /** The segment's last `.` at `d > 0`: the extension runs from there to the segment's end. */
  lemma ExtnameFromDot(path: string, e: nat, st: nat, d: nat)
    requires e == TrimmedEnd(path, |path|) && st == SegmentStart(path, e)
    requires LastDot(path[st..e]) == Some(d) && d > 0 && path[st..e] != ".."
    ensures st < st + d < e && path[st + d] == '.'
    ensures Extname(path) == path[st + d..e]
    ensures '.' !in path[st + d + 1..e]
  {
    var segment := path[st..e];
    assert path[st + d] == segment[d];
    assert segment[d..] == path[st + d..e];
    var tail := path[st + d + 1..e];
    assert forall k :: 0 <= k < |tail| ==> tail[k] == segment[d + 1 + k];
  }


  /** The table of server.js:176-182; any other key reads as no entry. */
  function MediaType(key: string): (r: Option<string>)
    ensures r.Some? <==> key in Extensions
  {
    if key == "mp4" then Some("video/mp4")
    else if key == "webm" then Some("video/webm")
    else if key == "m4a" then Some("audio/mp4")
    else if key == "opus" then Some("audio/opus")
    else if key == "ogg" then Some("audio/ogg")
    else None
  }

  /** `contentTypes[fileExt] || 'application/octet-stream'` for `fileExt = path.extname(filename).toLowerCase().substring(1)`. */
  function ContentType(filename: string): (r: string)
    ensures r == "application/octet-stream" || exists w :: w in Extensions && MediaType(w) == Some(r)
  {
    var ext := AsciiLower(Extname(filename));
    var key := if |ext| > 0 then ext[1..] else "";
    match MediaType(key)
    case Some(t) => t
    case None => "application/octet-stream"
  }

  // ---------------------------------------------------------------------------
  // The extension read from the format list (server.js:488-503)
  // ---------------------------------------------------------------------------

  const Extensions: seq<string> := ["mp4", "webm", "m4a", "opus", "ogg"]

  /**
   * `\b<w>\b` with the `i` flag matches at `i`: ASCII letters compare without
   * case, and no word character touches the match on either side. Every
   * extension starts and ends with a letter, so these are the two word
   * boundaries.
   */
  predicate WordAt(s: string, i: nat, w: string) {
    && i + |w| <= |s|
    && (i == 0 || !IsWordChar(s[i - 1]))
    && (forall k :: 0 <= k < |w| ==> AsciiLowerChar(s[i + k]) == w[k])
    && (i + |w| == |s| || !IsWordChar(s[i + |w|]))
  }

  /**
   * The alternative of `\b(mp4|webm|m4a|opus|ogg)\b` (with the `i` flag)
   * that matches at `i`, lower-cased, trying the alternatives from `alt` on in order.
   */
  function ExtensionAt(s: string, i: nat, alt: nat): Option<string>
    requires i <= |s| && alt <= |Extensions|
    decreases |Extensions| - alt
  {
    if alt == |Extensions| then None
    else if WordAt(s, i, Extensions[alt]) then Some(Extensions[alt])
    else ExtensionAt(s, i, alt + 1)
  }

  /**
   * What ExtensionAt reports is one of the extensions and stands as a word at
   * `i`; it reports nothing exactly when no alternative from `alt` on does.
   */
  lemma {:induction false} ExtensionAtSpec(s: string, i: nat, alt: nat)
    requires i <= |s| && alt <= |Extensions|
    ensures ExtensionAt(s, i, alt).Some? ==>
      ExtensionAt(s, i, alt).value in Extensions && WordAt(s, i, ExtensionAt(s, i, alt).value)
    ensures ExtensionAt(s, i, alt).None? ==> forall a :: alt <= a < |Extensions| ==> !WordAt(s, i, Extensions[a])
    decreases |Extensions| - alt
  {
    if alt < |Extensions| && !WordAt(s, i, Extensions[alt]) {
      ExtensionAtSpec(s, i, alt + 1);
    }
  }

  /** The leftmost match of the extension expression at or after `i`, lower-cased. */
  function FirstExtension(s: string, i: nat): (r: Option<string>)
    requires i <= |s|
    ensures r.Some? ==> r.value in Extensions
    decreases |s| - i
  {
    if i == |s| then None
    else match ExtensionAt(s, i, 0)
      case Some(w) => ExtensionAtSpec(s, i, 0); Some(w)
      case None => FirstExtension(s, i + 1)
  }

  /**
   * FirstExtension finds the leftmost position `j` where the expression
   * matches, and reports what matches there.
   */
  lemma {:induction false} FirstExtensionSome(s: string, i: nat) returns (j: nat)
    requires i <= |s| && FirstExtension(s, i).Some?
    ensures i <= j < |s| && ExtensionAt(s, j, 0) == FirstExtension(s, i)
    ensures forall k :: i <= k < j ==> ExtensionAt(s, k, 0).None?
    decreases |s| - i
  {
    if ExtensionAt(s, i, 0).None? {
      assert FirstExtension(s, i) == FirstExtension(s, i + 1);
      j := FirstExtensionSome(s, i + 1);
    } else {
      j := i;
    }
  }

  /** FirstExtension finds nothing exactly when the expression matches at no position. */
  lemma {:induction false} FirstExtensionNone(s: string, i: nat)
    requires i <= |s|
    ensures FirstExtension(s, i).None? <==> forall j :: i <= j < |s| ==> ExtensionAt(s, j, 0).None?
    decreases |s| - i
  {
    if i < |s| {
      if ExtensionAt(s, i, 0).None? {
        FirstExtensionNone(s, i + 1);
      } else {
        assert FirstExtension(s, i).Some?;
        assert !ExtensionAt(s, i, 0).None?;
        assert !(forall j :: i <= j < |s| ==> ExtensionAt(s, j, 0).None?);
      }
    }
  }

  /** The five extensions differ within their first two letters, so at most one matches at a position. */
  lemma ExtensionsDiffer(a: nat, b: nat)
    requires a < |Extensions| && b < |Extensions|
    requires Extensions[a][0] == Extensions[b][0] && Extensions[a][1] == Extensions[b][1]
    ensures a == b
  {
  }

  lemma ExtensionStartsWithLetter(a: nat)
    requires a < |Extensions|
    ensures |Extensions[a]| >= 3 && 'a' <= Extensions[a][0] <= 'z'
  {
  }

  /** Where an extension `w` stands as a word, the expression reports `w`. */
  lemma ExtensionAtWord(s: string, i: nat, w: string)
    requires w in Extensions && WordAt(s, i, w)
    ensures ExtensionAt(s, i, 0) == Some(w)
  {
    var a :| 0 <= a < |Extensions| && Extensions[a] == w;
    ExtensionAtSpec(s, i, 0);
    var v := ExtensionAt(s, i, 0).value;
    var b :| 0 <= b < |Extensions| && v == Extensions[b] && WordAt(s, i, Extensions[b]);
    assert w[0] == AsciiLowerChar(s[i]) == v[0];
    assert w[1] == AsciiLowerChar(s[i + 1]) == v[1];
    ExtensionsDiffer(a, b);
  }

  /** No extension starts at a character that is not a letter. */
  lemma NoExtensionAtNonLetter(s: string, i: nat)
    requires i < |s| && !IsAsciiLetter(s[i])
    ensures ExtensionAt(s, i, 0).None?
  {
    forall a | 0 <= a < |Extensions| ensures !WordAt(s, i, Extensions[a]) {
      ExtensionStartsWithLetter(a);
    }
    ExtensionAtSpec(s, i, 0);
  }

  /** The first line that contains `itag`. */
  function FirstLineWith(lines: seq<string>, itag: string): (r: Option<nat>)
    ensures r.Some? ==> r.value < |lines| && Contains(lines[r.value], itag)
    ensures r.Some? ==> forall k :: 0 <= k < r.value ==> !Contains(lines[k], itag)
    ensures r.None? ==> forall k :: 0 <= k < |lines| ==> !Contains(lines[k], itag)
    decreases |lines|
  {
    if lines == [] then None
    else if Contains(lines[0], itag) then Some(0)
    else match FirstLineWith(lines[1..], itag)
      case Some(k) => Some(k + 1)
      case None => None
  }

  /** Any line that contains the itag, with no earlier line containing it, is the one found. */
  lemma FirstLineWithIsFirst(lines: seq<string>, itag: string)
    ensures forall n :: 0 <= n < |lines| && Contains(lines[n], itag) && (forall k :: 0 <= k < n ==> !Contains(lines[k], itag)) ==>
      FirstLineWith(lines, itag) == Some(n)
  {
    forall n | 0 <= n < |lines| && Contains(lines[n], itag) && (forall k :: 0 <= k < n ==> !Contains(lines[k], itag))
      ensures FirstLineWith(lines, itag) == Some(n)
    {
      var r := FirstLineWith(lines, itag);
      assert r.Some?;
      assert !(r.value < n);
      assert !(r.value > n);
    }
  }

  /** The extension of the output file: from the first line naming the itag, else `mp4`. */
  function SniffedExtension(lines: seq<string>, itag: string): (ext: string)
    ensures ext in Extensions
    ensures (forall k :: 0 <= k < |lines| ==> !Contains(lines[k], itag)) ==> ext == "mp4"
    ensures forall n :: 0 <= n < |lines| && Contains(lines[n], itag) && (forall k :: 0 <= k < n ==> !Contains(lines[k], itag)) ==>
      ext == (match FirstExtension(lines[n], 0) case Some(w) => w case None => "mp4")
  {
    FirstLineWithIsFirst(lines, itag);
    match FirstLineWith(lines, itag)
    case None => "mp4"
    case Some(n) =>
      match FirstExtension(lines[n], 0)
      case Some(w) => w
      case None => "mp4"
  }

  /**
   * A line `<itag><separator><EXT>…` of the format table, where the itag is
   * digits, the separator is not empty and has no letter or other word
   * character, and no earlier line contains the itag, gives the output file
   * the extension `EXT`, lower-cased.
   */
  lemma FormatLineExtension(lines: seq<string>, n: nat, itag: string, sep: string, ext: string, rest: string)
    requires n < |lines| && lines[n] == itag + sep + ext + rest
    requires AllDigits(itag) && |sep| > 0 && forall k :: 0 <= k < |sep| ==> !IsWordChar(sep[k])
    requires AsciiLower(ext) in Extensions && (rest == [] || !IsWordChar(rest[0]))
    requires forall k :: 0 <= k < n ==> !Contains(lines[k], itag)
    ensures SniffedExtension(lines, itag) == AsciiLower(ext)
  {
    var line := lines[n];
    assert line[..|itag|] == itag;
    assert OccursAt(line, itag, 0);
    ContainsIffOccurs(line, itag);
    LineExtension(line, itag, sep, ext, rest);
  }

  /** In `<digits><separator><EXT><rest>` the first extension word is EXT, lower-cased. */
  lemma LineExtension(line: string, itag: string, sep: string, ext: string, rest: string)
    requires line == itag + sep + ext + rest
    requires AllDigits(itag) && |sep| > 0 && forall k :: 0 <= k < |sep| ==> !IsWordChar(sep[k])
    requires AsciiLower(ext) in Extensions && (rest == [] || !IsWordChar(rest[0]))
    ensures FirstExtension(line, 0) == Some(AsciiLower(ext))
  {
    var j := |itag| + |sep|;
    forall k | 0 <= k < j ensures ExtensionAt(line, k, 0).None? {
      if k < |itag| {
        assert line[k] == itag[k];
      } else {
        assert line[k] == sep[k - |itag|];
      }
      NoExtensionAtNonLetter(line, k);
    }
    var w := AsciiLower(ext);
    forall k | 0 <= k < |w| ensures AsciiLowerChar(line[j + k]) == w[k] {
      assert line[j + k] == ext[k];
    }
    assert line[j - 1] == sep[|sep| - 1];
    if rest != [] {
      assert line[j + |w|] == rest[0];
    }
    assert WordAt(line, j, w);
    ExtensionAtWord(line, j, w);
    FirstExtensionAfterNone(line, 0, j);
  }


  /** When no extension stands before `j` and one stands at `j`, it is the leftmost. */
  lemma {:induction false} FirstExtensionAfterNone(s: string, i: nat, j: nat)
    requires i <= j < |s| && ExtensionAt(s, j, 0).Some?
    requires forall k :: i <= k < j ==> ExtensionAt(s, k, 0).None?
    ensures FirstExtension(s, i) == ExtensionAt(s, j, 0)
    decreases j - i
  {
    if i < j {
      FirstExtensionAfterNone(s, i + 1, j);
    }
  }

  /** The loop of server.js:490-500, which stops at the first line naming the itag. */
  method DetectExtension(formatLines: seq<string>, itag: string) returns (ext: string)
    ensures ext == SniffedExtension(formatLines, itag)
    ensures ext in Extensions
  {
    ext := "mp4";
    var n := 0;
    while n < |formatLines|
      invariant 0 <= n <= |formatLines|
      invariant forall k :: 0 <= k < n ==> !Contains(formatLines[k], itag)
    {
      if Contains(formatLines[n], itag) {
        match FirstExtension(formatLines[n], 0) {
          case Some(w) => ext := w;
          case None =>
        }
        return;
      }
      n := n + 1;
    }
  }

  /**
   * `${videoId}_${itag}.${ext}`, the name the download is written under: it
   * starts with the prefix the finishing step looks for, and ends with `.<ext>`.
   */
  function OutputName(videoId: string, itag: string, ext: string): (name: string)
    ensures StartsWith(name, videoId + "_" + itag)
    ensures |name| > |ext| && name[|name| - |ext| - 1..] == "." + ext
  {
    videoId + "_" + itag + "." + ext
  }

  lemma NoSlashInExtensions(w: string)
    requires w in Extensions
    ensures '/' !in w && '.' !in w && |w| > 0 && AsciiLower(w) == w && MediaType(w).Some?
  {
  }

  /**
   * A file served under the name it was written with gets the media type of
   * its extension: the output names and the content-type table agree.
   */
  lemma OutputNameContentType(videoId: string, itag: string, ext: string)
    requires '/' !in videoId && '/' !in itag && ext in Extensions
    ensures ContentType(OutputName(videoId, itag, ext)) == MediaType(ext).value
  {
    NoSlashInExtensions(ext);
    var stem := videoId + "_" + itag;
    NoSlashInStem(videoId, itag);
    ExtnameOf(stem, ext);
    LowerDotExtension(ext);
  }

  lemma NoSlashInStem(videoId: string, itag: string)
    requires '/' !in videoId && '/' !in itag
    ensures '/' !in videoId + "_" + itag
  {
    var stem := videoId + "_" + itag;
    forall i | 0 <= i < |stem| ensures stem[i] != '/' {
      if i < |videoId| {
        assert stem[i] == videoId[i];
      } else if i > |videoId| {
        assert stem[i] == itag[i - |videoId| - 1];
      }
    }
  }

  /** A name `<stem>.<ext>` with no slash and no dot in `ext` has the extension `.<ext>`. */
  lemma ExtnameOf(stem: string, ext: string)
    requires '/' !in stem && '/' !in ext && '.' !in ext && |ext| > 0 && |stem| > 0
    ensures Extname(stem + "." + ext) == "." + ext
  {
    var name := stem + "." + ext;
    assert name[|name| - 1] == ext[|ext| - 1];
    assert TrimmedEnd(name, |name|) == |name|;
    forall i | 0 <= i < |name| ensures name[i] != '/' {
      if i < |stem| {
        assert name[i] == stem[i];
      } else if i > |stem| {
        assert name[i] == ext[i - |stem| - 1];
      }
    }
    SegmentStartWhole(name, |name|);
    assert name[0..|name|] == name;
    assert name[|stem|] == '.';
    forall i | |stem| < i < |name| ensures name[i] != '.' {
      assert name[i] == ext[i - |stem| - 1];
    }
    LastDotIs(name, |stem|);
    assert name[|stem|..] == "." + ext;
  }

  lemma LowerDotExtension(ext: string)
    requires AsciiLower(ext) == ext
    ensures AsciiLower("." + ext) == "." + ext
  {
    assert AsciiLower("." + ext)[0] == '.';
    forall i | 1 <= i < |ext| + 1 ensures AsciiLower("." + ext)[i] == ("." + ext)[i] {
      assert ("." + ext)[i] == ext[i - 1];
      assert AsciiLower(ext)[i - 1] == AsciiLowerChar(ext[i - 1]);
    }
  }

  lemma SegmentStartWhole(path: string, e: nat)
    requires e <= |path| && forall i :: 0 <= i < e ==> path[i] != '/'
    ensures SegmentStart(path, e) == 0
    decreases e
  {
    if e > 0 {
      SegmentStartWhole(path, e - 1);
    }
  }

  lemma LastDotIs(s: string, d: nat)
    requires d < |s| && s[d] == '.' && forall i :: d < i < |s| ==> s[i] != '.'
    ensures LastDot(s) == Some(d)
    decreases |s|
  {
    if d < |s| - 1 {
      LastDotIs(s[..|s| - 1], d);
    }
  }

  /** The backup download is written without an extension, so it is served as plain bytes. */
  lemma BackupContentType(videoId: string)
    requires '/' !in videoId && '.' !in videoId
    ensures ContentType(videoId + "_backup") == "application/octet-stream"
  {
    var name := videoId + "_backup";
    assert name[|name| - 1] == 'p';
    assert forall i :: 0 <= i < |name| ==> name[i] != '/' && name[i] != '.' by {
      forall i | 0 <= i < |name| ensures name[i] != '/' && name[i] != '.' {
        if i < |videoId| {
          assert name[i] == videoId[i];
        } else {
          assert name[i] == "_backup"[i - |videoId|];
        }
      }
    }
    SegmentStartWhole(name, |name|);
    assert name[0..|name|] == name;
    assert '.' !in name;
  }

  /**
   * Any slash-free name `<stem>.<x>` whose `x` has no dot is served with the
   * table's type for `x` lower-cased (so `A.WEBM` is `video/webm`), and as
   * plain bytes when the table has no entry for it (`a.tar.gz`).
   */
  lemma ContentTypeOf(stem: string, x: string)
    requires '/' !in stem && |stem| > 0 && '/' !in x && '.' !in x && |x| > 0
    ensures ContentType(stem + "." + x) ==
      (match MediaType(AsciiLower(x)) case Some(t) => t case None => "application/octet-stream")
  {
    ExtnameOf(stem, x);
    var lower := AsciiLower("." + x);
    assert lower == "." + AsciiLower(x) by {
      forall i | 0 <= i < |lower| ensures lower[i] == ("." + AsciiLower(x))[i] {
        if i > 0 {
          assert ("." + x)[i] == x[i - 1];
        }
      }
    }
    assert lower[1..] == AsciiLower(x);
  }

  /** A slash-free name without a dot after its first character (`video`, `.mp4`) is served as plain bytes. */
  lemma ContentTypeWithoutExtension(name: string)
    requires '/' !in name && forall d :: 0 < d < |name| ==> name[d] != '.'
    ensures ContentType(name) == "application/octet-stream"
  {
    if |name| > 0 {
      assert name[|name| - 1] != '/';
    }
    assert TrimmedEnd(name, |name|) == |name|;
    SegmentStartWhole(name, |name|);
    ExtnameSpec(name);
    assert Extname(name) == "";
  }

  // ---------------------------------------------------------------------------
  // The `-f` selectors (server.js:507-516, 636-645)
  // ---------------------------------------------------------------------------

  /** `s.replace(c, d)` with one-character strings: only the first occurrence is replaced. */
  function ReplaceFirst(s: string, c: char, d: char): (r: string)
    ensures |r| == |s|
    decreases |s|
  {
    if s == [] then []
    else if s[0] == c then [d] + s[1..]
    else [s[0]] + ReplaceFirst(s[1..], c, d)
  }

  /** Without an occurrence of `c` nothing changes. */
  lemma {:induction false} ReplaceFirstAbsent(s: string, c: char, d: char)
    requires c !in s
    ensures ReplaceFirst(s, c, d) == s
    decreases |s|
  {
    if s != [] {
      ReplaceFirstAbsent(s[1..], c, d);
    }
  }

  /** Only the first occurrence of `c`, at `i`, becomes `d`. */
  lemma {:induction false} ReplaceFirstAt(s: string, c: char, d: char, i: nat)
    requires i < |s| && s[i] == c && c !in s[..i]
    ensures ReplaceFirst(s, c, d) == s[..i] + [d] + s[i + 1..]
    decreases i
  {
    if i > 0 {
      assert s[0] != c by { assert s[..i][0] == s[0]; }
      var t := s[1..];
      assert t[..i - 1] == s[..i][1..];
      ReplaceFirstAt(t, c, d, i - 1);
      assert t[i..] == s[i + 1..];
      assert [s[0]] + s[1..i] == s[..i];
    }
  }

  /** server.js:512 replaces `+` by `+`, which changes nothing. */
  lemma {:induction false} ReplaceFirstSame(s: string, c: char)
    ensures ReplaceFirst(s, c, c) == s
    decreases |s|
  {
    if s != [] && s[0] != c {
      ReplaceFirstSame(s[1..], c);
    }
  }

  const BestSelector: string := "-f \"bestvideo[ext=mp4]+bestaudio[ext=m4a]/best[ext=mp4]/best\""

  /** The first attempt asks for the itag itself, quoted; `best` or no itag asks for the best MP4 video with M4A sound. */
  function FirstSelector(itag: string): (opt: string)
    ensures itag == "best" || itag == "" ==> opt == BestSelector
    ensures itag != "best" && itag != "" ==> opt == "-f \"" + itag + "\""
  {
    if itag == "best" then BestSelector
    else if itag != "" && '+' in itag then
      ReplaceFirstSame(itag, '+');
      "-f \"" + ReplaceFirst(itag, '+', '+') + "\""
    else if itag != "" then "-f \"" + itag + "\""
    else BestSelector
  }

  /** The retry: best video with best sound, the video part of a combined itag with the best sound, or the itag falling back to `best`. */
  function RetrySelector(itag: string): (opt: string)
    ensures StartsWith(opt, "-f ")
    ensures |opt| >= 8 && opt[|opt| - 5..] == "/best"
    ensures itag == "best" || itag == "" ==> opt == "-f bestvideo+bestaudio/best"
  {
    if itag == "best" then "-f bestvideo+bestaudio/best"
    else if itag != "" && '+' in itag then "-f " + Split(itag, '+')[0] + "+bestaudio/best"
    else if itag != "" then "-f " + itag + "/best"
    else "-f bestvideo+bestaudio/best"
  }

  /** The first piece of `split('+')` is everything before the first `+`. */
  lemma {:induction false} SplitFirstPiece(s: string, sep: char, v: string, rest: string)
    requires s == v + [sep] + rest && sep !in v
    ensures Split(s, sep)[0] == v
    decreases |v|
  {
    if v == [] {
      assert s[0] == sep;
    } else {
      assert s[1..] == v[1..] + [sep] + rest;
      SplitFirstPiece(s[1..], sep, v[1..], rest);
      assert s[0] == v[0];
      assert [v[0]] + v[1..] == v;
    }
  }

  /**
   * For the combined itag `<video>+<audio>` of the format list, the retry
   * keeps the video format and lets yt-dlp pick the sound.
   */
  lemma RetryOfCombined(video: string, audio: string)
    requires video != "" && '+' !in video
    ensures FirstSelector(video + "+" + audio) == "-f \"" + video + "+" + audio + "\""
    ensures RetrySelector(video + "+" + audio) == "-f " + video + "+bestaudio/best"
  {
    var itag := video + "+" + audio;
    assert '+' in itag && itag != "best" by {
      assert itag[|video|] == '+';
    }
    assert Split(itag, '+')[0] == video by {
      SplitFirstPiece(itag, '+', video, audio);
    }
  }

  /** A plain itag is retried with `best` as fallback. */
  lemma RetryOfPlain(itag: string)
    requires itag != "" && itag != "best" && '+' !in itag
    ensures RetrySelector(itag) == "-f " + itag + "/best"
  {
  }

  // ---------------------------------------------------------------------------
  // Progress (server.js:539-585, 659-688)
  // ---------------------------------------------------------------------------

  /** `(\d+\.\d+)%` matches at `i`. */
  predicate PercentAt(s: string, i: nat) {
    i < |s| && IsDigit(s[i]) &&
    var e := RunEnd(s, i, IsDigit);
    e + 1 < |s| && s[e] == '.' && IsDigit(s[e + 1]) &&
    var f := RunEnd(s, e + 1, IsDigit);
    f < |s| && s[f] == '%'
  }

  /** The leftmost match at or after `i`. */
  function FirstPercent(s: string, i: nat): (r: Option<nat>)
    requires i <= |s|
    ensures r.Some? ==> i <= r.value && PercentAt(s, r.value)
    ensures r.Some? ==> forall j :: i <= j < r.value ==> !PercentAt(s, j)
    ensures r.None? ==> forall j :: i <= j ==> !PercentAt(s, j)
    decreases |s| - i
  {
    if i == |s| then None
    else if PercentAt(s, i) then Some(i)
    else FirstPercent(s, i + 1)
  }

  /** The value of a decimal `<whole>.<fraction>`, as `parseFloat` reads it (exactly). */
  function DecimalReal(whole: string, fraction: string): (v: real)
    requires AllDigits(whole) && AllDigits(fraction)
    ensures v >= 0.0
  {
    DecimalValue(whole) as real + DecimalValue(fraction) as real / Pow10(|fraction|) as real
  }

  /** The percentage in a chunk of output, read from the first `<digits>.<digits>%`. */
  function Percent(output: string): (v: Option<real>)
    ensures v.Some? ==> v.value >= 0.0
  {
    match FirstPercent(output, 0)
    case None => None
    case Some(i) =>
      var e := RunEnd(output, i, IsDigit);
      var f := RunEnd(output, e + 1, IsDigit);
      Some(DecimalReal(output[i..e], output[e + 1..f]))
  }

  /** The new `lastProgress` after a chunk: the chunk's fraction when it is larger, else the old value. */
  function NextProgress(last: real, output: string): (r: real)
    ensures r >= last
    ensures r > last ==> Percent(output).Some? && r == Percent(output).value / 100.0
    ensures Percent(output).Some? ==> r >= Percent(output).value / 100.0
  {
    match Percent(output)
    case Some(v) => if v / 100.0 > last then v / 100.0 else last
    case None => last
  }

  /** `lastProgress` after a sequence of chunks. */
  function Replay(last: real, outputs: seq<string>): (r: real)
    ensures r >= last
    decreases |outputs|
  {
    if outputs == [] then last else Replay(NextProgress(last, outputs[0]), outputs[1..])
  }

  /**
   * After any sequence of chunks the progress is the largest value seen: at
   * least the starting value and every chunk's fraction, and equal to one of them.
   */
  lemma {:induction false} ReplayIsMaximum(last: real, outputs: seq<string>)
    ensures Replay(last, outputs) >= last
    ensures forall k :: 0 <= k < |outputs| && Percent(outputs[k]).Some? ==>
      Replay(last, outputs) >= Percent(outputs[k]).value / 100.0
    ensures Replay(last, outputs) == last ||
      exists k :: 0 <= k < |outputs| && Percent(outputs[k]).Some? && Replay(last, outputs) == Percent(outputs[k]).value / 100.0
    decreases |outputs|
  {
    if outputs != [] {
      var next := NextProgress(last, outputs[0]);
      ReplayIsMaximum(next, outputs[1..]);
      var r := Replay(last, outputs);
      assert r == Replay(next, outputs[1..]);
      forall k | 0 <= k < |outputs| && Percent(outputs[k]).Some? ensures r >= Percent(outputs[k]).value / 100.0 {
        if k > 0 {
          assert outputs[k] == outputs[1..][k - 1];
        }
      }
      if r != last {
        if r == next {
          assert Percent(outputs[0]).Some? && r == Percent(outputs[0]).value / 100.0;
        } else {
          var k :| 0 <= k < |outputs[1..]| && Percent(outputs[1..][k]).Some? && r == Percent(outputs[1..][k]).value / 100.0;
          assert outputs[1..][k] == outputs[k + 1];
        }
      }
    }
  }

  /** `Math.round` for a non-negative value: halves go up. */
  function Round(x: real): (n: nat)
    requires x >= 0.0
    ensures n as real <= x + 0.5 < n as real + 1.0
  {
    (x + 0.5).Floor
  }

  const DownloadingPrefix: string := "İndiriliyor... %"
  const RetryingPrefix: string := "Tekrar indiriliyor... %"

  /** The status of a running download: its prefix and the rounded percentage, which reads back as that number. */
  function DownloadingStatus(progress: real): (status: string)
    requires progress >= 0.0
    ensures StartsWith(status, DownloadingPrefix)
    ensures var n := status[|DownloadingPrefix|..]; AllDigits(n) && DecimalValue(n) == Round(progress * 100.0)
  {
    var n := NatToDecimal(Round(progress * 100.0));
    DecimalRoundTrip(Round(progress * 100.0));
    assert (DownloadingPrefix + n)[|DownloadingPrefix|..] == n;
    DownloadingPrefix + n
  }

  /** The status of the retry, shown the same way. */
  function RetryingStatus(progress: real): (status: string)
    requires progress >= 0.0
    ensures StartsWith(status, RetryingPrefix)
    ensures var n := status[|RetryingPrefix|..]; AllDigits(n) && DecimalValue(n) == Round(progress * 100.0)
  {
    var n := NatToDecimal(Round(progress * 100.0));
    DecimalRoundTrip(Round(progress * 100.0));
    assert (RetryingPrefix + n)[|RetryingPrefix|..] == n;
    RetryingPrefix + n
  }

  /** The status while yt-dlp writes to standard error: only the first line of the chunk, so one line. */
  function StderrStatus(error: string): (status: string)
    ensures '\n' !in status
  {
    var first := Split(error, '\n')[0];
    var prefix := "İndirme devam ediyor... (Hata çıktısı: ";
    var status := prefix + first + ")";
    assert forall k :: 0 <= k < |status| ==> status[k] != '\n' by {
      forall k | 0 <= k < |status| ensures status[k] != '\n' {
        if k < |prefix| {
          assert status[k] == prefix[k];
        } else if k < |prefix| + |first| {
          assert status[k] == first[k - |prefix|];
        }
      }
    }
    status
  }

  // ---------------------------------------------------------------------------
  // The largest downloaded file (server.js:597-626, 697-729)
  // ---------------------------------------------------------------------------

  datatype FileEntry = FileEntry(name: string, size: nat)

  /** The directory entries whose names start with `prefix`, in directory order. */
  function Candidates(files: seq<FileEntry>, prefix: string): (r: seq<FileEntry>)
    ensures forall k :: 0 <= k < |r| ==> StartsWith(r[k].name, prefix)
    decreases |files|
  {
    if files == [] then []
    else
      var rest := Candidates(files[1..], prefix);
      if StartsWith(files[0].name, prefix) then [files[0]] + rest else rest
  }

  /** The filter keeps directory order: filtering a concatenation concatenates the results. */
  lemma {:induction false} CandidatesAppend(xs: seq<FileEntry>, ys: seq<FileEntry>, prefix: string)
    ensures Candidates(xs + ys, prefix) == Candidates(xs, prefix) + Candidates(ys, prefix)
    decreases |xs|
  {
    if xs == [] {
      assert xs + ys == ys;
    } else {
      var f, rest := xs[0], xs[1..];
      assert xs == [f] + rest;
      assert xs + ys == [f] + (rest + ys);
      CandidatesCons(f, rest + ys, prefix);
      CandidatesCons(f, rest, prefix);
      CandidatesAppend(rest, ys, prefix);
    }
  }

  /** Exactly the entries whose names start with the prefix are kept. */
  lemma {:induction false} CandidatesMembers(files: seq<FileEntry>, prefix: string)
    ensures forall f :: f in files && StartsWith(f.name, prefix) ==> f in Candidates(files, prefix)
    ensures forall f :: f in Candidates(files, prefix) ==> f in files
    decreases |files|
  {
    if files != [] {
      CandidatesMembers(files[1..], prefix);
      assert files == [files[0]] + files[1..];
      CandidatesCons(files[0], files[1..], prefix);
    }
  }

  /** A single entry is kept exactly when its name starts with the prefix. */
  lemma CandidatesOne(f: FileEntry, prefix: string)
    ensures Candidates([f], prefix) == if StartsWith(f.name, prefix) then [f] else []
  {
    CandidatesCons(f, [], prefix);
    assert [f] + [] == [f];
  }

  /** The first entry is kept exactly when its name starts with the prefix, in front of the rest's candidates. */
  lemma CandidatesCons(f: FileEntry, rest: seq<FileEntry>, prefix: string)
    ensures Candidates([f] + rest, prefix) == (if StartsWith(f.name, prefix) then [f] else []) + Candidates(rest, prefix)
  {
    assert ([f] + rest)[1..] == rest;
  }

  datatype Selection = NoFiles | OnlyEmpty | Largest(name: string)

  /** Entry `k` is the first of the largest size, and that size is not zero. */
  predicate FirstLargest(files: seq<FileEntry>, k: nat) {
    && k < |files| && files[k].size > 0
    && (forall j :: 0 <= j < |files| ==> files[j].size <= files[k].size)
    && (forall j :: 0 <= j < k ==> files[j].size < files[k].size)
  }

  /** The loop of server.js:605-614 with the test of server.js:616. */
  method SelectLargest(files: seq<FileEntry>) returns (sel: Selection)
    ensures sel == NoFiles <==> files == []
    ensures sel == OnlyEmpty <==> files != [] && forall j :: 0 <= j < |files| ==> files[j].size == 0
    ensures sel.Largest? ==> exists k: nat :: FirstLargest(files, k) && files[k].name == sel.name
  {
    if |files| == 0 {
      return NoFiles;
    }
    var largest: Option<nat> := None;
    var largestSize := 0;
    for n := 0 to |files|
      invariant largest.None? <==> largestSize == 0
      invariant largest.None? ==> forall j :: 0 <= j < n ==> files[j].size == 0
      invariant largest.Some? ==> largest.value < n && files[largest.value].size == largestSize
      invariant largest.Some? ==> forall j :: 0 <= j < n ==> files[j].size <= largestSize
      invariant largest.Some? ==> forall j :: 0 <= j < largest.value ==> files[j].size < largestSize
    {
      if files[n].size > largestSize {
        largestSize := files[n].size;
        largest := Some(n);
      }
    }
    if largest.Some? && largestSize > 0 {
      sel := Largest(files[largest.value].name);
      assert FirstLargest(files, largest.value);
    } else {
      sel := OnlyEmpty;
    }
  }

  // ---------------------------------------------------------------------------
  // The progress tracker and one download (server.js:27, 72-84, 463-795)
  // ---------------------------------------------------------------------------

  /** The record kept per video id for the progress stream. */
  datatype Entry = Entry(progress: real, status: string, complete: bool, error: Option<string>, outputFile: Option<string>)

  /** The record a download request starts from (server.js:79-84). */
  const Starting: Entry := Entry(0.0, "İndirme başlatılıyor...", false, None, None)

  datatype StartResult = MissingArguments(message: string) | Started

  /** The `progressTracker` object: one entry per video id. */
  class ProgressTracker {
    var entries: map<string, Entry>

    constructor()
      ensures entries == map[]
    {
      entries := map[];
    }

    /** POST /api/download: both fields are required; a request resets its video's entry. */
    method StartDownload(videoId: Option<string>, itag: Option<string>) returns (r: StartResult)
      modifies this
      ensures Missing(videoId) || Missing(itag) ==>
        r == MissingArguments("Video ID ve itag gerekli") && entries == old(entries)
      ensures !Missing(videoId) && !Missing(itag) ==>
        r == Started && entries == old(entries)[videoId.value := Starting]
    {
      if Missing(videoId) || Missing(itag) {
        return MissingArguments("Video ID ve itag gerekli");
      }
      entries := entries[videoId.value := Starting];
      r := Started;
    }
  }

  /** What the directory listing after a download gave. */
  datatype Listing = Listed(files: seq<FileEntry>) | ListingFailed(message: string)

  /** The synchronous last attempt: it threw, or it exited with a status and left a file of the given size, if any. */
  datatype BackupRun = BackupThrew | BackupExited(status: Option<int>, size: Option<nat>)

  /**
   * How a download attempt's close handler ends: the promise is resolved with
   * a file name or rejected with a message, the retry is started with a
   * selector, or the handler throws because the entry is gone.
   */
  datatype Step = Resolved(file: string) | Rejected(message: string) | Retry(option: string) | Uncaught

  const RetryNotice: string := "Video formatı değiştirilerek tekrar indiriliyor..."

  function Finished(e: Entry, status: string, name: string): Entry {
    e.(progress := 1.0, status := status, complete := true, outputFile := Some(name))
  }

  function ListingError(e: Entry, message: string): Entry {
    e.(error := Some("Dosya kontrolü hatası: " + message))
  }

  predicate HasNonEmpty(files: seq<FileEntry>) {
    exists j :: 0 <= j < |files| && files[j].size > 0
  }

  ghost predicate IsLargestName(files: seq<FileEntry>, name: string) {
    exists k: nat :: FirstLargest(files, k) && files[k].name == name
  }

  /** One call of `downloadVideo` once the format list has been read. */
  class Download {
    const tracker: ProgressTracker
    const videoId: string
    const itag: string
    /** The name the first attempt writes to, inside the download directory. */
    const outputFile: string
    const formatOption: string
    /** Shared by both attempts' output handlers. */
    var lastProgress: real

    /** The prefix of the names the close handlers look for. */
    function Prefix(): string {
      videoId + "_" + itag
    }

    /** server.js:488-522: the output name, the selector, and the name announced to the tracker. */
    constructor(tracker: ProgressTracker, videoId: string, itag: string, formatLines: seq<string>)
      requires videoId in tracker.entries
      modifies tracker
      ensures this.tracker == tracker && this.videoId == videoId && this.itag == itag
      ensures outputFile == OutputName(videoId, itag, SniffedExtension(formatLines, itag))
      ensures formatOption == FirstSelector(itag)
      ensures lastProgress == 0.0
      ensures tracker.entries ==
        old(tracker.entries)[videoId := old(tracker.entries)[videoId].(outputFile := Some(videoId + "_" + itag + ".mp4"))]
    {
      var ext := DetectExtension(formatLines, itag);
      this.tracker := tracker;
      this.videoId := videoId;
      this.itag := itag;
      outputFile := OutputName(videoId, itag, ext);
      formatOption := FirstSelector(itag);
      lastProgress := 0.0;
      tracker.entries := tracker.entries[videoId := tracker.entries[videoId].(outputFile := Some(videoId + "_" + itag + ".mp4"))];
    }

    /** A chunk of the first attempt's standard output (server.js:539-562). */
    method OnStdout(output: string)
      modifies this, tracker
      ensures videoId !in old(tracker.entries) ==> lastProgress == old(lastProgress) && tracker.entries == old(tracker.entries)
      ensures videoId in old(tracker.entries) ==> lastProgress == NextProgress(old(lastProgress), output)
      ensures videoId in old(tracker.entries) && lastProgress == old(lastProgress) ==> tracker.entries == old(tracker.entries)
      ensures videoId in old(tracker.entries) && lastProgress > old(lastProgress) ==>
        lastProgress >= 0.0 &&
        tracker.entries == old(tracker.entries)[videoId :=
          old(tracker.entries)[videoId].(progress := lastProgress, status := DownloadingStatus(lastProgress))]
    {
      if videoId !in tracker.entries {
        return;
      }
      var next := NextProgress(lastProgress, output);
      if next > lastProgress {
        lastProgress := next;
        tracker.entries := tracker.entries[videoId := tracker.entries[videoId].(progress := next, status := DownloadingStatus(next))];
      }
    }

    /** A chunk of the first attempt's standard error: its first line becomes the status (server.js:564-585). */
    method OnStderr(error: string)
      modifies this, tracker
      ensures videoId !in old(tracker.entries) ==> lastProgress == old(lastProgress) && tracker.entries == old(tracker.entries)
      ensures videoId in old(tracker.entries) ==>
        lastProgress == NextProgress(old(lastProgress), error) &&
        tracker.entries == old(tracker.entries)[videoId :=
          old(tracker.entries)[videoId].(progress := (if lastProgress > old(lastProgress) then lastProgress
                                                      else old(tracker.entries)[videoId].progress),
                                         status := StderrStatus(error))]
    {
      if videoId !in tracker.entries {
        return;
      }
      tracker.entries := tracker.entries[videoId := tracker.entries[videoId].(status := StderrStatus(error))];
      var next := NextProgress(lastProgress, error);
      if next > lastProgress {
        lastProgress := next;
        tracker.entries := tracker.entries[videoId := tracker.entries[videoId].(progress := next)];
      }
    }

    /** A chunk of the retry's standard output (server.js:659-678). */
    method OnRetryStdout(output: string)
      modifies this, tracker
      ensures videoId !in old(tracker.entries) ==> lastProgress == old(lastProgress) && tracker.entries == old(tracker.entries)
      ensures videoId in old(tracker.entries) ==> lastProgress == NextProgress(old(lastProgress), output)
      ensures videoId in old(tracker.entries) && lastProgress == old(lastProgress) ==> tracker.entries == old(tracker.entries)
      ensures videoId in old(tracker.entries) && lastProgress > old(lastProgress) ==>
        lastProgress >= 0.0 &&
        tracker.entries == old(tracker.entries)[videoId :=
          old(tracker.entries)[videoId].(progress := lastProgress, status := RetryingStatus(lastProgress))]
    {
      if videoId !in tracker.entries {
        return;
      }
      var next := NextProgress(lastProgress, output);
      if next > lastProgress {
        lastProgress := next;
        tracker.entries := tracker.entries[videoId := tracker.entries[videoId].(progress := next, status := RetryingStatus(next))];
      }
    }

    /**
     * The first attempt's close handler (server.js:590-633): the largest
     * non-empty candidate completes the download; otherwise the retry starts.
     */
    method FinishFirstAttempt(listing: Listing) returns (step: Step)
      modifies tracker
      ensures videoId !in old(tracker.entries) ==> step == Uncaught && tracker.entries == old(tracker.entries)
      ensures videoId in old(tracker.entries) && listing.ListingFailed? ==>
        step == Rejected("İndirme başarısız: " + listing.message) &&
        tracker.entries == old(tracker.entries)[videoId := ListingError(old(tracker.entries)[videoId], listing.message)]
      ensures videoId in old(tracker.entries) && listing.Listed? ==>
        var candidates := Candidates(listing.files, Prefix());
        && (step.Resolved? <==> HasNonEmpty(candidates))
        && (step.Resolved? ==>
              IsLargestName(candidates, step.file) &&
              tracker.entries == old(tracker.entries)[videoId := Finished(old(tracker.entries)[videoId], "İndirme tamamlandı!", step.file)])
        && (!step.Resolved? ==>
              step == Retry(RetrySelector(itag)) &&
              tracker.entries == old(tracker.entries)[videoId := old(tracker.entries)[videoId].(status := RetryNotice)])
    {
      if videoId !in tracker.entries {
        return Uncaught;
      }
      match listing {
        case ListingFailed(message) =>
          tracker.entries := tracker.entries[videoId := ListingError(tracker.entries[videoId], message)];
          step := Rejected("İndirme başarısız: " + message);
        case Listed(files) =>
          var candidates := Candidates(files, Prefix());
          var sel := SelectLargest(candidates);
          if sel.Largest? {
            tracker.entries := tracker.entries[videoId := Finished(tracker.entries[videoId], "İndirme tamamlandı!", sel.name)];
            step := Resolved(sel.name);
          } else {
            tracker.entries := tracker.entries[videoId := tracker.entries[videoId].(status := RetryNotice)];
            step := Retry(RetrySelector(itag));
          }
      }
    }

    /**
     * The retry's close handler (server.js:690-781): the largest non-empty
     * candidate completes the download, empty candidates fail it, and no
     * candidate at all starts the backup attempt with `-f 22/18/best`.
     */
    method FinishRetry(listing: Listing, backup: BackupRun) returns (step: Step)
      modifies tracker
      ensures !step.Retry?
      ensures videoId !in old(tracker.entries) ==> step == Uncaught && tracker.entries == old(tracker.entries)
      ensures videoId in old(tracker.entries) && listing.ListingFailed? ==>
        step == Rejected("İndirme başarısız: " + listing.message) &&
        tracker.entries == old(tracker.entries)[videoId := ListingError(old(tracker.entries)[videoId], listing.message)]
      ensures videoId in old(tracker.entries) && listing.Listed? && HasNonEmpty(Candidates(listing.files, Prefix())) ==>
        step.Resolved? && IsLargestName(Candidates(listing.files, Prefix()), step.file) &&
        tracker.entries == old(tracker.entries)[videoId := Finished(old(tracker.entries)[videoId], "İndirme tamamlandı!", step.file)]
      ensures videoId in old(tracker.entries) && listing.Listed? && Candidates(listing.files, Prefix()) != [] &&
              !HasNonEmpty(Candidates(listing.files, Prefix())) ==>
        step == Rejected("İndirme başarısız: Boş dosya") &&
        tracker.entries == old(tracker.entries)[videoId := old(tracker.entries)[videoId].(error := Some("Video indirilemedi: Boş dosya."))]
      ensures videoId in old(tracker.entries) && listing.Listed? && Candidates(listing.files, Prefix()) == [] ==>
        match backup
        case BackupThrew =>
          step == Rejected("İndirme başarısız: Son deneme hata verdi") &&
          tracker.entries == old(tracker.entries)[videoId := old(tracker.entries)[videoId].(error := Some("Video indirilemedi: Son deneme başarısız."))]
        case BackupExited(status, size) =>
          if status == Some(0) && size.Some? && size.value > 0 then
            step == Resolved(videoId + "_backup") &&
            tracker.entries == old(tracker.entries)[videoId :=
              Finished(old(tracker.entries)[videoId], "İndirme tamamlandı! (Yedek format)", videoId + "_backup")]
          else
            step == Rejected("İndirme başarısız: Format bulunamadı") &&
            tracker.entries == old(tracker.entries)[videoId :=
              old(tracker.entries)[videoId].(error := Some("Video indirilemedi: Tüm format denemeleri başarısız."))]
    {
      if videoId !in tracker.entries {
        return Uncaught;
      }
      var entry := tracker.entries[videoId];
      match listing {
        case ListingFailed(message) =>
          tracker.entries := tracker.entries[videoId := ListingError(entry, message)];
          step := Rejected("İndirme başarısız: " + message);
        case Listed(files) =>
          var candidates := Candidates(files, Prefix());
          var sel := SelectLargest(candidates);
          match sel {
            case Largest(name) =>
              tracker.entries := tracker.entries[videoId := Finished(entry, "İndirme tamamlandı!", name)];
              step := Resolved(name);
            case OnlyEmpty =>
              tracker.entries := tracker.entries[videoId := entry.(error := Some("Video indirilemedi: Boş dosya."))];
              step := Rejected("İndirme başarısız: Boş dosya");
            case NoFiles =>
              match backup {
                case BackupThrew =>
                  tracker.entries := tracker.entries[videoId := entry.(error := Some("Video indirilemedi: Son deneme başarısız."))];
                  step := Rejected("İndirme başarısız: Son deneme hata verdi");
                case BackupExited(status, size) =>
                  if status == Some(0) && size.Some? && size.value > 0 {
                    tracker.entries := tracker.entries[videoId := Finished(entry, "İndirme tamamlandı! (Yedek format)", videoId + "_backup")];
                    step := Resolved(videoId + "_backup");
                  } else {
                    tracker.entries := tracker.entries[videoId := entry.(error := Some("Video indirilemedi: Tüm format denemeleri başarısız."))];
                    step := Rejected("İndirme başarısız: Format bulunamadı");
                  }
              }
          }
      }
    }
  }
}
