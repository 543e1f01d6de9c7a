/**
 * `extractVideoId` (server.js:858-862), the canonical watch URL built from
 * its result (server.js:51, 87) and the thumbnail URL (server.js:255), and the
 * argument check of `GET /api/video-info` (server.js:37-51).
 *
 * The regular expression is
 *   ^.*((youtu.be\/)|(v\/)|(\/u\/\w\/)|(embed\/)|(watch\?))\??v?=?([^#&?]*).*
 * (no flags).
 * Its first successful path fixes the match: the greedy `^.*` gives back one
 * character at a time, so the marker used is the one that starts RIGHTMOST
 * among those a `.*` prefix can reach (no line terminator before it); the five
 * alternatives start with different characters, so at most one fits at a
 * position; `\??`, `v?` and `=?` each take their character when it is there,
 * and the greedy `[^#&?]*` then takes the longest run without `#`, `&` or `?`.
 * Nothing after that can fail, so no other path is ever tried.
 */
module VideoId {
  import opened Text

  // ---------------------------------------------------------------------------
  // The regular expression
  // ---------------------------------------------------------------------------

  /**
   * The length of the marker alternative that matches at the start of `t`
   * (`youtu.be/`, `v/`, `/u/<w>/`, `embed/`, `watch?`, where the `.` of
   * `youtu.be` is any character but a line terminator), or 0 when none does.
   */
  function MarkerLength(t: string): (n: nat)
    ensures n == 0 || n == 2 || n == 5 || n == 6 || n == 9
    ensures n > 0 ==> n <= |t| && NoLineTerminator(t[..n])
    ensures n > 0 ==> t[0] == 'y' || t[0] == 'v' || t[0] == '/' || t[0] == 'e' || t[0] == 'w'
  {
    if |t| >= 9 && t[..5] == "youtu" && !IsLineTerminator(t[5]) && t[6..9] == "be/" then
      assert t[..9] == t[..5] + [t[5]] + t[6..9];
      9
    else if |t| >= 2 && t[..2] == "v/" then 2
    else if |t| >= 5 && t[..3] == "/u/" && IsWordChar(t[3]) && t[4] == '/' then
      assert t[..5] == t[..3] + [t[3], t[4]];
      5
    else if |t| >= 6 && t[..6] == "embed/" then 6
    else if |t| >= 6 && t[..6] == "watch?" then 6
    else 0
  }

  /** A marker depends only on the characters it covers. */
  lemma MarkerLengthExtends(t: string, u: string)
    requires MarkerLength(t) > 0
    ensures MarkerLength(t + u) == MarkerLength(t)
  {
    var n := MarkerLength(t);
    var tu := t + u;
    assert tu[..n] == t[..n];
    if n == 9 {
      assert tu[..5] == t[..5] && tu[5] == t[5] && tu[6..9] == t[6..9];
    } else if n == 2 {
      assert tu[..2] == t[..2];
    } else if n == 5 {
      assert tu[..3] == t[..3] && tu[3] == t[3] && tu[4] == t[4];
    } else {
      assert tu[..6] == t[..6];
    }
  }

  /** `^.*` reaches position `k` and a marker alternative matches there. */
  predicate MarkerAt(s: string, k: nat) {
    k <= |s| && NoLineTerminator(s[..k]) && MarkerLength(s[k..]) > 0
  }

  /** The rightmost position at or below `k` where a marker matches. */
  function LastMarker(s: string, k: nat): (r: Option<nat>)
    requires k <= |s|
    ensures r.Some? ==> r.value <= k && MarkerAt(s, r.value)
    ensures r.Some? ==> forall j :: r.value < j <= k ==> !MarkerAt(s, j)
    ensures r.None? ==> forall j :: 0 <= j <= k ==> !MarkerAt(s, j)
    decreases k
  {
    if MarkerAt(s, k) then Some(k) else if k == 0 then None else LastMarker(s, k - 1)
  }

  lemma LastMarkerIs(s: string, k: nat, m: nat)
    requires m <= k <= |s| && MarkerAt(s, m)
    requires forall j :: m < j <= k ==> !MarkerAt(s, j)
    ensures LastMarker(s, k) == Some(m)
  {
  }

  /** `[^#&?]` */
  predicate IsIdChar(c: char) { c != '#' && c != '&' && c != '?' }

  function SkipOptional(s: string, i: nat, c: char): (j: nat)
    requires i <= |s|
    ensures j <= |s|
  {
    if i < |s| && s[i] == c then i + 1 else i
  }

  /** Where capture group 7 starts once the marker at `k` is taken: after `\??v?=?`. */
  function GroupStart(s: string, k: nat): (g: nat)
    requires MarkerAt(s, k)
    ensures k < g <= |s|
  {
    var afterMarker := k + MarkerLength(s[k..]);
    SkipOptional(s, SkipOptional(s, SkipOptional(s, afterMarker, '?'), 'v'), '=')
  }

  /**
   * `extractVideoId(url)`: capture group 7 when it is exactly 11 characters
   * long, and no result (`null`) otherwise or when the expression does not match.
   */
  function ExtractVideoId(url: string): (r: Option<string>)
    ensures r.Some? ==> |r.value| == 11
    ensures r.Some? ==> forall i :: 0 <= i < |r.value| ==> IsIdChar(r.value[i])
  {
    match LastMarker(url, |url|)
    case None => None
    case Some(k) =>
      var g := GroupStart(url, k);
      var e := RunEnd(url, g, IsIdChar);
      if e - g == 11 then Some(url[g..e]) else None
  }

  // ---------------------------------------------------------------------------
  // The URLs built from an id
  // ---------------------------------------------------------------------------

  const WatchHost: string := "https://www.youtube.com/"
  const WatchPrefix: string := WatchHost + "watch?v="

  /** `https://www.youtube.com/watch?v=${videoId}` (server.js:51, 87) */
  function WatchUrl(id: string): (url: string)
    ensures StartsWith(url, WatchPrefix) && url[|WatchPrefix|..] == id
  {
    WatchPrefix + id
  }

  /** `https://i.ytimg.com/vi/${videoId}/maxresdefault.jpg`; a `null` id prints as "null" (server.js:254-255). */
  function ThumbnailUrl(id: Option<string>): (url: string)
    ensures var v := if id.Some? then id.value else "null";
      |url| == |ThumbnailHost| + |v| + 18 && StartsWith(url, ThumbnailHost) && url[|ThumbnailHost|..|ThumbnailHost| + |v|] == v
      && url[|ThumbnailHost| + |v|..] == "/maxresdefault.jpg"
  {
    ThumbnailHost + (match id case Some(v) => v case None => "null") + "/maxresdefault.jpg"
  }

  const ThumbnailHost: string := "https://i.ytimg.com/vi/"

  lemma WatchHostHasNoLineTerminator()
    ensures NoLineTerminator(WatchHost)
  {
    assert '\n' !in WatchHost && '\r' !in WatchHost && '\U{2028}' !in WatchHost && '\U{2029}' !in WatchHost;
    forall i | 0 <= i < |WatchHost| ensures !IsLineTerminator(WatchHost[i]) {
      assert WatchHost[i] in WatchHost;
    }
  }

  /** No marker starts inside the tail `atch?v=` of the watch prefix. */
  lemma NoMarkerInPrefixTail(id: string, j: nat)
    requires 24 < j < 32
    ensures MarkerLength(WatchUrl(id)[j..]) == 0
  {
    var t := WatchUrl(id)[j..];
    assert t[0] == WatchPrefix[j];
    if j == 30 {
      assert t[1] == '=';
      assert t[..2] != "v/";
    }
  }

  /** No marker alternative starts inside `id` at a position `^.*` can reach. */
  predicate NoMarkerInside(id: string) {
    forall m :: 0 <= m < |id| && NoLineTerminator(id[..m]) ==> MarkerLength(id[m..]) == 0
  }

  /** `^.*` reaches the start of capture group 7: the marker and `\??v?=?` hold no line terminator. */
  lemma LineUpToGroup(url: string, k: nat)
    requires MarkerAt(url, k)
    ensures NoLineTerminator(url[..GroupStart(url, k)])
  {
    var g := GroupStart(url, k);
    var n := MarkerLength(url[k..]);
    forall i | 0 <= i < g ensures !IsLineTerminator(url[i]) {
      if i < k {
        assert url[..k][i] == url[i];
      } else if i < k + n {
        assert url[k..][..n][i - k] == url[i];
      } else {
        assert url[i] == '?' || url[i] == 'v' || url[i] == '=';
      }
    }
  }

  /** A marker inside the captured id would be a marker of the whole URL. */
  lemma MarkerInsideGroup(url: string, g: nat, e: nat, m: nat)
    requires g <= e <= |url| && NoLineTerminator(url[..g])
    requires m < e - g && NoLineTerminator(url[g..e][..m]) && MarkerLength(url[g..e][m..]) > 0
    ensures MarkerAt(url, g + m)
  {
    var id := url[g..e];
    assert url[g + m..] == id[m..] + url[e..];
    MarkerLengthExtends(id[m..], url[e..]);
    forall i | 0 <= i < g + m ensures !IsLineTerminator(url[i]) {
      if i < g {
        assert url[..g][i] == url[i];
      } else {
        assert url[i] == id[..m][i - g];
      }
    }
  }

  /** An extracted id holds no marker: the marker used was the rightmost one. */
  lemma ExtractedIdHasNoMarker(url: string, id: string)
    requires ExtractVideoId(url) == Some(id)
    ensures NoMarkerInside(id)
  {
    var k := LastMarker(url, |url|).value;
    var g := GroupStart(url, k);
    var e := RunEnd(url, g, IsIdChar);
    assert e - g == 11 && id == url[g..e];
    LineUpToGroup(url, k);
    forall m | 0 <= m < |id| && NoLineTerminator(id[..m]) ensures MarkerLength(id[m..]) == 0 {
      if MarkerLength(id[m..]) > 0 {
        MarkerInsideGroup(url, g, e, m);
      }
    }
  }

  /** In the canonical URL of a marker-free id, no marker starts after the `watch?` at 24. */
  lemma NoMarkerAfterWatch(id: string)
    requires |id| == 11 && NoMarkerInside(id)
    ensures forall j :: 24 < j <= |WatchUrl(id)| ==> !MarkerAt(WatchUrl(id), j)
  {
    var c := WatchUrl(id);
    forall j | 24 < j <= |c| ensures !MarkerAt(c, j) {
      if j < 32 {
        NoMarkerInPrefixTail(id, j);
      } else if j < |c| && NoLineTerminator(c[..j]) {
        var m := j - 32;
        assert c[j..] == id[m..];
        assert id[..m] == c[..j][32..];
      }
    }
  }

  /** The canonical URL matches at the `watch?` at 24 and its id starts at 32. */
  lemma WatchMarker(id: string)
    ensures MarkerAt(WatchUrl(id), 24) && GroupStart(WatchUrl(id), 24) == 32
  {
    var c := WatchUrl(id);
    var t := c[24..];
    assert t == "watch?v=" + id;
    assert t[..6] == "watch?" && t[0] == 'w';
    assert MarkerLength(t) == 6;
    WatchHostHasNoLineTerminator();
    assert c[..24] == WatchHost;
    assert c[30] == 'v' && c[31] == '=';
  }

  /**
   * The canonical URL of an 11-character id without `#`, `&`, `?` and without a
   * marker inside yields that id.
   */
  lemma WatchUrlYieldsId(id: string)
    requires |id| == 11 && NoMarkerInside(id)
    requires forall i :: 0 <= i < |id| ==> IsIdChar(id[i])
    ensures ExtractVideoId(WatchUrl(id)) == Some(id)
  {
    var c := WatchUrl(id);
    NoMarkerAfterWatch(id);
    WatchMarker(id);
    LastMarkerIs(c, |c|, 24);
    forall i | 32 <= i < |c| ensures IsIdChar(c[i]) {
      assert c[i] == id[i - 32];
    }
    RunEndIsFirstFailure(c, 32, |c|, IsIdChar);
    assert LastMarker(c, |c|) == Some(24);
    assert RunEnd(c, GroupStart(c, 24), IsIdChar) == 43;
    assert c[32..43] == id;
  }

  /**
   * Every id that `extractVideoId` produces survives the trip through the
   * canonical URL: the server re-extracts the id from `WatchUrl(id)` when it
   * builds the thumbnail (server.js:51, 254) and gets the same id back.
   */
  lemma WatchUrlRoundTrip(url: string, id: string)
    requires ExtractVideoId(url) == Some(id)
    ensures ExtractVideoId(WatchUrl(id)) == Some(id)
  {
    ExtractedIdHasNoMarker(url, id);
    WatchUrlYieldsId(id);
  }

  // ---------------------------------------------------------------------------
  // GET /api/video-info: the argument check
  // ---------------------------------------------------------------------------

  datatype InfoRequest =
    | MissingUrl      // 400 'URL parametresi eksik'
    | InvalidUrl      // 400 "Geçersiz YouTube URL'si"
    | Query(videoId: string, videoUrl: string)

  /**
   * server.js:37-51: a missing or empty `url` and a URL without an id are
   * refused; otherwise the canonical watch URL of the id is queried, and that
   * URL yields the same id again.
   */
  function CheckInfoRequest(url: Option<string>): (r: InfoRequest)
    ensures r.MissingUrl? <==> url.None? || url.value == ""
    ensures r.InvalidUrl? <==> url.Some? && url.value != "" && ExtractVideoId(url.value).None?
    ensures r.Query? ==> r.videoUrl == WatchUrl(r.videoId) && ExtractVideoId(url.value) == Some(r.videoId)
    ensures r.Query? ==> ExtractVideoId(r.videoUrl) == Some(r.videoId)
  {
    if url.None? || url.value == "" then MissingUrl
    else match ExtractVideoId(url.value)
      case None => InvalidUrl
      case Some(id) =>
        WatchUrlRoundTrip(url.value, id);
        Query(id, WatchUrl(id))
  }
}
