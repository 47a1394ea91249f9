/**
 * Trailer embedding (components/TrailerModal.tsx): turning a YouTube link into the
 * embeddable player URL, or into nothing. The browser's `URL` parser and the regular
 * expression used when it throws are parameters: `parse` yields the parsed host, path
 * and `v` query parameter (None when the constructor throws) and `regexId` the
 * expression's captured video id (None when it does not match).
 */
module TrailerModal {
  import opened Wrappers

  datatype ParsedUrl = ParsedUrl(hostname: string, pathname: string, v: Option<string>)

  /** `pat` occurs in `s` starting at position `j`. */
  predicate OccursAt(s: string, pat: string, j: int) {
    0 <= j && j + |pat| <= |s| && s[j..j + |pat|] == pat
  }

  /** The first position at which `pat` occurs in `s`. */
  function Find(s: string, pat: string): (r: Option<nat>)
    requires |pat| > 0
    ensures r.Some? ==> OccursAt(s, pat, r.value)
    ensures r.Some? ==> forall j :: 0 <= j < r.value ==> !OccursAt(s, pat, j)
    ensures r.None? ==> forall j :: !OccursAt(s, pat, j)
    decreases |s|
  {
    if |s| < |pat| then None
    else if s[..|pat|] == pat then Some(0)
    else
      match Find(s[1..], pat)
      case Some(k) =>
        ShiftOccurrence(s, pat, k);
        assert forall j :: 1 <= j <= k ==> !OccursAt(s, pat, j) by {
          forall j | 1 <= j <= k ensures !OccursAt(s, pat, j) {
            ShiftOccurrence(s, pat, j - 1);
          }
        }
        Some(k + 1)
      case None =>
        assert forall j :: !OccursAt(s, pat, j) by {
          forall j | OccursAt(s, pat, j) ensures false {
            if j != 0 {
              ShiftOccurrence(s, pat, j - 1);
            }
          }
        }
        None
  }

  lemma ShiftOccurrence(s: string, pat: string, j: int)
    requires |s| > 0 && 0 <= j
    ensures OccursAt(s, pat, j + 1) <==> OccursAt(s[1..], pat, j)
  {
    if j + 1 + |pat| <= |s| {
      assert s[1..][j..j + |pat|] == s[j + 1..j + 1 + |pat|];
    }
  }

  /** `s.includes(pat)` */
  predicate Contains(s: string, pat: string)
    requires |pat| > 0
  {
    Find(s, pat).Some?
  }

  /** `s.split(pat)[0]`: the text before the first occurrence of `pat`, or all of `s`. */
  function Before(s: string, pat: string): (r: string)
    requires |pat| > 0
    ensures forall j :: 0 <= j < |r| ==> !OccursAt(s, pat, j)
    ensures !Contains(r, pat)
    ensures |r| <= |s| && r == s[..|r|]
    ensures |r| == |s| || OccursAt(s, pat, |r|)
  {
    match Find(s, pat)
    case None => s
    case Some(k) =>
      assert forall j :: !OccursAt(s[..k], pat, j) by {
        forall j | OccursAt(s[..k], pat, j) ensures false {
          assert s[..k][j..j + |pat|] == s[j..j + |pat|];
          assert OccursAt(s, pat, j) && j < k;
        }
      }
      s[..k]
  }

  /** `s.split(pat)[1]`, when `pat` occurs: the text between its first and second occurrences. */
  function SecondSegment(s: string, pat: string): (r: string)
    requires |pat| > 0 && Contains(s, pat)
    ensures var m := Find(s, pat).value + |pat|;
      m + |r| <= |s| && r == s[m..m + |r|]
      && (forall j :: m <= j < m + |r| ==> !OccursAt(s, pat, j))
      && (m + |r| == |s| || OccursAt(s, pat, m + |r|))
  {
    var m := Find(s, pat).value + |pat|;
    var r := Before(s[m..], pat);
    forall j | 0 <= j <= |r| ensures OccursAt(s[m..], pat, j) <==> OccursAt(s, pat, m + j) {
      DropOccurrence(s, pat, m, j);
    }
    assert r == s[m..][..|r|] == s[m..m + |r|];
    assert forall j :: m <= j < m + |r| ==> !OccursAt(s, pat, j) by {
      forall j | m <= j < m + |r| ensures !OccursAt(s, pat, j) {
        assert !OccursAt(s[m..], pat, j - m);
      }
    }
    assert m + |r| == |s| || OccursAt(s[m..], pat, |r|);
    r
  }

  /** An occurrence in a suffix is an occurrence in the whole, shifted by the cut. */
  lemma DropOccurrence(s: string, pat: string, m: int, j: int)
    requires 0 <= m <= |s| && 0 <= j
    ensures OccursAt(s[m..], pat, j) <==> OccursAt(s, pat, m + j)
  {
    if m + j + |pat| <= |s| {
      assert s[m..][j..j + |pat|] == s[m + j..m + j + |pat|];
    }
  }

  const EmbedPrefix: string := "https://www.youtube.com/embed/"
  const EmbedSuffix: string := "?autoplay=1"

  /**
   * The `videoId` the function settles on, or None when it returns null before that
   * point (the parser threw and the regular expression did not match).
   */
  function VideoId(url: string, parse: string -> Option<ParsedUrl>, regexId: string -> Option<string>): (r: Option<string>)
    ensures r.None? <==> parse(url).None? && regexId(url).None?
    ensures parse(url).None? ==> r == regexId(url)
  {
    match parse(url)
    case Some(u) =>
      if u.hostname == "youtu.be" then
        Some(if |u.pathname| > 0 then u.pathname[1..] else "")
      else if Contains(u.hostname, "youtube.com") then
        if Contains(u.pathname, "/embed/") then Some(SecondSegment(u.pathname, "/embed/"))
        else Some(u.v.GetOr(""))
      else Some("")
    case None => regexId(url)
  }

  /** The player URL for a non-empty id, cut at its first '&'. */
  function EmbedFor(videoId: string): (r: Option<string>)
    ensures r.None? <==> videoId == ""
    ensures r.Some? ==> IsEmbedUrl(r.value)
    ensures r.Some? ==> r.value[|EmbedPrefix|..|r.value| - |EmbedSuffix|] == Before(videoId, "&")
  {
    if videoId == "" then None
    else
      var s := EmbedPrefix + Before(videoId, "&") + EmbedSuffix;
      assert s[|EmbedPrefix|..|s| - |EmbedSuffix|] == Before(videoId, "&");
      Some(s)
  }

  /** A player URL carrying an id with no further '&' parameters. */
  predicate IsEmbedUrl(s: string) {
    |s| >= |EmbedPrefix| + |EmbedSuffix|
    && s[..|EmbedPrefix|] == EmbedPrefix
    && s[|s| - |EmbedSuffix|..] == EmbedSuffix
    && !Contains(s[|EmbedPrefix|..|s| - |EmbedSuffix|], "&")
  }

  /** `getYouTubeEmbedUrl` */
  function GetYouTubeEmbedUrl(url: string, parse: string -> Option<ParsedUrl>, regexId: string -> Option<string>): (r: Option<string>)
    ensures url == "" ==> r == None
    ensures r.Some? ==> IsEmbedUrl(r.value)
  {
    if url == "" then None
    else
      match VideoId(url, parse, regexId)
      case None => None
      case Some(id) =>
        EmbedFor(id)
  }

  /** A `youtu.be` link yields the path after its leading '/' as the id. */
  lemma ShortLinkId(url: string, parse: string -> Option<ParsedUrl>, regexId: string -> Option<string>, id: string, v: Option<string>)
    requires url != "" && parse(url) == Some(ParsedUrl("youtu.be", "/" + id, v))
    ensures GetYouTubeEmbedUrl(url, parse, regexId) == EmbedFor(id)
  {
    assert ("/" + id)[1..] == id;
  }

  /** A youtube.com link with '/embed/' in its path takes the id from the segment after it. */
  lemma EmbedPathId(url: string, parse: string -> Option<ParsedUrl>, regexId: string -> Option<string>, u: ParsedUrl)
    requires url != "" && parse(url) == Some(u)
    requires u.hostname != "youtu.be" && Contains(u.hostname, "youtube.com") && Contains(u.pathname, "/embed/")
    ensures GetYouTubeEmbedUrl(url, parse, regexId) == EmbedFor(SecondSegment(u.pathname, "/embed/"))
  {
  }

  /** Any other youtube.com link takes the id from the `v` parameter, or has none. */
  lemma WatchParamId(url: string, parse: string -> Option<ParsedUrl>, regexId: string -> Option<string>, u: ParsedUrl)
    requires url != "" && parse(url) == Some(u)
    requires u.hostname != "youtu.be" && Contains(u.hostname, "youtube.com") && !Contains(u.pathname, "/embed/")
    ensures GetYouTubeEmbedUrl(url, parse, regexId) == EmbedFor(u.v.GetOr(""))
  {
  }

  /** A link the parser reads, on any other host, yields no player. */
  lemma OtherHostHasNoEmbed(url: string, parse: string -> Option<ParsedUrl>, regexId: string -> Option<string>, u: ParsedUrl)
    requires parse(url) == Some(u) && u.hostname != "youtu.be" && !Contains(u.hostname, "youtube.com")
    ensures GetYouTubeEmbedUrl(url, parse, regexId) == None
  {
  }

  /** A link the parser rejects yields no player unless the fallback expression finds an id. */
  lemma UnparseableNeedsFallback(url: string, parse: string -> Option<ParsedUrl>, regexId: string -> Option<string>)
    requires parse(url) == None
    ensures GetYouTubeEmbedUrl(url, parse, regexId)
              == if url == "" || regexId(url).None? then None else EmbedFor(regexId(url).value)
  {
  }

  lemma HostIsYoutube()
    ensures Contains("www.youtube.com", "youtube.com")
  {
    assert OccursAt("www.youtube.com", "youtube.com", 4);
  }

  lemma WatchPathHasNoEmbed()
    ensures !Contains("/watch", "/embed/")
  {
  }

  /** The short link and the watch link for the same id resolve to the same player URL. */
  lemma ShortAndWatchLinksAgree(id: string, parse: string -> Option<ParsedUrl>, regexId: string -> Option<string>)
    requires parse("https://youtu.be/" + id) == Some(ParsedUrl("youtu.be", "/" + id, None))
    requires parse("https://www.youtube.com/watch?v=" + id)
               == Some(ParsedUrl("www.youtube.com", "/watch", Some(id)))
    ensures GetYouTubeEmbedUrl("https://youtu.be/" + id, parse, regexId)
              == GetYouTubeEmbedUrl("https://www.youtube.com/watch?v=" + id, parse, regexId)
  {
    var short, watch := "https://youtu.be/" + id, "https://www.youtube.com/watch?v=" + id;
    assert short != "" && watch != "" by {
      assert short[0] == 'h' && watch[0] == 'h';
    }
    ShortLinkId(short, parse, regexId, id, None);
    HostIsYoutube();
    WatchPathHasNoEmbed();
    WatchParamId(watch, parse, regexId, ParsedUrl("www.youtube.com", "/watch", Some(id)));
  }

  /** What `TrailerModal` renders: nothing, or a player on the embed URL. */
  datatype View = Nothing | Player(src: string)

  function TrailerModalView(trailerUrl: string, parse: string -> Option<ParsedUrl>, regexId: string -> Option<string>): (v: View)
    ensures v.Nothing? <==> GetYouTubeEmbedUrl(trailerUrl, parse, regexId).None?
    ensures v.Player? ==> Some(v.src) == GetYouTubeEmbedUrl(trailerUrl, parse, regexId)
    ensures v.Player? ==> IsEmbedUrl(v.src)
  {
    match GetYouTubeEmbedUrl(trailerUrl, parse, regexId)
    case None => Nothing
    case Some(src) => Player(src)
  }
}
