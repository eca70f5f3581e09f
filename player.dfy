/**
 * The embedded player: the inline-frame markup the app renders for a
 * track, and the inverse that reads the track back out of that markup.
 */
module Player {
  import opened Wrappers

  /** The streaming service's embeddable track endpoint. */
  const EmbedBase: string := "https://open.spotify.com/embed/track/"

  /** The markup before the frame's source address. */
  const FrameOpen: string := "\n    <iframe src=\""

  /** The markup after the frame's source address: the frame's fixed size and permissions. */
  const FrameClose: string :=
    "\" \n            width=\"320\" \n            height=\"80\" \n            frameborder=\"0\" \n"
    + "            allowtransparency=\"true\" \n            allow=\"encrypted-media\"></iframe>\n    "

  /** The embed address of a track. */
  function EmbedUrl(trackId: string): (url: string)
    ensures |url| == |EmbedBase| + |trackId|
    ensures url[..|EmbedBase|] == EmbedBase && url[|EmbedBase|..] == trackId
  {
    EmbedBase + trackId
  }

  /** The markup `play_song` returns for a track: a fixed-size frame whose source is the track's embed address. */
  function PlayerHtml(trackId: string): (html: string)
    ensures |html| == |FrameOpen| + |EmbedUrl(trackId)| + |FrameClose|
    ensures html[..|FrameOpen|] == FrameOpen
    ensures html[|FrameOpen|..|FrameOpen| + |EmbedUrl(trackId)|] == EmbedUrl(trackId)
    ensures html[|html| - |FrameClose|..] == FrameClose
  {
    var html := FrameOpen + EmbedUrl(trackId) + FrameClose;
    assert html[..|FrameOpen|] == FrameOpen;
    assert html[|FrameOpen|..|FrameOpen| + |EmbedUrl(trackId)|] == EmbedUrl(trackId);
    html
  }

  /** The track a player's markup embeds, if the markup has the player's shape. */
  function EmbeddedTrackId(html: string): (r: Option<string>)
    ensures r.Some? ==> |html| == |FrameOpen| + |EmbedBase| + |r.value| + |FrameClose|
  {
    var head := |FrameOpen| + |EmbedBase|;
    if |html| >= head + |FrameClose|
       && html[..|FrameOpen|] == FrameOpen
       && html[|FrameOpen|..head] == EmbedBase
       && html[|html| - |FrameClose|..] == FrameClose
    then Some(html[head..|html| - |FrameClose|])
    else None
  }

  /** Reading the track back out of a player's markup gives the track it was built for. */
  lemma TrackIdRoundTrip(trackId: string)
    ensures EmbeddedTrackId(PlayerHtml(trackId)) == Some(trackId)
  {
    var html := PlayerHtml(trackId);
    var head := |FrameOpen| + |EmbedBase|;
    assert html[|FrameOpen|..head] == EmbedUrl(trackId)[..|EmbedBase|];
    assert html[head..|html| - |FrameClose|] == EmbedUrl(trackId)[|EmbedBase|..];
  }

  /** Markup that has the player's shape is exactly the markup built for the track it embeds. */
  lemma EmbeddedTrackIdSound(html: string)
    requires EmbeddedTrackId(html).Some?
    ensures PlayerHtml(EmbeddedTrackId(html).value) == html
  {
    var id := EmbeddedTrackId(html).value;
    Reassemble(html, FrameOpen, EmbedBase, FrameClose);
    assert PlayerHtml(id) == FrameOpen + (EmbedBase + id) + FrameClose;
  }

  /** A sequence that starts with `a` then `b` and ends with `c` is `a`, `b`, its middle, then `c`. */
  lemma Reassemble<T>(s: seq<T>, a: seq<T>, b: seq<T>, c: seq<T>)
    requires |s| >= |a| + |b| + |c|
    requires s[..|a|] == a && s[|a|..|a| + |b|] == b && s[|s| - |c|..] == c
    ensures a + (b + s[|a| + |b|..|s| - |c|]) + c == s
  {
    assert s == s[..|a|] + s[|a|..|a| + |b|] + s[|a| + |b|..|s| - |c|] + s[|s| - |c|..];
  }

  /** Different tracks get different players. */
  lemma PlayerHtmlInjective(a: string, b: string)
    requires a != b
    ensures PlayerHtml(a) != PlayerHtml(b)
  {
    TrackIdRoundTrip(a);
    TrackIdRoundTrip(b);
  }
}
