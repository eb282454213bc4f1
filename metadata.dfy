/** The companion-link lookup (backend/src/api/fetchACRCloudMetadata.js): the
    query sent to the metadata service, and the link taken from its answer.
    The GET request itself is not modelled: what the service answered, or
    that the call threw, is passed in. */
module Metadata {
  import opened Wrappers
  import opened Js

  /** The `query` argument: `track` and `artists` as the caller passed them. */
  datatype MetadataQuery = MetadataQuery(track: JsValue, artists: JsValue)

  /** `{track}` or `{track, artist}`: the filter sent as the `query` parameter. */
  datatype RequestQuery = RequestQuery(track: string, artist: Option<string>)

  /** An entry of `external_metadata.youtube`. `link` is None when it is
      absent or null: `includes` on it then throws and the error is caught.
      Links that are neither absent nor strings are not represented. */
  datatype YoutubeEntry = YoutubeEntry(link: Option<string>)

  /** `external_metadata` of a track; `youtube` is None when absent. */
  datatype ExternalMetadata = ExternalMetadata(youtube: Option<seq<YoutubeEntry>>)

  /** An element of the answer's `data` array. */
  datatype TrackEntry = TrackEntry(externalMetadata: Option<ExternalMetadata>)

  /** The answer body; `data` is None when absent. */
  datatype MetadataBody = MetadataBody(data: Option<seq<TrackEntry>>)

  /** What the axios call produced: a body (None for a falsy one), or a throw. */
  datatype Reply = Answered(body: Option<MetadataBody>) | Failed

  const MusicHost: string := "music.youtube.com"
  const VideoHost: string := "youtube.com"

  /** requestQuery (fetchACRCloudMetadata.js:11-17): `artist` is present
      exactly when `query.artists` is truthy. */
  function BuildRequestQuery(query: MetadataQuery): (r: RequestQuery)
    ensures r.track == Stringify(query.track)
    ensures r.artist.Some? <==> Truthy(query.artists)
    ensures r.artist.Some? ==> r.artist.value == Stringify(query.artists)
  {
    if Truthy(query.artists) then RequestQuery(Stringify(query.track), Some(Stringify(query.artists)))
    else RequestQuery(Stringify(query.track), None)
  }

  /** An empty string array is truthy, so it still sends `artist: ""`. */
  lemma EmptyArtistArraySent(track: JsValue)
    ensures BuildRequestQuery(MetadataQuery(track, StrArray([]))).artist == Some("")
  {
  }

  /** The music-subdomain rewrite (fetchACRCloudMetadata.js:45-47). A link
      changes exactly when it mentions the music subdomain, and then loses the
      6 characters of "music.". */
  function CanonicalLink(link: string): (r: string)
    ensures r == link <==> !Includes(link, MusicHost)
    ensures Includes(link, MusicHost) ==> |r| == |link| - 6
  {
    if Includes(link, MusicHost) then ReplaceFirst(link, MusicHost, VideoHost) else link
  }

  /** A link without the music subdomain is returned unchanged. */
  lemma CanonicalLinkUnchanged(link: string)
    requires forall j :: !MatchesAt(link, MusicHost, j)
    ensures CanonicalLink(link) == link
  {
  }

  /** Otherwise only the first occurrence becomes the plain host, the text
      around it is kept, and the link is 6 characters shorter. */
  lemma CanonicalLinkAt(link: string, i: nat)
    requires MatchesAt(link, MusicHost, i)
    requires forall j :: 0 <= j < i ==> !MatchesAt(link, MusicHost, j)
    ensures CanonicalLink(link) == link[..i] + VideoHost + link[i + |MusicHost|..]
    ensures |CanonicalLink(link)| == |link| - 6
  {
  }

  /** Only the first occurrence is rewritten: a later, non-overlapping one
      survives, shifted 6 characters to the left. */
  lemma CanonicalLinkKeepsLaterOccurrence(link: string, i: nat, k: nat)
    requires MatchesAt(link, MusicHost, i) && forall j :: 0 <= j < i ==> !MatchesAt(link, MusicHost, j)
    requires MatchesAt(link, MusicHost, k) && k >= i + |MusicHost|
    ensures MatchesAt(CanonicalLink(link), MusicHost, k - 6)
  {
  }

  /** The rewrite of a typical YouTube Music link:
      https://music.youtube.com/watch?v=xyz becomes https://youtube.com/watch?v=xyz. */
  lemma CanonicalLinkExample()
    ensures CanonicalLink("https://" + MusicHost + "/watch?v=xyz") == "https://" + VideoHost + "/watch?v=xyz"
  {
    var scheme, path := "https://", "/watch?v=xyz";
    var link := scheme + MusicHost + path;
    assert link[..8] == scheme && link[8..8 + |MusicHost|] == MusicHost && link[8 + |MusicHost|..] == path;
    forall j | 0 <= j < 8 ensures !MatchesAt(link, MusicHost, j) {
      assert link[j] == scheme[j] != MusicHost[0];
      assert link[j..j + |MusicHost|][0] != MusicHost[0];
    }
    CanonicalLinkAt(link, 8);
  }

  /** The link of the first youtube entry of the first track, when the answer
      has one: the only place fetchACRCloudMetadata looks (:37-42). */
  function FirstYoutubeEntry(reply: Reply): (r: Option<YoutubeEntry>)
    ensures r.Some? ==>
      && reply.Answered? && reply.body.Some? && reply.body.value.data.Some?
      && |reply.body.value.data.value| > 0
      && var ext := reply.body.value.data.value[0].externalMetadata;
         ext.Some? && ext.value.youtube.Some? && |ext.value.youtube.value| > 0 && r.value == ext.value.youtube.value[0]
    ensures r.None? ==>
      || reply.Failed? || reply.body.None? || reply.body.value.data.None?
      || |reply.body.value.data.value| == 0
      || var ext := reply.body.value.data.value[0].externalMetadata;
         ext.None? || ext.value.youtube.None? || |ext.value.youtube.value| == 0
  {
    if reply.Failed? || reply.body.None? then None
    else
      var data := reply.body.value.data;
      if data.None? || |data.value| == 0 then None
      else
        var ext := data.value[0].externalMetadata;
        if ext.None? || ext.value.youtube.None? || |ext.value.youtube.value| == 0 then None
        else Some(ext.value.youtube.value[0])
  }

  /** What one lookup sends and returns. */
  datatype Lookup = Lookup(sent: RequestQuery, url: Option<string>)

  /** fetchACRCloudMetadata: the `{url}` it resolves to, or None for `null`.
      For the modelled query shapes, which always serialise for the log line
      at :5, it never throws: a failed call, a missing first entry, a first
      entry without youtube entries and an unusable link all give `null`. `sent` is
      the filter the GET request carries. */
  function FetchACRCloudMetadata(query: MetadataQuery, reply: Reply): (r: Lookup)
    ensures r.sent == BuildRequestQuery(query)
    ensures r.url.Some? <==> FirstYoutubeEntry(reply).Some? && FirstYoutubeEntry(reply).value.link.Some?
    ensures r.url.Some? ==> r.url.value == CanonicalLink(FirstYoutubeEntry(reply).value.link.value)
  {
    var requestQuery := BuildRequestQuery(query);
    if reply.Failed? then Lookup(requestQuery, None)
    else if reply.body.Some? && reply.body.value.data.Some? && |reply.body.value.data.value| > 0 then
      var metadata := reply.body.value.data.value[0];
      if metadata.externalMetadata.Some? && metadata.externalMetadata.value.youtube.Some?
         && |metadata.externalMetadata.value.youtube.value| > 0 then
        match metadata.externalMetadata.value.youtube.value[0].link
        case None => Lookup(requestQuery, None)   // `includes` of a non-string throws: caught
        case Some(youtubeUrl) => Lookup(requestQuery, Some(CanonicalLink(youtubeUrl)))
      else Lookup(requestQuery, None)
    else Lookup(requestQuery, None)
  }

  /** Later tracks and later youtube entries are never consulted: keeping only
      the first of each gives the same outcome. */
  lemma OnlyFirstEntriesConsulted(query: MetadataQuery, first: YoutubeEntry, moreVideos: seq<YoutubeEntry>,
                                  moreTracks: seq<TrackEntry>)
    ensures var whole := Answered(Some(MetadataBody(Some(
              [TrackEntry(Some(ExternalMetadata(Some([first] + moreVideos))))] + moreTracks))));
            var trimmed := Answered(Some(MetadataBody(Some([TrackEntry(Some(ExternalMetadata(Some([first]))))]))));
            FetchACRCloudMetadata(query, whole) == FetchACRCloudMetadata(query, trimmed)
  {
  }
}
