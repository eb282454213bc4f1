/** The identification request and the deduplication of its candidate matches
    (backend/src/api/requestACRCloud.js). The HTTP exchange itself is not
    modelled: what the recognition service answered is passed in. */
module Recognition {
  import opened Wrappers
  import opened Js
  import opened Dedup
  import Signing

  /** One entry of a match's `artists` array. */
  datatype Artist = Artist(name: JsValue)

  /** One candidate match. `artists` is None when the field is absent (or
      null); `scoreText` is the score as `${score}` renders it: the score is
      only ever compared through that text. */
  datatype Match = Match(title: JsValue, artists: Option<seq<Artist>>, scoreText: string)

  /** `${result.artists[0]?.name}`: "undefined" when the array is empty. */
  function FirstArtistText(m: Match): string {
    match m.artists
    case Some(artists) => if |artists| > 0 then Stringify(artists[0].name) else "undefined"
    // Never consulted: reading `artists[0]` of a missing array throws first.
    case None => "undefined"
  }

  /** The deduplication key `${title}-${artists[0]?.name}-${score}`: it
      starts with the title text and a '-', and ends with a '-' and the score
      text, the first artist's name text between them. */
  function KeyText(m: Match): (k: string)
    ensures |k| == |Stringify(m.title)| + 1 + |FirstArtistText(m)| + 1 + |m.scoreText|
    ensures k[..|Stringify(m.title)| + 1] == Stringify(m.title) + "-"
    ensures k[|k| - |m.scoreText| - 1..] == "-" + m.scoreText
  {
    Stringify(m.title) + "-" + FirstArtistText(m) + "-" + m.scoreText
  }

  /** Reading `artists[0]` does not throw: the match has an `artists` array. */
  predicate HasArtists(m: Match) {
    m.artists.Some?
  }

  /** Every match has an `artists` array, so no key computation throws. */
  predicate AllHaveArtists(results: seq<Match>) {
    forall i :: 0 <= i < |results| ==> HasArtists(results[i])
  }

  /** removeDuplicateResults: the pass of Dedup.RemoveDuplicates with the
      `title-artist-score` key. None stands for the TypeError thrown by a match
      without `artists`. */
  method RemoveDuplicateResults(results: seq<Match>) returns (r: Option<seq<Match>>)
    ensures r.None? <==> !AllHaveArtists(results)
    ensures r.Some? ==> r.value == Unique(results, KeyText)
  {
    r := RemoveDuplicates(results, KeyText, HasArtists);
  }

  /** Title, first artist and score are joined by '-' into one string, so
      different triples can share a key; the second such match is dropped. */
  lemma KeyCollision()
    ensures var a := Match(Str("A-B"), Some([Artist(Str("C"))]), "0.9");
            var b := Match(Str("A"), Some([Artist(Str("B-C"))]), "0.9");
            a.title != b.title && KeyText(a) == KeyText(b) && Unique([a, b], KeyText) == [a]
  {
  }

  /** An empty `artists` array, a first artist without a name and a first
      artist literally named "undefined" all give the same key. */
  lemma UndefinedArtistKey(title: JsValue, scoreText: string)
    ensures var none := Match(title, Some([]), scoreText);
            KeyText(none) == KeyText(Match(title, Some([Artist(Undefined)]), scoreText)) &&
            KeyText(none) == KeyText(Match(title, Some([Artist(Str("undefined"))]), scoreText))
  {
  }

  /** Two identical matches and a third distinct one: the first and the third remain. */
  lemma DedupExample()
    ensures var m1 := Match(Str("A"), Some([Artist(Str("X"))]), "0.9");
            var m2 := Match(Str("B"), Some([Artist(Str("Y"))]), "0.8");
            Unique([m1, m1, m2], KeyText) == [m1, m2]
  {
    var m1 := Match(Str("A"), Some([Artist(Str("X"))]), "0.9");
    var m2 := Match(Str("B"), Some([Artist(Str("Y"))]), "0.8");
    var xs := [m1, m1, m2];
    assert KeyText(m1) == "A-X-0.9" && KeyText(m2) == "B-Y-0.8";
    assert KeyText(m1) != KeyText(m2) by { assert KeyText(m1)[0] != KeyText(m2)[0]; }
    assert xs[..2] == [m1, m1] && [m1, m1][..1] == [m1] && [m1][..0] == [];
    assert Unique([m1], KeyText) == [m1];
    assert Unique([m1, m1], KeyText) == [m1];
  }

  // -----------------------------------------------------------------------
  // The identification call

  /** The `status` object of a reply; `code` is None when absent. */
  datatype Status = Status(code: Option<int>)

  /** The parsed reply of the recognition service, which requestACRCloud
      updates in place. `status` is None when the reply has no `status`
      object; `metadata` is None when it has none, and maps each present
      (non-null) key, such as "music" or "humming", to its array of matches. */
  class RecognitionResponse {
    var status: Option<Status>
    var metadata: Option<map<string, seq<Match>>>

    constructor (status: Option<Status>, metadata: Option<map<string, seq<Match>>>)
      ensures this.status == status && this.metadata == metadata
    {
      this.status := status;
      this.metadata := metadata;
    }
  }

  /** Whether axios delivered a reply or threw. */
  datatype Delivery = Delivered | NetworkError

  /** The guard `data.status.code === 0 && data.metadata && data.metadata[recognitionType]`,
      for a reply that has a `status` object. */
  predicate DedupApplies(status: Status, metadata: Option<map<string, seq<Match>>>, recognitionType: string)
  {
    status.code == Some(0) && metadata.Some? && recognitionType in metadata.value
  }

  /** requestACRCloud: signs the request, and once the service has answered
      (`delivery`, `data`: null for a falsy reply) deduplicates the matches of
      `recognitionType` in place when the reply is a success that has them.
      `envelope` is what the request carries for authentication; `r` is None
      when the call throws ('ACRCloud API 요청 실패'), else the reply returned. */
  method RequestACRCloud(hmac: (string, string) -> string, apiKey: string, apiSecret: string,
                         recognitionType: string, nowMs: int,
                         delivery: Delivery, data: RecognitionResponse?)
    returns (envelope: Signing.SignedEnvelope, r: Option<RecognitionResponse?>)
    modifies data
    ensures envelope == Signing.Sign(hmac, apiKey, apiSecret, nowMs)
    ensures envelope.timestamp * 1000 <= nowMs < (envelope.timestamp + 1) * 1000
    // A network failure, a reply without `status`, or a match without `artists` throws.
    ensures r.None? <==>
      || delivery == NetworkError
      || (data != null && old(data.status).None?)
      || (data != null && old(data.status).Some? && DedupApplies(old(data.status).value, old(data.metadata), recognitionType)
          && !AllHaveArtists(old(data.metadata).value[recognitionType]))
    ensures r.Some? ==> r.value == data
    ensures data != null ==> data.status == old(data.status)
    // Only the array of recognitionType changes, and only when the guard holds and nothing threw.
    ensures data != null && r.Some? && DedupApplies(old(data.status).value, old(data.metadata), recognitionType) ==>
      var before := old(data.metadata).value;
      && data.metadata.Some?
      && data.metadata.value.Keys == before.Keys
      && data.metadata.value[recognitionType] == Unique(before[recognitionType], KeyText)
      && forall k :: k in before && k != recognitionType ==> data.metadata.value[k] == before[k]
    ensures data != null && !(r.Some? && DedupApplies(old(data.status).value, old(data.metadata), recognitionType)) ==>
      data.metadata == old(data.metadata)
  {
    envelope := Signing.Sign(hmac, apiKey, apiSecret, nowMs);
    if delivery == NetworkError {
      return envelope, None;
    }
    if data == null {
      return envelope, Some(data);
    }
    if data.status.None? {
      // `data.status.code` of an undefined `status` throws.
      return envelope, None;
    }
    if DedupApplies(data.status.value, data.metadata, recognitionType) {
      var before := data.metadata.value;
      var deduped := RemoveDuplicateResults(before[recognitionType]);
      if deduped.None? {
        return envelope, None;
      }
      data.metadata := Some(before[recognitionType := deduped.value]);
    }
    return envelope, Some(data);
  }
}
