# Melolist backend relay: a Dafny model of its logic

The Melolist backend takes a base64 audio sample from the browser and relays it
to the ACRCloud identification service, in fingerprint ("music") or humming
mode. It then returns the service's candidate matches with duplicates removed.
A second helper asks ACRCloud's metadata service for a YouTube link for a track.
Almost everything in it is HTTP. This project models the parts that are logic:

- **Deduplication** (`removeDuplicateResults`). One pass with a `seen` set keeps
  the first match for each key. Module `Dedup` states and proves it for any key
  function from a match to a string. Module `Recognition` fixes the key to the
  source's `${title}-${artists[0]?.name}-${score}` text. The pass itself is the
  loop method `Dedup.RemoveDuplicates`. `Recognition.RemoveDuplicateResults`
  runs it with that key.
- **Signing** (module `Signing`). This covers the timestamp `floor(now_ms / 1000)`
  and the six-line string to sign. The signature is the HMAC applied to that
  string and the secret.
- **Post-processing of the reply** (`Recognition.RequestACRCloud`). The
  `metadata[recognitionType]` array is deduplicated in place, and only when
  `status.code === 0` and that array is present.
- **Metadata lookup** (module `Metadata`). This covers the `{track}` /
  `{track, artist}` query, the link taken from the first entry only, and the
  rewrite of `music.youtube.com` to `youtube.com`. Every "nothing found" or
  error path yields `null`.
- **The endpoint** (module `Fingerprints`). It sets four CORS headers, then
  answers 200, 400, 405 or 500.

Module `Js` models the JavaScript built-ins these parts use: truthiness,
template stringification, `includes` and first-occurrence `replace`,
`join` on one character, and integer-to-decimal text. It also models `split`
on one character, which the source never calls: it is used only to state that
the string to sign splits back into its fields.

External calls are parameters:

- the HMAC-SHA1 signer is a function argument `hmac` about which nothing is assumed;
- `Date.now()` is the argument `nowMs`;
- what axios delivered, or that it threw, is an argument (`Delivery` with the
  reply object, `Metadata.Reply`);
- the outcome of `searchMusicWithFingerprint` is an argument (`SearchOutcome`).

Behaviour of the code that a reader might not expect (the model follows the code):

- **Dedup key.** Matches count as duplicates when their `-`-joined key texts are
  equal, not when their (title, artist, score) triples are equal. So
  `A-B`/`C` and `A`/`B-C` collide (`Recognition.KeyCollision`). An empty
  `artists` array renders as `undefined`, not as a sentinel `unknown`
  (`Recognition.UndefinedArtistKey`).
- **Unsuccessful reply.** When `status.code` is not 0, or the reply is falsy,
  `requestACRCloud` returns the reply unchanged. It does not return an empty
  sequence.
- **Missing `status` or `artists`.** A reply without a `status` object throws.
  A match without `artists` throws only where the key is computed: in
  `metadata[recognitionType]` of a reply whose `status.code` is 0. The same
  match in a failed reply, or under another recognition type, is returned
  unchanged.
- **Request body.** A POST whose body is null or undefined is answered 500, not
  400. Destructuring `audio` out of it throws inside the `try`.
- **No enrichment or cap.** `requestACRCloud` does no enrichment, no
  `score > 0.5` filter and no cap of 3. Nothing calls `fetchACRCloudMetadata`
  in a fan-out.

## Model

| member | source | states |
|---|---|---|
| `Dedup.Unique` | backend/src/api/requestACRCloud.js:11-25 | first-seen deduplication by key never lengthens the input |
| `Dedup.UniqueStep` | backend/src/api/requestACRCloud.js:15-22 | one loop step: the seen keys grow by the current key; the element is appended exactly when its key was not yet seen |
| `Dedup.KeySetMembers` | backend/src/api/requestACRCloud.js:18-20 | a key is in the seen set exactly when some element already processed carries it |
| `Dedup.FirstOccurrenceOfLast` | backend/src/api/requestACRCloud.js:18 | `!seen.has(key)` holds exactly when the current element is the first to carry its key |
| `Dedup.UniqueKeepsEveryKey` | backend/src/api/requestACRCloud.js:15-22 | coverage: the output carries exactly the keys of the input |
| `Dedup.UniqueHasDistinctKeys` | backend/src/api/requestACRCloud.js:16-20 | no two kept results share a key |
| `Dedup.UniqueIsFirstOccurrences` | backend/src/api/requestACRCloud.js:15-22 | the output is the input restricted to the first occurrence of each key, at ascending indices (a subsequence in input order) |
| `Dedup.UniqueOfDistinct` | backend/src/api/requestACRCloud.js:11-25 | input whose keys are already distinct is returned unchanged |
| `Dedup.UniqueIdempotent` | backend/src/api/requestACRCloud.js:11-25 | deduplicating twice equals deduplicating once |
| `Dedup.UniqueSize` | backend/src/api/requestACRCloud.js:11-25 | output length equals the number of distinct input keys |
| `Dedup.UniqueKeepsAllIffDistinct` | backend/src/api/requestACRCloud.js:11-25 | output length equals input length iff all input keys are distinct |
| `Dedup.RemoveDuplicates` | backend/src/api/requestACRCloud.js:12-24 | the loop with `uniqueResults` and `seen` returns exactly `Unique`; it fails iff some element's key cannot be computed |
| `Recognition.RemoveDuplicateResults` | backend/src/api/requestACRCloud.js:11-25 | with the `title-artist-score` key: returns `Unique` of the results, and throws iff some result lacks `artists` |
| `Recognition.KeyText` | backend/src/api/requestACRCloud.js:16 | the key is the title text, '-', the first artist's name text (`undefined` for an empty array), '-', the score text: it starts with `title-` and ends with `-score` |
| `Recognition.KeyCollision` | backend/src/api/requestACRCloud.js:16 | distinct (title, artist) pairs can share a key text, and the second is dropped |
| `Recognition.UndefinedArtistKey` | backend/src/api/requestACRCloud.js:16 | an empty artists array, an unnamed first artist and one named "undefined" give the same key |
| `Recognition.DedupExample` | backend/src/api/requestACRCloud.js:11-25 | `[m1, m1, m2]` deduplicates to `[m1, m2]` |
| `Recognition.RequestACRCloud` | backend/src/api/requestACRCloud.js:27-71 | signs with the clock's second; throws exactly on a network failure, on a reply without `status`, or when `DedupApplies` (the guard at :62: `status.code === 0` and `metadata[recognitionType]` present) holds and some match in `metadata[recognitionType]` lacks `artists`; otherwise returns the same reply, whose `metadata[recognitionType]` alone is replaced by its deduplication when `DedupApplies` holds, and which is otherwise untouched |
| `Signing.Timestamp` | backend/src/api/requestACRCloud.js:34 | `timestamp * 1000 <= now_ms < (timestamp + 1) * 1000` |
| `Signing.TimestampUnique` | backend/src/api/requestACRCloud.js:34 | those bounds determine the timestamp |
| `Signing.StringToSign` | backend/src/api/requestACRCloud.js:38 | the string to sign is POST, endpoint, access key, data type, signature version and timestamp joined by newlines |
| `Signing.StringToSignFields` | backend/src/api/requestACRCloud.js:38 | for a newline-free access key, splitting on newline gives back those six fields, and the last reads back as the timestamp |
| `Signing.StringToSignInjective` | backend/src/api/requestACRCloud.js:38 | different newline-free access keys or different seconds give different strings to sign |
| `Signing.Sign` | backend/src/api/requestACRCloud.js:34-39 | the envelope's signature is the signer applied to the string to sign and the secret, with the timestamp of `now_ms` |
| `Signing.SignDeterministic` | backend/src/api/requestACRCloud.js:6-8 | the same credentials within the same second give the same envelope (a consequence of the envelope depending on the clock only through its second; nothing about the signer) |
| `Js.SplitJoin` | backend/src/api/requestACRCloud.js:38 | splitting undoes joining when no field holds the separator |
| `Js.DecimalText` | backend/src/api/requestACRCloud.js:38 | `${timestamp}` is an optional sign and digits, with no newline |
| `Js.DecimalRoundTrip` | backend/src/api/requestACRCloud.js:38 | the decimal text of an integer reads back as that integer |
| `Js.IndexOf` | backend/src/api/fetchACRCloudMetadata.js:45-46 | the first index where a pattern occurs, or none when it occurs nowhere |
| `Metadata.BuildRequestQuery` | backend/src/api/fetchACRCloudMetadata.js:11-17 | `track` is always the stringified track; `artist` is present, as the stringified artists, exactly when `artists` is truthy |
| `Metadata.EmptyArtistArraySent` | backend/src/api/fetchACRCloudMetadata.js:13-14 | an empty artists array is truthy and sends `artist: ""` |
| `Metadata.CanonicalLink` | backend/src/api/fetchACRCloudMetadata.js:45-47 | a link changes exactly when it contains `music.youtube.com`, and then becomes 6 characters shorter |
| `Metadata.CanonicalLinkUnchanged` | backend/src/api/fetchACRCloudMetadata.js:45-47 | a link without `music.youtube.com` is kept |
| `Metadata.CanonicalLinkAt` | backend/src/api/fetchACRCloudMetadata.js:45-47 | otherwise only its first occurrence becomes `youtube.com`, prefix and suffix kept, 6 characters shorter |
| `Metadata.CanonicalLinkKeepsLaterOccurrence` | backend/src/api/fetchACRCloudMetadata.js:46 | a later non-overlapping occurrence survives the rewrite |
| `Metadata.CanonicalLinkExample` | backend/src/api/fetchACRCloudMetadata.js:45-47 | `https://music.youtube.com/watch?v=xyz` becomes `https://youtube.com/watch?v=xyz` |
| `Metadata.FirstYoutubeEntry` | backend/src/api/fetchACRCloudMetadata.js:37-42 | an entry is found only in an answered reply, as the first youtube entry of the first `data` element; none exactly when the call failed or one of the `data`, `external_metadata`, `youtube` levels is missing or empty |
| `Metadata.FetchACRCloudMetadata` | backend/src/api/fetchACRCloudMetadata.js:4-64 | sends the built query; yields a URL iff the first track's first youtube entry has a string link, and then it is that link rewritten; every other case, failures included, yields null |
| `Metadata.OnlyFirstEntriesConsulted` | backend/src/api/fetchACRCloudMetadata.js:37-42 | later tracks and later youtube entries do not change the outcome |
| `Fingerprints.ServerResponse.SetHeader` | backend/api/fingerprints.js:5-8 | records one header and changes nothing else |
| `Fingerprints.ServerResponse.Status` | backend/api/fingerprints.js:12 | sets the status code and changes nothing else |
| `Fingerprints.ServerResponse.Json` | backend/api/fingerprints.js:20 | sends the JSON body and ends the response |
| `Fingerprints.ServerResponse.End` | backend/api/fingerprints.js:12 | ends the response without a body |
| `Fingerprints.Handler` | backend/api/fingerprints.js:3-33 | CORS headers on every path; OPTIONS gives 200 and leaves the body as it was (none on a fresh response); POST with falsy audio gives 400, and with a null body 500, neither searching; a search gives 200 with its result or 500 if it throws; any other method gives 405; the search runs only for a POST with truthy audio |

## Left out

- HTTP: the axios POST with its multipart `FormData` (requestACRCloud.js:41-58) and the metadata GET with its parameters and bearer header (fetchACRCloudMetadata.js:19-32). These are network I/O. Their results enter as parameters.
- HMAC-SHA1 and base64 digest (requestACRCloud.js:6-8) are a library call. The signer is a parameter with no assumed properties, so no claim is made about collisions.
- Base64 decoding of the audio and `sample_bytes` (requestACRCloud.js:29-30) are library behaviour that feeds the form. The model takes the audio to be a string (or an array), which `Buffer.from` never rejects.
- `Recognition.RequestACRCloud`: does not model two throws inside the `try` before the network call, both caught as 'ACRCloud API 요청 실패' (:67-69). `Buffer.from(audioBase64, 'base64')` (:29) throws for a truthy audio value that is neither a string nor an array (`1`, `true`, `{}`), which the endpoint's truthiness test lets through. `crypto.createHmac('sha1', apiSecret)` (:7) throws when the secret is undefined. The model has no audio argument and takes the secret to be a string, so its signer never fails.
- `JSON.stringify(requestQuery)` (fetchACRCloudMetadata.js:23): JSON escaping is library behaviour. The model stops at the query object.
- The default `recognitionType = 'music'` (requestACRCloud.js:27): callers always pass the mode.
- Logging (`console.log`, `console.error`).
- JavaScript values outside the modelled shapes. In the source a non-empty string reply, a truthy non-array `metadata[recognitionType]`, and a `null` match or track entry would each throw. They are not represented. A falsy reply (`null`, `""`, `0`, `false`) fails the guard and comes back unchanged; the model represents every falsy reply by `null`. A `null` first artist entry yields the key text `undefined` through `?.`, the same key as an unnamed artist, so it is represented by `Artist(Undefined)`; entries after the first are never read. A `link` that is not a string is not represented either: an array link whose `includes` finds no `music.youtube.com` element would be returned as it is, an object without `includes` would throw; the model has only string links (`YoutubeEntry.link`).
- `Fingerprints.ServerResponse.Json`: `headers` records only the handler's own `setHeader` calls. The `Content-Type` header that the framework's `res.json` adds when none is set is not modelled, so on the paths that answer with JSON the real response carries that header beyond the four CORS headers that `Fingerprints.Handler` states.
- `Fingerprints.Handler`: keeps no trace of the order of calls on `res`. Its contract shows that the CORS headers are present on every path, not that they were set before the status.
- The humming endpoint, `fingerprint.js`, `humming.js`, `acrcloud.js` and `server.js`: environment reads, constant mode binding, a duplicate of the signing string, and Express setup.
