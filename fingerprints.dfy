/** The fingerprint endpoint (backend/api/fingerprints.js): CORS headers, then
    a status and a body chosen from the HTTP method, the `audio` field and the
    outcome of the search. The search (searchMusicWithFingerprint) is not
    modelled here: its outcome is passed in. */
module Fingerprints {
  import opened Wrappers
  import opened Js

  const MissingAudioMessage: string := "오디오 데이터가 필요합니다."
  const RequestFailedMessage: string := "ACRCloud API 요청 실패"
  const MethodNotAllowedMessage: string := "허용되지 않는 메소드"

  /** The four CORS headers, as `setHeader` records them (the boolean `true`
      becomes the text "true"). */
  const CorsHeaders: map<string, string> := map[
    "Access-Control-Allow-Credentials" := "true",
    "Access-Control-Allow-Origin" := "https://melolist-xi.vercel.app",
    "Access-Control-Allow-Methods" := "GET,OPTIONS,POST",
    "Access-Control-Allow-Headers" := "Content-Type, Authorization"]

  /** `req.body`: None when it is null or undefined. */
  datatype RequestBody = RequestBody(audio: JsValue)

  /** `req`: its HTTP method and its parsed body. */
  datatype Request = Request(httpMethod: string, body: Option<RequestBody>)

  /** A JSON body: `{error: ...}`, or the search result as it is. */
  datatype JsonBody<P> = ErrorMessage(error: string) | Payload(payload: P)

  /** How the awaited search ended. */
  datatype SearchOutcome<P> = Found(result: P) | Threw

  /** The `res` object the handler writes to. */
  class ServerResponse<P> {
    /** The headers set by `setHeader` calls; a `Content-Type` that `json` adds is not recorded. */
    var headers: map<string, string>
    var statusCode: int
    var body: Option<JsonBody<P>>
    var finished: bool

    /** A fresh response: no headers, Node's default status 200, nothing sent. */
    constructor ()
      ensures headers == map[] && statusCode == 200 && body == None && !finished
    {
      headers := map[];
      statusCode := 200;
      body := None;
      finished := false;
    }

    method SetHeader(name: string, value: string)
      modifies this
      ensures headers == old(headers)[name := value]
      ensures statusCode == old(statusCode) && body == old(body) && finished == old(finished)
    {
      headers := headers[name := value];
    }

    method Status(code: int)
      modifies this
      ensures statusCode == code
      ensures headers == old(headers) && body == old(body) && finished == old(finished)
    {
      statusCode := code;
    }

    /** `res.json(value)`: sends a JSON body and ends the response. */
    method Json(value: JsonBody<P>)
      modifies this
      ensures body == Some(value) && finished
      ensures headers == old(headers) && statusCode == old(statusCode)
    {
      body := Some(value);
      finished := true;
    }

    /** `res.end()`: ends the response without a body. */
    method End()
      modifies this
      ensures finished
      ensures headers == old(headers) && statusCode == old(statusCode) && body == old(body)
    {
      finished := true;
    }
  }

  /** handler(req, res). `searched` tells whether searchMusicWithFingerprint
      was called; `search` is how that call ends when it is. */
  method Handler<P>(req: Request, res: ServerResponse<P>, search: SearchOutcome<P>) returns (searched: bool)
    modifies res
    // The CORS headers are set on every path, and the response is always ended.
    ensures res.headers == old(res.headers) + CorsHeaders
    ensures res.finished
    // The search runs only for a POST whose body has a truthy `audio`.
    ensures searched <==> req.httpMethod == "POST" && req.body.Some? && Truthy(req.body.value.audio)
    ensures req.httpMethod == "OPTIONS" ==> res.statusCode == 200 && res.body == old(res.body)
    // `const { audio } = req.body` throws on a null or undefined body: caught as a failure.
    ensures req.httpMethod == "POST" && req.body.None? ==>
      res.statusCode == 500 && res.body == Some(ErrorMessage(RequestFailedMessage))
    ensures req.httpMethod == "POST" && req.body.Some? && !Truthy(req.body.value.audio) ==>
      res.statusCode == 400 && res.body == Some(ErrorMessage(MissingAudioMessage))
    ensures searched && search.Found? ==> res.statusCode == 200 && res.body == Some(Payload(search.result))
    ensures searched && search.Threw? ==>
      res.statusCode == 500 && res.body == Some(ErrorMessage(RequestFailedMessage))
    ensures req.httpMethod != "OPTIONS" && req.httpMethod != "POST" ==>
      res.statusCode == 405 && res.body == Some(ErrorMessage(MethodNotAllowedMessage))
  {
    res.SetHeader("Access-Control-Allow-Credentials", "true");
    res.SetHeader("Access-Control-Allow-Origin", "https://melolist-xi.vercel.app");
    res.SetHeader("Access-Control-Allow-Methods", "GET,OPTIONS,POST");
    res.SetHeader("Access-Control-Allow-Headers", "Content-Type, Authorization");
    assert res.headers == old(res.headers) + CorsHeaders;
    searched := false;

    if req.httpMethod == "OPTIONS" {
      res.Status(200);
      res.End();
      return;
    }

    if req.httpMethod == "POST" {
      if req.body.None? {
        res.Status(500);
        res.Json(ErrorMessage(RequestFailedMessage));
        return;
      }
      var audio := req.body.value.audio;
      if !Truthy(audio) {
        res.Status(400);
        res.Json(ErrorMessage(MissingAudioMessage));
        return;
      }
      searched := true;
      match search {
        case Found(acrResponse) =>
          res.Status(200);
          res.Json(Payload(acrResponse));
        case Threw =>
          res.Status(500);
          res.Json(ErrorMessage(RequestFailedMessage));
      }
      return;
    }

    res.Status(405);
    res.Json(ErrorMessage(MethodNotAllowedMessage));
  }
}
