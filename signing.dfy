/** Signing of an identification request (backend/src/api/requestACRCloud.js):
    the string to sign, the timestamp taken from the clock, and the signature.
    HMAC-SHA1 with base64 output is a library call; it enters the model as the
    function parameter `hmac`, about which nothing is assumed. The clock
    enters as `nowMs`, the value `Date.now()` returned. */
module Signing {
  import opened Js

  const Method: string := "POST"
  const Endpoint: string := "/v1/identify"
  const DataType: string := "audio"
  const SignatureVersion: int := 1

  /** `Math.floor(nowMs / 1000)`: the clock reading in whole seconds. */
  function Timestamp(nowMs: int): (t: int)
    ensures t * 1000 <= nowMs < (t + 1) * 1000
  {
    nowMs / 1000
  }

  /** The whole second containing nowMs is the only one satisfying the bounds. */
  lemma TimestampUnique(nowMs: int, t: int)
    requires t * 1000 <= nowMs < (t + 1) * 1000
    ensures t == Timestamp(nowMs)
  {
  }

  /** The six fields of the string to sign, in the order the service requires. */
  function SignedFields(apiKey: string, timestamp: int): seq<string> {
    [Method, Endpoint, apiKey, DataType, DecimalText(SignatureVersion), DecimalText(timestamp)]
  }

  /** `POST\n${endpoint}\n${apiKey}\n${dataType}\n${signatureVersion}\n${timestamp}`:
      the six signed fields joined by newlines. */
  function StringToSign(apiKey: string, timestamp: int): (s: string)
    ensures s == Join(SignedFields(apiKey, timestamp), '\n')
  {
    var f := SignedFields(apiKey, timestamp);
    assert Join(f[5..], '\n') == f[5];
    assert Join(f[4..], '\n') == f[4] + "\n" + f[5];
    assert Join(f[3..], '\n') == f[3] + "\n" + f[4] + "\n" + f[5];
    assert Join(f[2..], '\n') == f[2] + "\n" + f[3] + "\n" + f[4] + "\n" + f[5];
    assert Join(f[1..], '\n') == f[1] + "\n" + f[2] + "\n" + f[3] + "\n" + f[4] + "\n" + f[5];
    "POST\n" + Endpoint + "\n" + apiKey + "\n" + DataType + "\n" + DecimalText(SignatureVersion) + "\n" + DecimalText(timestamp)
  }

  /** With a newline-free access key, splitting the string to sign on '\n'
      gives back the six fields, and its last field reads back as the timestamp. */
  lemma StringToSignFields(apiKey: string, timestamp: int)
    requires '\n' !in apiKey
    ensures Split(StringToSign(apiKey, timestamp), '\n') == SignedFields(apiKey, timestamp)
    ensures DecimalValue(Split(StringToSign(apiKey, timestamp), '\n')[5]) == timestamp
  {
    var fields := SignedFields(apiKey, timestamp);
    assert '\n' !in Method && '\n' !in Endpoint && '\n' !in DataType;
    assert forall i :: 0 <= i < |fields| ==> '\n' !in fields[i];
    SplitJoin(fields, '\n');
    DecimalRoundTrip(timestamp);
  }

  /** Different access keys or different seconds give different strings to
      sign, as long as the keys hold no newline. */
  lemma StringToSignInjective(key1: string, t1: int, key2: string, t2: int)
    requires '\n' !in key1 && '\n' !in key2
    requires StringToSign(key1, t1) == StringToSign(key2, t2)
    ensures key1 == key2 && t1 == t2
  {
    StringToSignFields(key1, t1);
    StringToSignFields(key2, t2);
    assert SignedFields(key1, t1)[2] == SignedFields(key2, t2)[2];
  }

  /** What a request carries for authentication. */
  datatype SignedEnvelope = SignedEnvelope(
    accessKey: string,
    dataType: string,
    signatureVersion: int,
    timestamp: int,
    signature: string)

  /** The timestamp, the string to sign and the signature for one request
      (requestACRCloud.js:34-39). */
  function Sign(hmac: (string, string) -> string, apiKey: string, apiSecret: string, nowMs: int): (e: SignedEnvelope)
    ensures e.timestamp * 1000 <= nowMs < (e.timestamp + 1) * 1000
    ensures e.signature == hmac(StringToSign(apiKey, e.timestamp), apiSecret)
    ensures e.accessKey == apiKey && e.dataType == DataType && e.signatureVersion == SignatureVersion
  {
    var timestamp := Timestamp(nowMs);
    SignedEnvelope(apiKey, DataType, SignatureVersion, timestamp, hmac(StringToSign(apiKey, timestamp), apiSecret))
  }

  /** Two requests signed within the same second with the same credentials
      carry the same envelope. This follows from Sign being a function of the
      clock's whole second; it says nothing about the signer itself. */
  lemma SignDeterministic(hmac: (string, string) -> string, apiKey: string, apiSecret: string, ms1: int, ms2: int)
    requires ms1 / 1000 == ms2 / 1000
    ensures Sign(hmac, apiKey, apiSecret, ms1) == Sign(hmac, apiKey, apiSecret, ms2)
  {
  }
}
