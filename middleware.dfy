/** The request filters of the server: the Content-Type checks and `CheckHash`, the
    HMAC-SHA-256 check of the `HashSHA256` header (RFC 2104), with the HMAC itself a
    parameter. */
module Middleware {
  import opened Wrappers
  import opened Strings
  import opened Hex

  const StatusOK := 200
  const StatusBadRequest := 400
  const StatusNotFound := 404
  const StatusUnsupportedMediaType := 415
  const StatusInternalServerError := 500

  const JsonMediaType := "application/json"
  const PlainTextMediaType := "text/plain"

  /** The rule of both content-type filters (and of the older handlers, which inline it):
      a missing Content-Type passes, otherwise it must start with the media type. */
  function ContentTypeAccepted(contentType: string, mediaType: string): (ok: bool)
    ensures ok <==> contentType == "" || HasPrefix(contentType, mediaType)
    ensures !ok ==> contentType != ""
  {
    !(contentType != "" && !HasPrefix(contentType, mediaType))
  }

  /** `CheckApplicationJSONContentType`: 415, or the wrapped handler runs (`None`). */
  function CheckApplicationJSONContentType(contentType: string): (r: Option<int>)
    ensures r.Some? <==> contentType != "" && !HasPrefix(contentType, JsonMediaType)
    ensures r.Some? ==> r.value == StatusUnsupportedMediaType
  {
    if ContentTypeAccepted(contentType, JsonMediaType) then None else Some(StatusUnsupportedMediaType)
  }

  /** `CheckPlainTextContentType`: 415, or the wrapped handler runs (`None`). */
  function CheckPlainTextContentType(contentType: string): (r: Option<int>)
    ensures r.Some? <==> contentType != "" && !HasPrefix(contentType, PlainTextMediaType)
    ensures r.Some? ==> r.value == StatusUnsupportedMediaType
  {
    if ContentTypeAccepted(contentType, PlainTextMediaType) then None else Some(StatusUnsupportedMediaType)
  }

  lemma ContentTypeExamples()
    ensures CheckPlainTextContentType("text/plain; charset=utf-8").None?
    ensures CheckPlainTextContentType("").None?
    ensures CheckPlainTextContentType(JsonMediaType) == Some(StatusUnsupportedMediaType)
    ensures CheckApplicationJSONContentType(PlainTextMediaType) == Some(StatusUnsupportedMediaType)
  {
    assert JsonMediaType[0] != PlainTextMediaType[0];
    assert JsonMediaType[..|PlainTextMediaType|][0] == JsonMediaType[0];
    assert "text/plain; charset=utf-8"[..|PlainTextMediaType|] == PlainTextMediaType;
  }

  /** What `CheckHash` does with a request: hand it on without touching the body, hand it
      on with the body it read (and put back), or answer with a status. */
  datatype HashDecision = PassUntouched | PassWithBody(body: seq<uint8>) | Reject(status: int)

  /** `CheckHash`. `body` is the result of reading the request body (`None` when reading
      fails); `hmac(key, data)` is HMAC-SHA-256. */
  function CheckHash(key: string, body: Option<seq<uint8>>, receivedHash: string,
                     hmac: (string, seq<uint8>) -> seq<uint8>): (d: HashDecision)
    ensures key == "" <==> d == PassUntouched
    ensures key != "" && body.None? ==> d == Reject(StatusBadRequest)
    ensures d.Reject? ==> d.status == StatusBadRequest
    ensures d.PassWithBody? ==> body == Some(d.body)
    ensures key != "" && body.Some? && (receivedHash == "" || receivedHash == "none") ==> d == PassWithBody(body.value)
    ensures key != "" && body.Some? && receivedHash != "" && receivedHash != "none" ==>
      (d.PassWithBody? <==> DecodeString(receivedHash) == Some(hmac(key, body.value)))
  {
    if key == "" then PassUntouched
    else match body
      case None => Reject(StatusBadRequest)
      case Some(b) =>
        if receivedHash == "" || receivedHash == "none" then PassWithBody(b)
        else
          var expected := hmac(key, b);
          match DecodeString(receivedHash)
          case None => Reject(StatusBadRequest)
          case Some(received) => if expected != received then Reject(StatusBadRequest) else PassWithBody(b)
  }

  /** A body signed with the same key, its signature sent in hex as the agent does, is
      accepted and handed on unchanged. */
  lemma SignedRequestAccepted(key: string, body: seq<uint8>, hmac: (string, seq<uint8>) -> seq<uint8>)
    requires key != ""
    ensures EncodeToString(hmac(key, body)) != "" ==>
      CheckHash(key, Some(body), EncodeToString(hmac(key, body)), hmac) == PassWithBody(body)
  {
    DecodeEncode(hmac(key, body));
  }

  /** A body whose HMAC differs from the one signed is refused. */
  lemma AlteredBodyRejected(key: string, signed: seq<uint8>, sent: seq<uint8>, hmac: (string, seq<uint8>) -> seq<uint8>)
    requires key != "" && hmac(key, sent) != hmac(key, signed)
    requires EncodeToString(hmac(key, signed)) != ""
    ensures CheckHash(key, Some(sent), EncodeToString(hmac(key, signed)), hmac) == Reject(StatusBadRequest)
  {
    DecodeEncode(hmac(key, signed));
  }
}
