/**
 * `decode` (src/matrix/utils.cpp): the classification of a finished HTTP
 * reply into a response code, an optional error text and a JSON object.
 * The reply itself is abstract: its status code, the transport error
 * text, the reason phrase, the body as text and the outcome of parsing
 * the body as a JSON document.
 */
module Http {
  import opened Wrappers
  import opened Json
  import opened Numerals
  import QStrings

  /** The outcome of `QJsonDocument::fromJson`. */
  datatype ParseOutcome = ParseError(message: string) | Parsed(document: Json)

  /** What `decode` reads from a finished reply. */
  datatype Reply = Reply(code: int, errorString: string, reasonPhrase: string, body: string, parsed: ParseOutcome)

  /** `Response`: the status code, an error text when the request failed, and the body object. */
  datatype Response = Response(code: int, error: Option<string>, json: JsonObject)

  /** The error text for a failed request whose body gives no reason: status code and reason phrase. */
  function HttpError(code: nat, reason: string): string {
    "HTTP " + Decimal(code) + " " + reason
  }

  /**
   * The error text as the source builds it: the template "HTTP %1 %2"
   * receives one argument, so the reason phrase takes the place of the
   * code and the second marker stays in the text.
   */
  function HttpErrorAsWritten(reason: string): (r: string)
    ensures r == "HTTP " + reason + " %2"
  {
    QStrings.FirstOfTwo("HTTP ", " ", "", reason);
    assert "HTTP " + "%1" + " " + "%2" + "" == "HTTP %1 %2";
    assert "HTTP " + reason + " " + "%2" + "" == "HTTP " + reason + " %2";
    QStrings.Arg("HTTP %1 %2", reason)
  }

  function MalformedError(parseMessage: string, body: string): string {
    "Malformed response from server: " + parseMessage +
    (if body != "" then "\nResponse was:\n" + body else "")
  }

  function NotObjectError(body: string): string {
    "Malformed response from server: not a json object\nResponse was:\n" + body
  }

  /** `decode` with the error text for failed requests built as the source builds it. */
  function DecodeAsWritten(reply: Reply): (r: Response)
    ensures r.code == reply.code
  {
    if reply.code == 0 then Response(0, Some(reply.errorString), map[])
    else match reply.parsed
      case ParseError(message) =>
        if reply.code >= 300 then Response(reply.code, Some(HttpErrorAsWritten(reply.reasonPhrase)), map[])
        else Response(reply.code, Some(MalformedError(message, reply.body)), map[])
      case Parsed(document) =>
        if !document.Object? then Response(reply.code, Some(NotObjectError(reply.body)), map[])
        else if reply.code >= 300 then
          var error := GetString(document.fields, "error");
          Response(reply.code, Some(if error != "" then error else HttpErrorAsWritten(reply.reasonPhrase)), document.fields)
        else Response(reply.code, None, document.fields)
  }

  /**
   * `decode`, with the status code in the error text of failed requests.
   * A request succeeds exactly when a status code below 300 arrived
   * together with a JSON object; the response then carries that object.
   */
  function Decode(reply: Reply): (r: Response)
    ensures r.code == reply.code
    ensures r.error.None? <==> reply.code != 0 && reply.code < 300 && reply.parsed.Parsed? && reply.parsed.document.Object?
    ensures r.error.None? ==> r.json == reply.parsed.document.fields
  {
    if reply.code == 0 then Response(0, Some(reply.errorString), map[])
    else match reply.parsed
      case ParseError(message) =>
        if reply.code >= 300 then Response(reply.code, Some(HttpError(reply.code, reply.reasonPhrase)), map[])
        else Response(reply.code, Some(MalformedError(message, reply.body)), map[])
      case Parsed(document) =>
        if !document.Object? then Response(reply.code, Some(NotObjectError(reply.body)), map[])
        else if reply.code >= 300 then
          var error := GetString(document.fields, "error");
          Response(reply.code, Some(if error != "" then error else HttpError(reply.code, reply.reasonPhrase)), document.fields)
        else Response(reply.code, None, document.fields)
  }

  /** Without a status code the error is the transport's error text, and the body is not looked at. */
  lemma DecodeTransportFailure(reply: Reply)
    requires reply.code == 0
    ensures Decode(reply) == Response(0, Some(reply.errorString), map[])
    ensures forall other: Reply :: other.code == 0 && other.errorString == reply.errorString ==> Decode(other) == Decode(reply)
  {
  }

  /**
   * An unparsable body gives the status-code error for codes of 300 and
   * more, otherwise a malformed-response error that shows the body when
   * there is one.
   */
  lemma DecodeUnparsable(reply: Reply)
    requires reply.code != 0 && reply.parsed.ParseError?
    ensures reply.code >= 300 ==> Decode(reply).error == Some(HttpError(reply.code, reply.reasonPhrase))
    ensures reply.code < 300 ==> Decode(reply).error == Some(MalformedError(reply.parsed.message, reply.body))
    ensures reply.code < 300 && reply.body == "" ==>
      Decode(reply).error == Some("Malformed response from server: " + reply.parsed.message)
  {
    var prefix := "Malformed response from server: " + reply.parsed.message;
    assert prefix + "" == prefix;
  }

  /** A failed request with an object body reports the object's "error" text, or the status-code error when that is empty. */
  lemma DecodeServerError(reply: Reply)
    requires reply.code >= 300 && reply.parsed.Parsed? && reply.parsed.document.Object?
    ensures var error := GetString(reply.parsed.document.fields, "error");
      Decode(reply).error == Some(if error != "" then error else HttpError(reply.code, reply.reasonPhrase)) &&
      Decode(reply).json == reply.parsed.document.fields
  {
  }

  /** The two versions differ only in the text of the status-code error. */
  lemma DecodeAsWrittenDiffersOnlyInText(reply: Reply)
    ensures DecodeAsWritten(reply).code == Decode(reply).code
    ensures DecodeAsWritten(reply).json == Decode(reply).json
    ensures DecodeAsWritten(reply).error.None? <==> Decode(reply).error.None?
  {
  }

  /**
   * A 404 whose body is not JSON: the text as written is
   * "HTTP Not Found %2", without the code, where the evident intent is
   * "HTTP 404 Not Found".
   */
  lemma DecodeAsWrittenLosesStatusCode()
    ensures var reply := Reply(404, "", "Not Found", "<html></html>", ParseError("illegal value"));
      DecodeAsWritten(reply).error == Some("HTTP Not Found %2") &&
      Decode(reply).error == Some("HTTP 404 Not Found")
  {
    assert Decimal(404) == "404" by {
      assert ToBase(4, 10) == "4";
      assert ToBase(40, 10) == ToBase(4, 10) + [Digits[0]] == "40";
      assert ToBase(404, 10) == ToBase(40, 10) + [Digits[4]] == "404";
    }
    assert "HTTP " + "Not Found" + " %2" == "HTTP Not Found %2";
    assert "HTTP " + "404" + " " + "Not Found" == "HTTP 404 Not Found";
  }
}
