/**
 * What `handleSubmit` makes of the server's answer (App.jsx lines 27-43):
 * the bot message content for each way the request can end.
 */
module Reply {
  import opened Wrappers
  import opened JsValue

  /** The text of the bot message appended on any failure (line 43). */
  const FallbackText: string := "There was an error submitting the form."

  /** `result.response.Candidates[0].Content.Parts[0]` (line 40), key by key. */
  const ReplyPath: seq<string> := ["response", "Candidates", "0", "Content", "Parts", "0"]

  /**
   * How the awaited request ends. The mechanics of `fetch` and `response.json()`
   * are not modelled, only their results.
   */
  datatype Outcome =
    | TransportFailure                            // `fetch` rejects (lines 27-33)
    | Response(status: int, body: Option<Value>)  // None: `response.json()` rejects (line 39)

  /** `response.ok`: the status is in the range 200 to 299. */
  predicate IsOk(status: int) {
    200 <= status <= 299
  }

  /**
   * Evaluates line 40 on the parsed body; None when the expression throws,
   * which is exactly when one of the five property reads meets null or undefined.
   */
  function ReplyText(body: Value): (r: Option<Value>)
    ensures r.None? <==> StepFromNullish(body, ReplyPath)
  {
    GetPathThrowsIff(body, ReplyPath);
    GetPath(body, ReplyPath)
  }

  /** The cycle ends on the catch path (lines 35-36, 39, 40, 42-43). */
  predicate Fails(o: Outcome) {
    match o
    case TransportFailure => true
    case Response(status, body) => !IsOk(status) || body.None? || ReplyText(body.value).None?
  }

  /** A status outside 200-299 ends the cycle with the fallback text, whatever the body. */
  lemma NonOkFallsBack(status: int, body: Option<Value>)
    requires !IsOk(status)
    ensures BotReply(Response(status, body)) == Str(FallbackText)
  {
  }

  /**
   * The content of the bot message that ends the cycle: the value at the reply
   * path when the cycle succeeds, the fallback text otherwise.
   */
  function BotReply(o: Outcome): (r: Value)
    ensures Fails(o) ==> r == Str(FallbackText)
    ensures !Fails(o) ==> Some(r) == ReplyText(o.body.value)
  {
    match o
    case TransportFailure => Str(FallbackText)
    case Response(status, body) =>
      if !IsOk(status) then Str(FallbackText)
      else
        match body
        case None => Str(FallbackText)
        case Some(b) =>
          match ReplyText(b)
          case None => Str(FallbackText)
          case Some(t) => t
  }

  /**
   * The shape the backend sends on success: `response.Candidates` is a
   * non-empty array whose first element has `Content.Parts` equal to `parts`.
   */
  ghost predicate HasParts(body: Value, parts: seq<Value>) {
    body.Obj? && "response" in body.props &&
    var response := body.props["response"];
    response.Obj? && "Candidates" in response.props &&
    var candidates := response.props["Candidates"];
    candidates.Arr? && |candidates.elems| > 0 &&
    var first := candidates.elems[0];
    first.Obj? && "Content" in first.props &&
    var content := first.props["Content"];
    content.Obj? && "Parts" in content.props && content.props["Parts"] == Arr(parts)
  }

  /**
   * On a well-shaped body line 40 does not throw and yields the first part, or
   * `undefined` when `Parts` is empty; an ok response appends that value
   * (App.jsx lines 39-41).
   */
  lemma BotReplyOfParts(status: int, body: Value, parts: seq<Value>)
    requires IsOk(status) && HasParts(body, parts)
    ensures ReplyText(body) == Some(if |parts| > 0 then parts[0] else Undefined)
    ensures BotReply(Response(status, Some(body))) == if |parts| > 0 then parts[0] else Undefined
  {
    ZeroIsIndex();
  }

  /**
   * The cycle ends on the catch path exactly when the request fails, the status
   * is not ok, the body is not JSON, or one of `result`, `response`,
   * `Candidates`, the first candidate, `Content` or `Parts` is null or missing,
   * so that reading the next key throws (line 40).
   */
  lemma FailsIff(o: Outcome)
    ensures Fails(o) <==> o.TransportFailure? || !IsOk(o.status) || o.body.None?
                          || StepFromNullish(o.body.value, ReplyPath)
  {
  }
}
