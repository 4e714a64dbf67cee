/**
 * Whole runs of the chat page, from a fresh session through typing, a click
 * on the submit button and the server's answer.
 */
module ChatScenarios {
  import opened Wrappers
  import opened JsValue
  import opened Reply
  import opened ChatSession

  /** `{"response":{"Candidates":[{"Content":{"Parts":parts}}]}}` */
  function CandidateBody(parts: seq<Value>): (body: Value)
    ensures HasParts(body, parts)
  {
    Obj(map["response" := Obj(map["Candidates" := Arr([Obj(map["Content" := Obj(map["Parts" := Arr(parts)])])])])])
  }

  /** Types `draft`, clicks submit and checks that a request went out. */
  method Ask(draft: string) returns (s: Session)
    requires draft != [] && !JsString.IsTrimmable(draft[0])
    ensures fresh(s) && s.Valid() && s.pending && s.inFlight == Some(draft)
    ensures s.messages == [Message(User, Str(draft))] && s.Draft() == ""
  {
    s := new Session();
    s.HandleChange("q", draft);
    var sent := s.Press();
    assert sent == Some(draft);
  }

  /** "Hello" answered with "Hi there!": one prompt, one reply, flag down. */
  method HelloExchange() returns (transcript: seq<Message>, pending: bool)
    ensures transcript == [Message(User, Str("Hello")), Message(Bot, Str("Hi there!"))]
    ensures !pending
  {
    var s := Ask("Hello");
    BotReplyOfParts(200, CandidateBody([Str("Hi there!")]), [Str("Hi there!")]);
    s.Complete(Response(200, Some(CandidateBody([Str("Hi there!")]))));
    transcript, pending := s.messages, s.pending;
  }

  /** An answer whose `Parts` is empty appends a bot message with undefined content. */
  method EmptyPartsExchange() returns (transcript: seq<Message>, pending: bool)
    ensures transcript == [Message(User, Str("Test")), Message(Bot, Undefined)]
    ensures !pending
  {
    var s := Ask("Test");
    BotReplyOfParts(200, CandidateBody([]), []);
    s.Complete(Response(200, Some(CandidateBody([]))));
    transcript, pending := s.messages, s.pending;
  }

  /** HTTP 500 ends the cycle with the fallback reply. */
  method ServerErrorExchange() returns (transcript: seq<Message>, pending: bool)
    ensures transcript == [Message(User, Str("Test")), Message(Bot, Str(FallbackText))]
    ensures !pending
  {
    var s := Ask("Test");
    s.Complete(Response(500, Some(CandidateBody([Str("Hi there!")]))));
    transcript, pending := s.messages, s.pending;
  }

  /** `{"response":{}}` lacks `Candidates`: line 40 throws and the fallback is appended. */
  method MissingCandidatesExchange() returns (transcript: seq<Message>, pending: bool)
    ensures transcript == [Message(User, Str("Test")), Message(Bot, Str(FallbackText))]
    ensures !pending
  {
    var s := Ask("Test");
    var body := Obj(map["response" := Obj(map[])]);
    assert ReplyText(body) == None by {
      assert ReplyPath[1..][1..] == ["0", "Content", "Parts", "0"];
    }
    s.Complete(Response(200, Some(body)));
    transcript, pending := s.messages, s.pending;
  }

  /**
   * Two spaces: nothing is appended or sent, the flag goes up and stays up, and
   * a later click with a real prompt is ignored by the disabled button.
   */
  method BlankDraftLocks()
    returns (transcript: seq<Message>, pending: bool, draft: string, sent1: Option<string>, sent2: Option<string>)
    ensures transcript == [] && pending && draft == "Hello"
    ensures sent1 == None && sent2 == None
  {
    var s := new Session();
    s.HandleChange("q", "  ");
    assert JsString.AllTrimmable("  ");
    sent1 := s.Press();
    assert s.Locked();
    s.HandleChange("q", "Hello");
    sent2 := s.Press();
    transcript, pending, draft := s.messages, s.pending, s.Draft();
  }
}
