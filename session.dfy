/**
 * The session controller of the chat page (App.jsx lines 5-49): the form data
 * holding the draft, the `isSubmitting` flag and the transcript, changed by
 * `handleChange` and by the two halves of `handleSubmit`, before and after
 * its `await`.
 */
module ChatSession {
  import opened Wrappers
  import opened JsValue
  import JsString
  import opened Reply

  datatype Role = User | Bot

  /** One transcript entry `{ role, content }`. A bot content is whatever line 40 read. */
  datatype Message = Message(role: Role, content: Value)

  /**
   * A blank draft: every character is white space. By the contract of
   * `JsString.Trim`, this is exactly when the check at line 22 finds that
   * trimming leaves nothing.
   */
  predicate IsBlank(s: string) {
    JsString.AllTrimmable(s)
  }

  /** `formData.q.trim() !== ''` at line 22, negated: the draft is blank. */
  method TrimsToEmpty(draft: string) returns (blank: bool)
    ensures blank <==> IsBlank(draft)
  {
    blank := JsString.Trim(draft) == "";
  }

  /** A user message as line 23 appends it: the untrimmed, non-blank draft. */
  predicate IsPrompt(m: Message) {
    m.role == User && m.content.Str? && !IsBlank(m.content.s)
  }

  /**
   * The transcript starts with a prompt, every user message is a prompt, and
   * user and bot messages alternate.
   */
  ghost predicate Alternates(ms: seq<Message>) {
    && (ms != [] ==> ms[0].role == User)
    && (forall i :: 0 <= i < |ms| && ms[i].role == User ==> IsPrompt(ms[i]))
    && (forall i :: 0 < i < |ms| ==> ms[i - 1].role != ms[i].role)
  }

  /**
   * The transcript is a run of completed exchanges, followed by the prompt of
   * the request in flight, if there is one.
   */
  ghost predicate WellFormedTranscript(ms: seq<Message>, inFlight: Option<string>) {
    Alternates(ms) &&
    match inFlight
    case None => ms == [] || ms[|ms| - 1].role == Bot
    case Some(q) => ms != [] && ms[|ms| - 1] == Message(User, Str(q))
  }

  /** Appending a non-blank prompt to completed exchanges puts it in flight. */
  lemma AppendPrompt(ms: seq<Message>, q: string)
    requires WellFormedTranscript(ms, None) && !IsBlank(q)
    ensures WellFormedTranscript(ms + [Message(User, Str(q))], Some(q))
  {
    var ms' := ms + [Message(User, Str(q))];
    assert forall i :: 0 <= i < |ms| ==> ms'[i] == ms[i];
  }

  /** Appending a reply to the prompt in flight completes the exchange. */
  lemma AppendReply(ms: seq<Message>, q: string, reply: Value)
    requires WellFormedTranscript(ms, Some(q))
    ensures WellFormedTranscript(ms + [Message(Bot, reply)], None)
  {
    var ms' := ms + [Message(Bot, reply)];
    assert forall i :: 0 <= i < |ms| ==> ms'[i] == ms[i];
  }

  class Session {
    /** `formData` (line 6): the form fields by name; the draft is field "q". */
    var form: map<string, string>
    /** `isSubmitting` (line 7). */
    var pending: bool
    /** `messages` (line 8). */
    var messages: seq<Message>
    /**
     * The `handleSubmit` call suspended at its `await` (lines 27-39), by the
     * prompt it sent; None when no call is suspended.
     */
    var inFlight: Option<string>

    ghost predicate Valid()
      reads this
    {
      "q" in form &&
      WellFormedTranscript(messages, inFlight) &&
      (inFlight.Some? ==> pending)
    }

    /** `formData.q`, the text in the textarea (line 92). */
    function Draft(): string
      reads this
      requires "q" in form
    {
      form["q"]
    }

    /**
     * Pending with no request in flight: the button stays disabled and nothing
     * will ever clear the flag again.
     */
    ghost predicate Locked()
      reads this
    {
      pending && inFlight.None?
    }

    /** The initial state of the three `useState` hooks (lines 6-8). */
    constructor ()
      ensures Valid()
      ensures form == map["q" := ""] && !pending && messages == [] && inFlight == None
    {
      form := map["q" := ""];
      pending := false;
      messages := [];
      inFlight := None;
    }

    /**
     * `handleChange` (lines 10-15): the input named `name` now holds `value`;
     * the other fields, the flag and the transcript are untouched.
     */
    method HandleChange(name: string, value: string)
      requires Valid()
      modifies this
      ensures Valid()
      ensures form == old(form)[name := value]
      ensures name == "q" ==> Draft() == value
      ensures pending == old(pending) && messages == old(messages) && inFlight == old(inFlight)
    {
      form := form[name := value];
    }

    /**
     * `handleSubmit` up to its `await` (lines 18-33). It sets the flag before
     * looking at the draft. A blank draft changes nothing else, sends nothing
     * and leaves the session locked. A non-blank one is appended untrimmed as
     * a user message, the form is reset, and the same text is sent as `q`.
     * It is only reachable with the flag down (the button, line 98).
     */
    method HandleSubmit() returns (sent: Option<string>)
      requires Valid() && !pending
      modifies this
      ensures Valid() && pending
      ensures IsBlank(old(Draft())) ==>
        sent == None && Locked() && form == old(form) && messages == old(messages)
      ensures !IsBlank(old(Draft())) ==>
        && sent == Some(old(Draft()))
        && inFlight == sent
        && messages == old(messages) + [Message(User, Str(old(Draft())))]
        && form == map["q" := ""]
    {
      var q, ms := form["q"], messages;
      assert WellFormedTranscript(ms, None);
      pending := true;
      var blank := TrimsToEmpty(q);
      if !blank {
        AppendPrompt(ms, q);
        messages := ms + [Message(User, Str(q))];
        form := map["q" := ""];
        sent := Some(q);
        inFlight := sent;
      } else {
        sent := None;
      }
    }

    /**
     * `handleSubmit` after its `await` (lines 35-47): exactly one bot message is
     * appended, the reply text or the fallback text, and the flag is cleared in
     * `finally` on both paths. The draft typed meanwhile is kept.
     */
    method Complete(outcome: Outcome)
      requires Valid() && inFlight.Some?
      modifies this
      ensures Valid() && !pending && inFlight == None
      ensures messages == old(messages) + [Message(Bot, BotReply(outcome))]
      ensures form == old(form)
    {
      AppendReply(messages, inFlight.value, BotReply(outcome));
      messages := messages + [Message(Bot, BotReply(outcome))];
      inFlight := None;
      pending := false;
    }

    /**
     * A click on the submit button. It is disabled while the flag is up
     * (line 98), and the browser does not submit a form whose `required`
     * textarea is empty (line 94); otherwise `handleSubmit` runs.
     */
    method Press() returns (sent: Option<string>)
      requires Valid()
      modifies this
      ensures Valid()
      ensures old(pending) || old(Draft()) == "" ==>
        sent == None && form == old(form) && pending == old(pending) &&
        messages == old(messages) && inFlight == old(inFlight)
      ensures !old(pending) && old(Draft()) != "" ==> pending
      ensures !old(pending) && old(Draft()) != "" && IsBlank(old(Draft())) ==>
        sent == None && Locked() && form == old(form) && messages == old(messages)
      ensures !old(pending) && !IsBlank(old(Draft())) ==>
        && sent == Some(old(Draft()))
        && inFlight == sent
        && messages == old(messages) + [Message(User, Str(old(Draft())))]
        && form == map["q" := ""]
    {
      if pending || form["q"] == "" {
        sent := None;
      } else {
        sent := HandleSubmit();
      }
    }

    /**
     * A whole cycle from a non-blank draft: the transcript grows by the prompt
     * and then the reply, the draft is empty and the flag is down again.
     */
    method SubmitAndComplete(outcome: Outcome) returns (sent: Option<string>)
      requires Valid() && !pending && !IsBlank(Draft())
      modifies this
      ensures Valid() && !pending && inFlight == None && form == map["q" := ""]
      ensures sent == Some(old(Draft()))
      ensures messages == old(messages) + [Message(User, Str(old(Draft()))), Message(Bot, BotReply(outcome))]
    {
      sent := HandleSubmit();
      Complete(outcome);
    }
  }
}
