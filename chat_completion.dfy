/**
 * The chat-completions exchange shared by the three extractors: the request
 * they post, the shape of the reply they read, and the prompt template the
 * two travel-agency extractors have in common.
 */
module ChatCompletion {
  import opened Wrappers
  import opened Formatting

  const Endpoint: string := "https://api.openai.com/v1/chat/completions"
  const DefaultModel: string := "gpt-3.5-turbo"

  /** One entry of the "messages" list of the request body. */
  datatype ChatMessage = ChatMessage(role: string, content: string)

  /** A POST to `url` with bearer credential `bearer` and body {"model": model, "messages": messages}. */
  datatype ChatRequest = ChatRequest(url: string, bearer: string, model: string, messages: seq<ChatMessage>)

  /** The parts of the decoded response map the extractors look at; `None` is a JSON null or a missing key. */
  datatype ChoiceMessage = ChoiceMessage(content: Option<string>)
  datatype Choice = Choice(message: Option<ChoiceMessage>)
  datatype ResponseBody = ResponseBody(choices: Option<seq<Choice>>)

  /** What posting a request produced: an exception, or a status with a possibly empty body. */
  datatype HttpOutcome = Threw(message: string) | Response(status: int, body: Option<ResponseBody>)

  /** Whether the try block returned a value (possibly null), or fell through to the fallback. */
  datatype Answer = Answered(content: Option<string>) | NoAnswer

  predicate Is2xx(status: int)
  {
    200 <= status <= 299
  }

  /** The request every extractor posts: the endpoint, the key, the model and one user message. */
  function UserRequest(apiKey: string, model: string, prompt: string): (r: ChatRequest)
    ensures r.url == Endpoint && r.bearer == apiKey && r.model == model
    ensures |r.messages| == 1 && r.messages[0].role == "user" && r.messages[0].content == prompt
  {
    ChatRequest(Endpoint, apiKey, model, [ChatMessage("user", prompt)])
  }

  /**
   * The value of the try block: the first choice's message content on a 2xx
   * response whose body and choices are present and non-empty. A first choice
   * without a message raises a NullPointerException, which the catch swallows.
   */
  function FirstChoice(outcome: HttpOutcome): Answer
  {
    match outcome
    case Threw(_) => NoAnswer
    case Response(status, body) =>
      if Is2xx(status) && body.Some? && body.value.choices.Some? && |body.value.choices.value| > 0 then
        match body.value.choices.value[0].message
        case Some(m) => Answered(m.content)
        case None => NoAnswer
      else NoAnswer
  }

  /** The selection of the try block, as the extractors run it: checks, then an early return. */
  method ReadFirstChoice(outcome: HttpOutcome) returns (a: Answer)
    ensures a == FirstChoice(outcome)
  {
    a := NoAnswer;
    if outcome.Threw? {
      return;
    }
    if !Is2xx(outcome.status) || outcome.body.None? {
      return;
    }
    var choices := outcome.body.value.choices;
    if choices.None? || |choices.value| == 0 {
      return;
    }
    var choice := choices.value[0];
    if choice.message.None? {
      return;
    }
    a := Answered(choice.message.value.content);
  }

  /** A reply is read exactly when every check passes, and it is the first choice's content. */
  lemma AnsweredExactly(outcome: HttpOutcome)
    ensures FirstChoice(outcome).Answered? <==>
      && outcome.Response?
      && Is2xx(outcome.status)
      && outcome.body.Some?
      && outcome.body.value.choices.Some?
      && |outcome.body.value.choices.value| > 0
      && outcome.body.value.choices.value[0].message.Some?
    ensures FirstChoice(outcome).Answered? ==>
      FirstChoice(outcome).content == outcome.body.value.choices.value[0].message.value.content
  {
  }

  /** Choices after the first never influence the answer. */
  lemma LaterChoicesIgnored(status: int, first: Choice, later: seq<Choice>, other: seq<Choice>)
    ensures FirstChoice(Response(status, Some(ResponseBody(Some([first] + later)))))
         == FirstChoice(Response(status, Some(ResponseBody(Some([first] + other)))))
  {
  }

  /** Every failing outcome leads to the fallback. */
  lemma FailuresFallBack(outcome: HttpOutcome)
    requires || outcome.Threw?
             || (outcome.Response? && !Is2xx(outcome.status))
             || (outcome.Response? && outcome.body.None?)
             || (outcome.Response? && outcome.body.Some? && outcome.body.value.choices.None?)
             || (outcome.Response? && outcome.body.Some? && outcome.body.value.choices == Some([]))
    ensures FirstChoice(outcome) == NoAnswer
  {
  }

  /** The field list of the booking-site prompt before the extractor's own id field. */
  const FieldsIntro: string :=
    "Extract key information from this email into JSON format with the following fields:\n"
    + "- From\n- To\n- Subject\n- Date\n"

  /** The rest of the field list, up to the From slot. */
  const FieldsOutro: string :=
    "- Content (   Only include the user-written message body."
    + "   Exclude any system notifications, UI elements, headers, replies, or boilerplate text.)\n\n"
    + "Email details:\n"
    + "From: "

  /** The text before the first slot, with the id field in the field list. */
  function DetailsHead(idField: string): string
  {
    FieldsIntro + idField + FieldsOutro
  }

  const SubjectSlot: string := "\nTo: [Extract from email header]\nSubject: "
  const DateSlot: string := "\nDate: "
  const ContentSlot: string := "\nContent: "
  const DetailsTail: string := "\n\nReturn only a **valid JSON object** with relevant fields properly extracted."

  /** The booking-site format string, with its From, Subject, Date and Content slots; the
      ensures is the well-formedness `Format` requires of it for the four arguments. */
  function DetailsTemplate(idField: string): (t: seq<string>)
    ensures |t| == 5 && Slots(t) == 4
  {
    [DetailsHead(idField), SubjectSlot, DateSlot, ContentSlot, DetailsTail]
  }

  /** `String.format(template, from, subject, date, content)` for the booking-site template. */
  function DetailsPrompt(idField: string, from: string, subject: string, date: string, content: string): string
  {
    Format(DetailsTemplate(idField), [from, subject, date, content])
  }

  /** Each argument lands verbatim in its slot, once, in the order From, Subject, Date, Content. */
  lemma DetailsLayout(idField: string, from: string, subject: string, date: string, content: string)
    ensures DetailsPrompt(idField, from, subject, date, content)
         == DetailsHead(idField) + from + SubjectSlot + subject + DateSlot + date + ContentSlot + content + DetailsTail
  {
    FormatFourSlots(DetailsHead(idField), SubjectSlot, DateSlot, ContentSlot, DetailsTail, from, subject, date, content);
  }
}
