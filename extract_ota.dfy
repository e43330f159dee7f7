/** The extractor for OTA notification mails: a four-field prompt and null on failure. */
module ExtractOta {
  import opened Wrappers
  import opened ChatCompletion

  /** The extractor's own line in the prompt's field list. */
  const IdField: string := "- BookingID or Property ID (if present)\n"

  /** The prompt for one mail; the received date appears as `String.valueOf` renders it. */
  function Prompt(subject: string, content: string, sender: string, receivedDate: Option<string>): string
  {
    DetailsPrompt(IdField, sender, subject, Render(receivedDate), content)
  }

  /** Sender, subject, date and content fill the From, Subject, Date and Content slots, verbatim. */
  lemma PromptLayout(subject: string, content: string, sender: string, receivedDate: Option<string>)
    ensures Prompt(subject, content, sender, receivedDate)
         == FieldsIntro + IdField + FieldsOutro + sender + SubjectSlot + subject
            + DateSlot + Render(receivedDate) + ContentSlot + content + DetailsTail
  {
    DetailsLayout(IdField, sender, subject, Render(receivedDate), content);
  }

  /** The result once the try block has produced `answer`: the reply, or null. */
  function ExtractionResult(answer: Answer): (r: Option<string>)
    ensures answer == NoAnswer ==> r == None
    ensures answer.Answered? ==> r == answer.content
  {
    if answer.Answered? then answer.content else None
  }

  class OtaEmailExtractor {
    var model: string
    var apiKey: string

    /** The one-argument constructor: the key is set, the model keeps its default. */
    constructor (apiKey: string)
      ensures this.apiKey == apiKey && model == DefaultModel
    {
      this.apiKey := apiKey;
      model := DefaultModel;
    }

    /** The two-argument constructor overrides the model. */
    constructor WithModel(apiKey: string, model: string)
      ensures this.apiKey == apiKey && this.model == model
    {
      this.apiKey := apiKey;
      this.model := model;
    }

    /**
     * Builds and posts the request for one mail; `outcome` is what the post
     * produced. Returns the request sent and the extracted text.
     */
    method ExtractContent(subject: string, content: string, sender: string, receivedDate: Option<string>,
                          outcome: HttpOutcome)
      returns (sent: ChatRequest, r: Option<string>)
      ensures sent == UserRequest(apiKey, model, Prompt(subject, content, sender, receivedDate))
      ensures r == ExtractionResult(FirstChoice(outcome))
    {
      var prompt := Prompt(subject, content, sender, receivedDate);
      var messages: seq<ChatMessage> := [];
      messages := messages + [ChatMessage("user", prompt)];
      sent := ChatRequest(Endpoint, apiKey, model, messages);
      var answer := ReadFirstChoice(outcome);
      if answer.Answered? {
        return sent, answer.content;
      }
      r := None;
    }
  }
}
