/** `EmailReply`: composing the threaded reply to a message and handing it to the
    SMTP transport, and replying to the latest message of a folder. */
module EmailReply {
  import opened Wrappers
  import opened Strings
  import opened MimeContent
  import opened Messages
  import opened Mailbox
  import opened Threading
  import EmailReader

  /** The reply as it is handed to `Transport.send`: From, To, Subject, the extra
      headers set with `setHeader`, the sent date and the text body. */
  datatype OutboundMessage = OutboundMessage(
    from: Address,
    to: seq<Address>,
    subject: string,
    headers: map<string, string>,
    sentDate: string,
    text: string)

  /** The mail-send collaborator: `Transport.send` either delivers or throws. */
  class Transport {
    const sendStep: Step
    var sent: seq<OutboundMessage>

    constructor (sendStep: Step)
      ensures this.sendStep == sendStep && sent == []
    {
      this.sendStep := sendStep;
      sent := [];
    }

    /** `Transport.send(message)`. */
    method Send(m: OutboundMessage) returns (err: Option<Failure>)
      modifies this
      ensures err == StepFailure(sendStep)
      ensures sent == old(sent) + (if err.None? then [m] else [])
    {
      err := StepFailure(sendStep);
      if err.None? {
        sent := sent + [m];
      }
    }
  }

  const Separator := "\n\n----- Original Message -----\n"
  const ContentErrorNote := "Error retrieving original message content: "

  /** `subject.toLowerCase()` on a null subject. */
  const NullSubject := RuntimeException("NullPointerException")
  /** `getFrom()[0]` on a message without From addresses: a NullPointerException when
      `getFrom()` is null, an ArrayIndexOutOfBoundsException when it is empty; the two
      are not told apart. */
  const NoSender := RuntimeException("no sender address")

  /** The recipients: the Reply-To addresses, or the From addresses when there are none. */
  function Recipients(original: MailMessage): seq<Address>
  {
    if |original.replyTo| == 0 then original.from else original.replyTo
  }

  /** The reply subject: "Re: " in front unless the subject already starts with "re:"
      in any letter case. */
  function ReplySubject(subject: string): string
  {
    if StartsWith(LowerAscii(subject), "re:") then subject else "Re: " + subject
  }

  /** The header block of the quoted original. */
  function QuotedHeader(sender: Address, sentDate: Option<string>, subject: string): string
  {
    "From: " + sender + "\n" + "Date: " + Render(sentDate) + "\n" + "Subject: " + subject + "\n\n"
  }

  /** The text of the reply: the caller's body, the separator and the quoted original.
      An IOException while reading the original's content is replaced by a note; any
      other failure escapes. */
  function ReplyText(replyBody: string, original: MailMessage, subject: string): Result<string>
  {
    if |original.from| == 0 then Err(NoSender)
    else
      var head := replyBody + Separator + QuotedHeader(original.from[0], original.sentDate, subject);
      match MessageContent(original.content)
      case Ok(content) => Ok(head + content)
      case Err(IOException(message)) => Ok(head + ContentErrorNote + message)
      case Err(f) => Err(f)
  }

  /** The reply `replyToMessage` builds, or the exception that stops it before sending. */
  function ComposeReply(from: Address, original: MailMessage, replyBody: string, now: string)
    : Result<OutboundMessage>
  {
    match original.subject
    case None => Err(NullSubject)
    case Some(subject) =>
      match ReplyText(replyBody, original, subject)
      case Err(f) => Err(f)
      case Ok(text) =>
        Ok(OutboundMessage(from, Recipients(original), ReplySubject(subject),
                           ThreadingHeaders(original.messageId, original.references), now, text))
  }

  /** The outcome of composing and sending. */
  function SendOutcome(sendStep: Step, composed: Result<OutboundMessage>): Result<()>
  {
    match composed
    case Err(f) => Err(f)
    case Ok(_) => if sendStep.Done? then Ok(()) else Err(StepFailure(sendStep).value)
  }

  /** What reaches the outbox. */
  function Delivered(sendStep: Step, composed: Result<OutboundMessage>): seq<OutboundMessage>
  {
    if composed.Ok? && sendStep.Done? then [composed.value] else []
  }

  /** `replyToMessage`; the sent date `new Date()` is the parameter `now`. */
  method ReplyToMessage(transport: Transport, from: Address, original: MailMessage, replyBody: string,
                        now: string) returns (r: Result<()>)
    modifies transport
    ensures r == SendOutcome(transport.sendStep, ComposeReply(from, original, replyBody, now))
    ensures transport.sent
         == old(transport.sent) + Delivered(transport.sendStep, ComposeReply(from, original, replyBody, now))
  {
    var to := original.replyTo;
    if |to| == 0 {
      to := original.from;
    }
    if original.subject.None? {
      return Err(NullSubject);
    }
    var subject := original.subject.value;
    if !StartsWith(LowerAscii(subject), "re:") {
      subject := "Re: " + subject;
    }
    var headers: map<string, string> := map[];
    if original.messageId.Some? {
      var messageId := original.messageId.value;
      headers := headers["In-Reply-To" := messageId];
      var references := ReferencesHeader(original.references);
      var value := if references.None? then messageId else references.value + " " + messageId;
      headers := headers["References" := value];
    }
    var body := replyBody;
    body := body + Separator;
    if |original.from| == 0 {
      return Err(NoSender);
    }
    body := body + "From: " + original.from[0] + "\n";
    body := body + "Date: " + Render(original.sentDate) + "\n";
    body := body + "Subject: " + original.subject.value + "\n\n";
    assert body == replyBody + Separator + QuotedHeader(original.from[0], original.sentDate, original.subject.value);
    var content := MessageContent(original.content);
    if content.Ok? {
      body := body + content.value;
    } else if content.failure.IOException? {
      body := body + ContentErrorNote + content.failure.message;
    } else {
      return Err(content.failure);
    }
    var reply := OutboundMessage(from, to, subject, headers, now, body);
    var err := transport.Send(reply);
    if err.Some? {
      return Err(err.value);
    }
    r := Ok(());
  }

  /** `replyToLatestEmail`: nothing is sent, and nothing fails, when the folder is empty. */
  method ReplyToLatestEmail(server: MailServer, transport: Transport, from: Address, replyBody: string,
                            now: string) returns (r: Result<()>)
    requires !server.connected && !server.folderOpen
    modifies server, transport
    ensures match EmailReader.LatestEmail(server.script)
            case Err(f) => r == Err(f) && transport.sent == old(transport.sent)
            case Ok(None) => r == Ok(()) && transport.sent == old(transport.sent)
            case Ok(Some(latest)) =>
              && r == SendOutcome(transport.sendStep, ComposeReply(from, latest, replyBody, now))
              && transport.sent
                 == old(transport.sent) + Delivered(transport.sendStep, ComposeReply(from, latest, replyBody, now))
    ensures server.trace == old(server.trace) + EmailReader.SessionTrace(server.script)
    ensures EmailReader.Resources(server.connected, server.folderOpen)
         == EmailReader.AfterCleanup(server.script, EmailReader.AfterTry(server.script))
  {
    var latest := EmailReader.GetLatestEmail(server);
    if latest.Err? {
      return Err(latest.failure);
    }
    if latest.value.None? {
      return Ok(());
    }
    r := ReplyToMessage(transport, from, latest.value.value, replyBody, now);
  }

  /** The subject rule: unchanged exactly when it already starts with "re:" in any
      letter case, otherwise prefixed with "Re: ". */
  lemma ReplySubjectRule(subject: string)
    ensures ReplySubject(subject) == subject <==> StartsWith(LowerAscii(subject), "re:")
    ensures !StartsWith(LowerAscii(subject), "re:") ==> ReplySubject(subject) == "Re: " + subject
  {
  }

  /** Applying the subject rule twice equals applying it once. */
  lemma ReplySubjectIdempotent(subject: string)
    ensures ReplySubject(ReplySubject(subject)) == ReplySubject(subject)
  {
    if !StartsWith(LowerAscii(subject), "re:") {
      var prefixed := "Re: " + subject;
      LowerAsciiPrefix(prefixed, 3);
      assert prefixed[..3] == "Re:";
      assert LowerAscii("Re:") == "re:";
    }
  }

  /** Two examples of the subject rule. */
  lemma ReplySubjectExamples()
    ensures ReplySubject("Status update") == "Re: Status update"
    ensures ReplySubject("RE: Status update") == "RE: Status update"
  {
    LowerAsciiPrefix("Status update", 3);
    assert "Status update"[..3] == "Sta";
    assert LowerAscii("Sta")[0] == 's';
    LowerAsciiPrefix("RE: Status update", 3);
    assert "RE: Status update"[..3] == "RE:";
    assert LowerAscii("RE:") == "re:";
  }

  /** A composed reply goes to Reply-To, else From; its subject follows the subject
      rule; it carries the threading headers of the original. */
  lemma ReplyEnvelope(from: Address, original: MailMessage, replyBody: string, now: string)
    requires ComposeReply(from, original, replyBody, now).Ok?
    ensures var m := ComposeReply(from, original, replyBody, now).value;
            && m.from == from
            && m.to == (if |original.replyTo| > 0 then original.replyTo else original.from)
            && m.subject == ReplySubject(original.subject.value)
            && m.headers == ThreadingHeaders(original.messageId, original.references)
            && m.sentDate == now
  {
  }

  /** The body layout: the caller's body, the separator, From/Date/Subject of the
      original (its own subject, not the prefixed one) and the original's content. */
  lemma QuotedBodyLayout(from: Address, original: MailMessage, replyBody: string, now: string)
    requires original.subject.Some? && |original.from| > 0 && MessageContent(original.content).Ok?
    ensures ComposeReply(from, original, replyBody, now).Ok?
    ensures ComposeReply(from, original, replyBody, now).value.text
         == replyBody + "\n\n----- Original Message -----\n"
            + "From: " + original.from[0] + "\n"
            + "Date: " + Render(original.sentDate) + "\n"
            + "Subject: " + original.subject.value + "\n\n"
            + MessageContent(original.content).value
  {
  }

  /** An IOException while reading the original's content keeps the header lines,
      adds a note with the exception's message, and the reply is still composed. */
  lemma ContentReadFailureStillReplies(from: Address, original: MailMessage, replyBody: string, now: string,
                                       message: string)
    requires original.subject.Some? && |original.from| > 0
    requires MessageContent(original.content) == Err(IOException(message))
    ensures ComposeReply(from, original, replyBody, now).Ok?
    ensures ComposeReply(from, original, replyBody, now).value.text
         == replyBody + Separator + QuotedHeader(original.from[0], original.sentDate, original.subject.value)
            + "Error retrieving original message content: " + message
  {
  }

  /** Any other failure of the content read is not caught: nothing is composed. */
  lemma OtherFailuresAbort(from: Address, original: MailMessage, replyBody: string, now: string)
    requires original.subject.Some? && |original.from| > 0
    requires MessageContent(original.content).Err? && !MessageContent(original.content).failure.IOException?
    ensures ComposeReply(from, original, replyBody, now) == Err(MessageContent(original.content).failure)
  {
  }
}
