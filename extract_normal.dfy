/** The extractor for ordinary (HTML) replies, with its hand-built JSON fallback. */
module ExtractNormal {
  import opened Wrappers
  import opened Strings
  import opened Formatting
  import opened ChatCompletion

  /** The text-block prompt up to its single `%s` slot. */
  const PromptHead: string :=
    "You are an email parser designed to extract only the most recent reply from a email message with html format.\n\n"
    + "Instructions:\n"
    + "    - Return only the content written in the latest reply.\n"
    + "    - Exclude any quoted text from previous messages (usually indicated by lines like \"On [date], [name] wrote:\" or \"From:\", \"Sent:\", \"Subject:\").\n"
    + "    - Remove email headers, disclaimers, signatures, and repetitive greetings.\n"
    + "    - If the content is in HTML, convert it to clean plain text, preserving line breaks and paragraph structure.\n"
    + "    - If there is no recent reply content found in the provided email message, the content primarily consists of images only without any textual reply or message. Please consider content is empty string\n\n"
    + "Content: \n\n\n"

  /** The prompt format string: the head, the slot, and the final line break of the text block. */
  const PromptTemplate: seq<string> := [PromptHead, "\n"]

  /** The prompt sent for `content`. */
  function Prompt(content: string): string
  {
    Format(PromptTemplate, [content])
  }

  /** The content is inserted verbatim, once, between the fixed head and the final line break. */
  lemma PromptLayout(content: string)
    ensures Prompt(content) == PromptHead + content + "\n"
  {
    FormatOneSlot(PromptHead, content, "\n");
  }

  /** `content.replaceAll("\"", "\\\\\"").replaceAll("\n", "\\\\n")`: quotes first, then line feeds. */
  function Escape(s: string): string
  {
    ReplaceChar(ReplaceChar(s, '"', "\\\""), '\n', "\\n")
  }

  /** The fallback format string `{"content":"%s"}`. */
  const FallbackTemplate: seq<string> := ["{\"content\":\"", "\"}"]

  /** The JSON text returned when no reply was read. */
  function Fallback(content: string): string
  {
    Format(FallbackTemplate, [Escape(content)])
  }

  /** The result of `extractContentWithOpenAI` once the try block has produced `answer`. */
  function ExtractionResult(answer: Answer, content: string): Option<string>
  {
    match answer
    case Answered(reply) => reply
    case NoAnswer => Some(Fallback(content))
  }

  class NormalEmailExtractor {
    var model: string
    var apiKey: string

    /** The one-argument constructor: the key is set, the model keeps its default. */
    constructor (apiKey: string)
      ensures this.apiKey == apiKey && model == DefaultModel
    {
      this.apiKey := apiKey;
      model := DefaultModel;
    }

    /** The two-argument constructor overrides the model. */
    constructor WithModel(apiKey: string, model: string)
      ensures this.apiKey == apiKey && this.model == model
    {
      this.apiKey := apiKey;
      this.model := model;
    }

    /**
     * Builds and posts the request for `content`; `outcome` is what the post
     * produced. Returns the request sent and the extracted text.
     */
    method ExtractContent(content: string, outcome: HttpOutcome) returns (sent: ChatRequest, r: Option<string>)
      ensures sent == UserRequest(apiKey, model, Prompt(content))
      ensures r == ExtractionResult(FirstChoice(outcome), content)
    {
      var prompt := Prompt(content);
      var messages: seq<ChatMessage> := [];
      messages := messages + [ChatMessage("user", prompt)];
      sent := ChatRequest(Endpoint, apiKey, model, messages);
      var answer := ReadFirstChoice(outcome);
      if answer.Answered? {
        return sent, answer.content;
      }
      r := Some(Fallback(content));
    }
  }

  /** A reply read from the response is returned as is; every failure falls back to the escaped content. */
  lemma ResultCases(outcome: HttpOutcome, content: string)
    ensures FirstChoice(outcome).Answered? ==> ExtractionResult(FirstChoice(outcome), content) == FirstChoice(outcome).content
    ensures FirstChoice(outcome) == NoAnswer ==>
      ExtractionResult(FirstChoice(outcome), content) == Some("{\"content\":\"" + Escape(content) + "\"}")
  {
    FormatOneSlot("{\"content\":\"", Escape(content), "\"}");
  }

  /** One character's escape. */
  function EscapeChar(c: char): string
  {
    if c == '"' then "\\\"" else if c == '\n' then "\\n" else [c]
  }

  /** The two passes together escape character by character. */
  lemma EscapeHead(s: string)
    requires |s| > 0
    ensures Escape(s) == EscapeChar(s[0]) + Escape(s[1..])
  {
    var first := ReplaceChar(s, '"', "\\\"");
    var head := if s[0] == '"' then "\\\"" else [s[0]];
    assert first == head + ReplaceChar(s[1..], '"', "\\\"");
    ReplaceCharAppend(head, ReplaceChar(s[1..], '"', "\\\""), '\n', "\\n");
    if s[0] == '"' {
      assert ReplaceChar(head, '\n', "\\n") == "\\\"" by {
        assert head[1..] == "\"";
        assert head[1..][1..] == "";
      }
    } else {
      assert head[1..] == "";
    }
  }

  /** The escaped text contains no line feed. */
  lemma EscapeHasNoLineFeed(s: string)
    ensures '\n' !in Escape(s)
  {
    ReplaceCharRemoves(ReplaceChar(s, '"', "\\\""), '\n', "\\n");
  }

  /** Each quote and each line feed gains one backslash; nothing else grows. */
  lemma EscapeLength(s: string)
    ensures |Escape(s)| == |s| + Count(s, '"') + Count(s, '\n')
  {
    var first := ReplaceChar(s, '"', "\\\"");
    ReplaceCharLength(s, '"', "\\\"");
    ReplaceCharKeepsCount(s, '"', "\\\"", '\n');
    ReplaceCharLength(first, '\n', "\\n");
  }

  /** Text without quotes and line feeds, including backslashes and carriage returns, passes unchanged. */
  lemma EscapeKeepsPlainText(s: string)
    requires '"' !in s && '\n' !in s
    ensures Escape(s) == s
  {
    ReplaceCharAbsent(s, '"', "\\\"");
    ReplaceCharAbsent(s, '\n', "\\n");
  }

  /** Backslashes are not escaped, so a literal backslash-n and a line feed escape alike. */
  lemma EscapeConflatesBackslash()
    ensures Escape("\\n") == Escape("\n") == "\\n"
  {
    EscapeKeepsPlainText("\\n");
    EscapeHead("\n");
    EscapeKeepsPlainText("");
  }

  /** Escaping distributes over concatenation. */
  lemma EscapeAppend(a: string, b: string)
    ensures Escape(a + b) == Escape(a) + Escape(b)
  {
    ReplaceCharAppend(a, b, '"', "\\\"");
    ReplaceCharAppend(ReplaceChar(a, '"', "\\\""), ReplaceChar(b, '"', "\\\""), '\n', "\\n");
  }

  /** Reading the two escapes back, as a JSON string decoder does for `\"` and `\n`. */
  function Unescape(s: string): string
    decreases |s|
  {
    if |s| == 0 then ""
    else if |s| >= 2 && s[0] == '\\' && s[1] == '"' then "\"" + Unescape(s[2..])
    else if |s| >= 2 && s[0] == '\\' && s[1] == 'n' then "\n" + Unescape(s[2..])
    else [s[0]] + Unescape(s[1..])
  }

  /** Without backslashes in the content, decoding the escape gives the content back. */
  lemma {:induction false} UnescapeEscape(s: string)
    requires '\\' !in s
    ensures Unescape(Escape(s)) == s
    decreases |s|
  {
    if |s| > 0 {
      EscapeHead(s);
      var rest := Escape(s[1..]);
      var e := EscapeChar(s[0]) + rest;
      UnescapeEscape(s[1..]);
      if s[0] == '"' || s[0] == '\n' {
        assert e[2..] == rest;
      } else {
        assert e[1..] == rest;
      }
      assert s == [s[0]] + s[1..];
    }
  }
}
