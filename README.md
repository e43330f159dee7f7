# java-email, modelled in Dafny

This project models the deterministic core of `java-email`. That program reads mail
over IMAP, answers it over SMTP and asks a chat-completions endpoint to extract the
useful part of a message. The model covers:

- how a message body is flattened to text (`getMessageContent`,
  `getTextFromMimeMultipart`);
- how the latest and the unread messages are fetched as detached copies, with the
  `finally` block that releases the folder and the store;
- how a threaded reply is composed: recipients, the `Re:` rule, `In-Reply-To` and
  `References`, the quoted body and its IOException fallback;
- the request and response contract of the three extractors: prompt templates,
  request shape, default and overridden model, first-choice selection, the
  escaped JSON fallback or null;
- the Thai sender-prefix clean-up of the test driver.

Modules follow the Java classes:

- `MimeContent`, `EmailReader`: body flattening and fetching.
- `Threading`, `EmailReply`: reply composition.
- `ChatCompletion`, `ExtractNormal`, `ExtractOta`, `ExtractExpedia`: the extractors.
- `ThaiPrefix`: the prefix clean-up.
- `Wrappers`, `Strings`, `Formatting`: the Java library behaviour the core relies on.
  This covers nulls and exceptions, `indexOf`, `contains`, `replaceAll` for one
  character, ASCII `toLowerCase`, and `String.format` with `%s`. `Join` is the
  delimiter join `getHeader(name, " ")` performs on a header's values. `Split` is
  not called by the program: it is a reference inverse of `Join`, used only to show
  that the joined References header can be read back (`SplitJoin`,
  `ReferencesTokens`).
- `Messages`, `Mailbox`: the message record and the IMAP collaborator.

The IMAP store and folder are a `MailServer` class. Its answers for one session are
fixed by a `ServerScript`. Its fields `connected` and `folderOpen` are the live
state the `finally` block inspects, and `trace` records what the client did. The
SMTP transport is a `Transport` class whose `sent` field is the outbox. The HTTP
exchange is an `HttpOutcome` value given to each extractor. Each extractor returns
the request it built alongside its result. The sent date `new Date()` is the
parameter `now`. Java `null` is `Option.None` and a thrown exception is `Result.Err`.

The model follows the code as written, including two behaviours a reader might not expect:

- Flattening looks only at the last body part. The loop over all parts is commented
  out, so nothing is concatenated.
- When closing the folder throws, the store is not closed. The close sits in the same
  `try` as the folder close, so not every resource is released on that path.

## Model

| member | source | states |
|---|---|---|
| MimeContent.MessageContent | src/main/java/org/example/EmailReader.java:106-116 | `getMessageContent`: a String is returned, a multipart is flattened, any other class gives the notice, and a failing read is an error. Its cases are the lemmas below. |
| MimeContent.MultipartText | src/main/java/org/example/EmailReader.java:126-143 | `getTextFromMimeMultipart`: only the part at index `count - 1` is looked at, and an empty multipart fails. Its properties are `OnlyLastPartMatters` and `FlattenedTextComesFromTree`. |
| MimeContent.PartText | src/main/java/org/example/EmailReader.java:131-139 | The contribution of that part: a text/plain or text/html content verbatim, a nested multipart recursively, "" for any other readable leaf. |
| MimeContent.StringContentUnchanged | src/main/java/org/example/EmailReader.java:106-110 | A String content is returned unchanged. |
| MimeContent.UnsupportedContentNotice | src/main/java/org/example/EmailReader.java:113-114 | Content of any other class gives exactly "Content type not supported: " followed by the class name. |
| MimeContent.EmptyMultipartFails | src/main/java/org/example/EmailReader.java:128-131 | A multipart without parts fails: `getBodyPart(count - 1)` has no part to return. |
| MimeContent.OnlyLastPartMatters | src/main/java/org/example/EmailReader.java:128-142 | Two multiparts with the same last part flatten alike, whatever parts precede it; the result is that last part's contribution. |
| MimeContent.LastLeafCases | src/main/java/org/example/EmailReader.java:132-139 | A last text/plain or text/html part is returned verbatim; a last leaf of any other type contributes the empty string. |
| MimeContent.NestedLastPartRecurses | src/main/java/org/example/EmailReader.java:137-138 | A last part that is a multipart is flattened recursively; termination follows from the finite tree. |
| MimeContent.FlattenedTextComesFromTree | src/main/java/org/example/EmailReader.java:126-143 | A successful flattening is empty or is the content of one text leaf of the tree; nothing is invented or combined. |
| MimeContent.FailuresComeFromLastChain | src/main/java/org/example/EmailReader.java:126-143 | A failing flattening reports either the missing last part or a failure thrown by a leaf content read in the tree, unchanged. |
| Mailbox.MailServer.constructor | src/main/java/org/example/EmailReader.java:52-53 | A new session starts with the store disconnected, the folder closed and an empty trace. |
| Mailbox.MailServer.Connect | src/main/java/org/example/EmailReader.java:58-59 | Connecting succeeds or throws as scripted; only success connects the store and records it. |
| Mailbox.MailServer.OpenFolder | src/main/java/org/example/EmailReader.java:62-63 | Opening the folder succeeds or throws as scripted; only success opens it. |
| Mailbox.MailServer.GetMessages | src/main/java/org/example/EmailReader.java:66 | The folder's message listing, or the exception it throws. |
| Mailbox.MailServer.SearchUnseen | src/main/java/org/example/EmailReader.java:211-212 | The messages without the SEEN flag, in search order, or the exception. |
| Mailbox.MailServer.CloseFolder | src/main/java/org/example/EmailReader.java:84-86 | Closing the folder succeeds or throws; only success closes it and records the expunge flag passed. |
| Mailbox.MailServer.CloseStore | src/main/java/org/example/EmailReader.java:87-89 | Closing the store succeeds or throws; only success disconnects it. |
| EmailReader.CleanupEvents | src/main/java/org/example/EmailReader.java:81-93 | What the `finally` block does: FolderClosed(false) if the folder is open, then StoreClosed if the store is connected and closes; nothing when the folder close throws. See `CleanupOrder`. |
| EmailReader.AfterCleanup | src/main/java/org/example/EmailReader.java:81-93 | What is still held after the `finally` block. See `CleanupReleasesEverything` and `FolderCloseFailureSkipsStoreClose`. |
| EmailReader.LatestEmail | src/main/java/org/example/EmailReader.java:56-80 | The result of `getLatestEmail`: the connect or open exception, null for an empty listing, or the copy of the last message. See `LatestIsLastOfListing`. |
| EmailReader.UnreadMessages | src/main/java/org/example/EmailReader.java:201-221 | The result of `getUnreadMessages`: the connect, open or search exception, or the copies of the unseen messages. See `UnreadInSearchOrder`. |
| EmailReader.CloseResources | src/main/java/org/example/EmailReader.java:81-93 | The `finally` block closes the folder without expunge if it is open, then the store if it is connected; a failing folder close skips the store close. The state and trace after it are those of `CleanupEvents` and `AfterCleanup`. |
| EmailReader.GetLatestEmail | src/main/java/org/example/EmailReader.java:33-96 | The result is `LatestEmail` of the script, the trace is the opening events then the cleanup events, and the resources left are those after cleanup on every exit path. |
| EmailReader.CopyAll | src/main/java/org/example/EmailReader.java:215-217 | Copying succeeds exactly when every copy does; it then has the same length and order as the input, each element the copy of the original at that index. Otherwise it reports the first failing copy. |
| EmailReader.GetUnreadMessages | src/main/java/org/example/EmailReader.java:179-237 | The loop appends one copy per search result in order and stops at the first failing copy. The result is `UnreadMessages` of the script, with the same trace and cleanup guarantees as the latest-email fetch. |
| EmailReader.CopyAllFailureStays | src/main/java/org/example/EmailReader.java:215-217 | Once copying a prefix fails, copying the whole sequence fails with the same exception. |
| EmailReader.LatestIsLastOfListing | src/main/java/org/example/EmailReader.java:66-76 | An empty listing gives null; otherwise the result is the copy of the final element of the listing, with no re-sorting. |
| EmailReader.UnreadInSearchOrder | src/main/java/org/example/EmailReader.java:211-217 | The unread list has one copy per search result, same length, same order; it succeeds exactly when every copy succeeds. |
| EmailReader.CleanupNeverMasksResult | src/main/java/org/example/EmailReader.java:83-92 | Whatever the folder and store closes do, the result of both fetches is the same: a close exception is swallowed. |
| EmailReader.CleanupReleasesEverything | src/main/java/org/example/EmailReader.java:78-93 | When both closes succeed, every exit path (return, empty folder, rethrown exception) leaves the folder closed and the store disconnected. |
| EmailReader.FolderCloseFailureSkipsStoreClose | src/main/java/org/example/EmailReader.java:83-92 | When the open folder fails to close, the store stays connected and is never closed. |
| EmailReader.CleanupOrder | src/main/java/org/example/EmailReader.java:84-89 | The folder is never expunged and is closed before the store. The folder is closed exactly when connecting, opening and closing it all succeed. |
| EmailReader.DisplayedReferences | src/main/java/org/example/EmailReader.java:156-163 | The References line of `displayEmailInfo`, with a null Message-ID rendered as "null"; related to the reply rule by `DisplaySharesReplyRule`. |
| EmailReader.DisplaySharesReplyRule | src/main/java/org/example/EmailReader.java:156-163 | The References line of `displayEmailInfo` equals the reply's References for a present Message-ID; with a null id it is absent without a header, else ends in "null". |
| Threading.ReferencesHeader | src/main/java/org/example/EmailReply.java:75 | `getHeader("References", " ")`: the values joined by single spaces, or null without a header. |
| Threading.References | src/main/java/org/example/EmailReply.java:75-80 | The References value of the reply: the id alone without a header, else the header, a space and the id. See the lemmas below. |
| Threading.ThreadingHeaders | src/main/java/org/example/EmailReply.java:70-82 | The headers set for threading: none without a Message-ID, else In-Reply-To and References. See `ThreadingHeadersRule`. |
| Threading.ReferencesIsChain | src/main/java/org/example/EmailReply.java:75-80 | References is the existing values in order, then the Message-ID, joined by single spaces; nothing is reordered or removed. |
| Threading.ReferencesEndsWithId | src/main/java/org/example/EmailReply.java:75-80 | References ends with the Message-ID. With an existing header it starts with that header and a space; without one it is the id alone. |
| Threading.EmptyHeaderValueKept | src/main/java/org/example/EmailReply.java:76-79 | Only null is tested, so an existing empty value yields `" " + id`. |
| Threading.ReferencesTokens | src/main/java/org/example/EmailReply.java:75-80 | When no identifier contains a space, splitting References at spaces gives the earlier identifiers followed by the Message-ID. |
| Threading.ThreadingHeadersRule | src/main/java/org/example/EmailReply.java:69-82 | Without a Message-ID no threading header is set. With one, exactly In-Reply-To (the id itself) and References are set. |
| EmailReply.Recipients | src/main/java/org/example/EmailReply.java:54-57 | Reply-To when it is non-empty, else From. See `ReplyEnvelope`. |
| EmailReply.ReplySubject | src/main/java/org/example/EmailReply.java:63-66 | "Re: " in front unless the lower-cased subject starts with "re:". See `ReplySubjectRule` and `ReplySubjectIdempotent`. |
| EmailReply.ReplyText | src/main/java/org/example/EmailReply.java:88-102 | The reply body: the caller text, the separator, the quoted header and the content, or the IOException note; a missing sender or any other failure is an error. See `QuotedBodyLayout`. |
| EmailReply.ComposeReply | src/main/java/org/example/EmailReply.java:51-105 | The message handed to `Transport.send`, or the exception raised before it: a null subject, then the body failures. See `ReplyEnvelope`. |
| EmailReply.Transport.constructor | src/main/java/org/example/EmailReply.java:108 | A transport starts with an empty outbox and a scripted answer to `send`. |
| EmailReply.Transport.Send | src/main/java/org/example/EmailReply.java:108 | Sending either delivers the message to the outbox or throws, as scripted. |
| EmailReply.ReplyToMessage | src/main/java/org/example/EmailReply.java:30-111 | The result and the outbox are those of composing the reply and sending it. A null subject, a missing sender or a non-IO content failure stops before sending. |
| EmailReply.ReplyToLatestEmail | src/main/java/org/example/EmailReply.java:127-143 | A failed fetch rethrows and sends nothing; an empty folder returns normally and sends nothing; otherwise the latest message is answered. The session trace and the store and folder left held after the call are those `getLatestEmail` leaves. |
| EmailReply.ReplySubjectRule | src/main/java/org/example/EmailReply.java:63-67 | The subject is unchanged exactly when its lower-case form starts with "re:"; otherwise "Re: " is put in front. |
| EmailReply.ReplySubjectIdempotent | src/main/java/org/example/EmailReply.java:63-67 | Applying the subject rule twice equals applying it once. |
| EmailReply.ReplySubjectExamples | src/main/java/org/example/EmailReply.java:63-67 | "Status update" becomes "Re: Status update"; "RE: Status update" is kept. |
| EmailReply.ReplyEnvelope | src/main/java/org/example/EmailReply.java:54-85 | The reply goes to Reply-To when non-empty, else to From. Its subject follows the rule, its threading headers follow the Message-ID rule and its date is the send time. |
| EmailReply.QuotedBodyLayout | src/main/java/org/example/EmailReply.java:88-99 | The body is the reply text, the separator, From/Date/Subject lines of the original (its own subject, not the prefixed one), a blank line and the flattened content. |
| EmailReply.ContentReadFailureStillReplies | src/main/java/org/example/EmailReply.java:93-102 | An IOException while reading the content keeps the header lines, appends the note and the exception message, and the reply is still composed. |
| EmailReply.OtherFailuresAbort | src/main/java/org/example/EmailReply.java:93-102 | Any other failure of the content read is not caught and no reply is composed. |
| Formatting.FormatReproducesTemplate | src/main/java/org/example/ExtractOTAEmailContentWithOpenAI.java:60-100 | Filling every slot with "%s" gives back the format string: the texts joined by "%s". |
| ChatCompletion.FirstChoice | src/main/java/org/example/ExtractNormalEmailContentWithOpenAI.java:90-110 | The value of the `try` block: the first choice's content on a 2xx response with a body and non-empty choices, otherwise the fallback (a missing message is a swallowed NullPointerException). See `AnsweredExactly`. |
| ChatCompletion.DetailsPrompt | src/main/java/org/example/ExtractOTAEmailContentWithOpenAI.java:60-100 | `String.format` of the booking-site template with sender, subject, date and content. See `DetailsLayout`. |
| ChatCompletion.UserRequest | src/main/java/org/example/ExtractNormalEmailContentWithOpenAI.java:73-95 | The request goes to the chat-completions endpoint with the key as bearer credential, the configured model and exactly one message, of role "user", whose content is the prompt. |
| ChatCompletion.ReadFirstChoice | src/main/java/org/example/ExtractNormalEmailContentWithOpenAI.java:90-110 | The checks and early return of the `try` block compute `FirstChoice` of the outcome. |
| ChatCompletion.AnsweredExactly | src/main/java/org/example/ExtractNormalEmailContentWithOpenAI.java:97-104 | A reply is read exactly when the status is 2xx, the body and choices are present, choices are non-empty and the first has a message; the reply is that message's content. |
| ChatCompletion.LaterChoicesIgnored | src/main/java/org/example/ExtractNormalEmailContentWithOpenAI.java:101-104 | Choices after the first never influence the answer. |
| ChatCompletion.FailuresFallBack | src/main/java/org/example/ExtractNormalEmailContentWithOpenAI.java:97-112 | An exception, a non-2xx status, a null body, or missing or empty choices all lead to the fallback. |
| ChatCompletion.DetailsTemplate | src/main/java/org/example/ExtractOTAEmailContentWithOpenAI.java:60-100 | The booking-site format string is well formed for the four arguments `String.format` receives: five literal texts around four `%s` slots, as `Format` requires. |
| ChatCompletion.DetailsLayout | src/main/java/org/example/ExtractOTAEmailContentWithOpenAI.java:60-100 | The four arguments land in the From, Subject, Date and Content slots, in that order, each verbatim and once. |
| ExtractNormal.Prompt | src/main/java/org/example/ExtractNormalEmailContentWithOpenAI.java:56-71 | The text-block prompt formatted with the content. See `PromptLayout`. |
| ExtractNormal.Escape | src/main/java/org/example/ExtractNormalEmailContentWithOpenAI.java:115 | The two `replaceAll` passes: quotes first, then line feeds. See `EscapeHead`, `EscapeLength` and `UnescapeEscape`. |
| ExtractNormal.Fallback | src/main/java/org/example/ExtractNormalEmailContentWithOpenAI.java:113-116 | The hand-built `{"content":"%s"}` text with the escaped content. See `ResultCases`. |
| ExtractNormal.ExtractionResult | src/main/java/org/example/ExtractNormalEmailContentWithOpenAI.java:97-116 | The method's result once the `try` block has run: the read reply, else the fallback. See `ResultCases`. |
| ExtractNormal.NormalEmailExtractor.constructor | src/main/java/org/example/ExtractNormalEmailContentWithOpenAI.java:27-37 | The one-argument constructor sets the key and keeps the default model "gpt-3.5-turbo". |
| ExtractNormal.NormalEmailExtractor.WithModel | src/main/java/org/example/ExtractNormalEmailContentWithOpenAI.java:45-48 | The two-argument constructor sets the key and overrides the model. |
| ExtractNormal.NormalEmailExtractor.ExtractContent | src/main/java/org/example/ExtractNormalEmailContentWithOpenAI.java:55-117 | The request sent is the single user message carrying the prompt for the content. The result is the first choice's content when one is read, otherwise the escaped JSON fallback. |
| ExtractNormal.PromptLayout | src/main/java/org/example/ExtractNormalEmailContentWithOpenAI.java:56-71 | The prompt is the fixed text-block head, the content verbatim and once with no escaping, then a line break. |
| ExtractNormal.ResultCases | src/main/java/org/example/ExtractNormalEmailContentWithOpenAI.java:97-116 | A read reply (possibly null) is returned as is; otherwise the result is exactly `{"content":"` + escaped content + `"}`. |
| ExtractNormal.EscapeHead | src/main/java/org/example/ExtractNormalEmailContentWithOpenAI.java:115 | The two `replaceAll` passes together escape character by character: a quote becomes backslash-quote, a line feed becomes backslash-n, anything else stays. |
| ExtractNormal.EscapeAppend | src/main/java/org/example/ExtractNormalEmailContentWithOpenAI.java:115 | Escaping distributes over concatenation. |
| ExtractNormal.EscapeHasNoLineFeed | src/main/java/org/example/ExtractNormalEmailContentWithOpenAI.java:115 | The escaped text contains no line feed. |
| ExtractNormal.EscapeLength | src/main/java/org/example/ExtractNormalEmailContentWithOpenAI.java:115 | The escaped length is the input length plus the number of quotes plus the number of line feeds. |
| ExtractNormal.EscapeKeepsPlainText | src/main/java/org/example/ExtractNormalEmailContentWithOpenAI.java:115 | Text without quotes and line feeds, backslashes and carriage returns included, is left unchanged. |
| ExtractNormal.EscapeConflatesBackslash | src/main/java/org/example/ExtractNormalEmailContentWithOpenAI.java:115 | Backslashes are not escaped, so a literal backslash-n and a line feed escape to the same text. |
| ExtractNormal.UnescapeEscape | src/main/java/org/example/ExtractNormalEmailContentWithOpenAI.java:113-116 | For content without backslashes, decoding the two escapes gives the content back. |
| ExtractOta.Prompt | src/main/java/org/example/ExtractOTAEmailContentWithOpenAI.java:60-100 | The booking-site prompt with the "BookingID or Property ID" field. See `ExtractOta.PromptLayout`. |
| ExtractOta.OtaEmailExtractor.constructor | src/main/java/org/example/ExtractOTAEmailContentWithOpenAI.java:27-37 | The key is set and the model keeps the default "gpt-3.5-turbo". |
| ExtractOta.OtaEmailExtractor.WithModel | src/main/java/org/example/ExtractOTAEmailContentWithOpenAI.java:45-48 | The two-argument constructor overrides the model. |
| ExtractOta.OtaEmailExtractor.ExtractContent | src/main/java/org/example/ExtractOTAEmailContentWithOpenAI.java:59-142 | The request sent is the single user message carrying the four-field prompt. The result is the first choice's content when one is read, otherwise null. |
| ExtractOta.PromptLayout | src/main/java/org/example/ExtractOTAEmailContentWithOpenAI.java:60-100 | The field list includes "- BookingID or Property ID (if present)". Sender, subject, rendered date and content fill the From, Subject, Date and Content slots, verbatim. |
| ExtractOta.ExtractionResult | src/main/java/org/example/ExtractOTAEmailContentWithOpenAI.java:134-141 | No reply read gives null; a read reply is returned as is. |
| ExtractExpedia.Prompt | src/main/java/org/example/ExpediaEmailContentWithOpenAI.java:60-100 | The booking-site prompt with the "PropertyID" field. See `ExtractExpedia.PromptLayout`. |
| ExtractExpedia.ExpediaEmailExtractor.constructor | src/main/java/org/example/ExpediaEmailContentWithOpenAI.java:27-37 | The key is set and the model keeps the default "gpt-3.5-turbo". |
| ExtractExpedia.ExpediaEmailExtractor.WithModel | src/main/java/org/example/ExpediaEmailContentWithOpenAI.java:45-48 | The two-argument constructor overrides the model. |
| ExtractExpedia.ExpediaEmailExtractor.ExtractContent | src/main/java/org/example/ExpediaEmailContentWithOpenAI.java:59-142 | The request sent is the single user message carrying the four-field prompt. The result is the first choice's content when one is read, otherwise null. |
| ExtractExpedia.PromptLayout | src/main/java/org/example/ExpediaEmailContentWithOpenAI.java:60-100 | The field list includes "- PropertyID (if present)". Sender, subject, rendered date and content fill their slots, verbatim. |
| ExtractExpedia.ExtractionResult | src/main/java/org/example/ExpediaEmailContentWithOpenAI.java:134-141 | No reply read gives null; a read reply is returned as is. |
| ThaiPrefix.StripThaiPrefix | src/main/java/org/example/TestThaiPrefixRemoval.java:44-53 | The fallback clean-up: cut through the first ": " of a non-null, single-line, Thai-initial text whose separator index is positive; otherwise unchanged. See the lemmas below. |
| ThaiPrefix.UnchangedCases | src/main/java/org/example/TestThaiPrefixRemoval.java:44-53 | The text is left unchanged if it is null or has no ": ", if its first character is outside U+0E00 to U+0E7F, or if it contains a line terminator. |
| ThaiPrefix.SeparatorNotFirst | src/main/java/org/example/TestThaiPrefixRemoval.java:47-49 | On a text that starts with a Thai character, ": " never starts at index 0, so the `colonIndex > 0` test always passes. |
| ThaiPrefix.StripsAtFirstSeparator | src/main/java/org/example/TestThaiPrefixRemoval.java:46-51 | On a single Thai-initial line, the result is the suffix after the first ": ". The index is positive, and the result is shorter by index + 2. |
| ThaiPrefix.ChangedOnlyByStripping | src/main/java/org/example/TestThaiPrefixRemoval.java:46-53 | Whenever the text changes, it was a Thai-initial line and lost exactly the prefix through its first ": ". |
| ThaiPrefix.LaterSeparatorsKept | src/main/java/org/example/TestThaiPrefixRemoval.java:48-51 | Later ": " occurrences remain in the result, shifted by the removed prefix. |
| ThaiPrefix.StripsSenderPrefix | src/main/java/org/example/TestThaiPrefixRemoval.java:46-51 | A one-line sender prefix that starts with a Thai character and has no colon is removed together with ": ", leaving exactly the message. |
| ThaiPrefix.SampleStripped | src/main/java/org/example/TestThaiPrefixRemoval.java:32-51 | The sample notification becomes "Chat test from BDC5". |
| Strings.IndexOf | src/main/java/org/example/TestThaiPrefixRemoval.java:48 | `indexOf` gives the first index where the pattern occurs, with no earlier occurrence, or -1 when it occurs nowhere. |
| Strings.SplitJoin | src/main/java/org/example/EmailReply.java:75 | Splitting a joined header at the separator recovers the parts when none contains it. |
| Strings.ReplaceCharLength | src/main/java/org/example/ExtractNormalEmailContentWithOpenAI.java:115 | Replacing a character by two characters adds one per occurrence. |
| Strings.ReplaceCharKeepsCount | src/main/java/org/example/ExtractNormalEmailContentWithOpenAI.java:115 | A replacement that neither removes nor inserts a character keeps that character's count, which the second pass relies on. |

## Left out

- IMAP and SMTP sessions, properties and authenticators are not modelled. Neither are the search semantics of IMAP flags or sending itself. These are network protocols; `MailServer` and `Transport` are scripted collaborators instead.
- The HTTP call, JSON serialisation of the request and decoding of the response map are left out; both are a foreign library. The outcome is the `HttpOutcome` value, and a ClassCastException from an unexpected response shape is not modelled.
- What the chat model answers, and whether its reply is valid JSON, is left out. The code never checks it.
- `loadEnvFile`, every `main` method, console and SLF4J logging, and the sample HTML literals are file I/O and demo code.
- `EmailReader.closeConnection` (EmailReader.java:244-252) is not modelled. No modelled operation calls it.
- `EmailSender.java` is not part of this model. It is SMTP sending with file attachments and no logic of its own.
- `Date.toString`, `InternetAddress.toString` and the `MimeMessage` copy constructor are library formatting. They appear as opaque strings, as `MailMessage` values, or as a copy that succeeds or throws.
- `isMimeType` parameter parsing is not modelled: a leaf's media type is given as text/plain, text/html or other.
- `new InternetAddress(from)` is not modelled. An AddressException for a malformed sender address cannot occur in the model.
- EmailReply.ReplyText: a null From array (NullPointerException) and an empty one (ArrayIndexOutOfBoundsException) both appear as the one failure `NoSender`; the exception class is not distinguished, because a message without From addresses is `from == []` either way.
- EmailReply.ReplySubjectRule: lower-casing covers ASCII letters only. Locale-specific and non-ASCII case mappings of `toLowerCase` are not modelled.
- Formatting.Format: a format string is given by its literal texts around the `%s` slots. Other conversions, `%%` and their exceptions are not modelled. No modelled template contains a `%` outside its slots.
- The extractors take non-null strings for subject, content and sender. A null there would print "null" in the prompt, and in the ordinary extractor's fallback would throw; this is not modelled. A null received date is modelled, and prints "null".
- The folder name given to `getFolder` and the connection parameters are not modelled; they only address the server.
- String indices are counted in characters (code points). Java counts UTF-16 units, which differ only for characters outside the Basic Multilingual Plane. The stripped text is the same; only the index value would differ.
