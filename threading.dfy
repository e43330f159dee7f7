/** The References rule shared by `EmailReply.replyToMessage` and
    `EmailReader.displayEmailInfo`, and the threading headers of a reply. */
module Threading {
  import opened Wrappers
  import opened Strings

  /** `getHeader("References", " ")`: all values of the header joined with single
      spaces, or null when the message has none. */
  function ReferencesHeader(values: seq<string>): Option<string>
  {
    if |values| == 0 then None else Some(Join(values, " "))
  }

  /** The References value of a reply to a message with Message-ID `messageId`: the
      existing header, a space and the id; the id alone when there is no header. */
  function References(values: seq<string>, messageId: string): string
  {
    match ReferencesHeader(values)
    case None => messageId
    case Some(existing) => existing + " " + messageId
  }

  /** The headers `replyToMessage` sets for threading: none without a Message-ID,
      otherwise In-Reply-To and References. */
  function ThreadingHeaders(messageId: Option<string>, values: seq<string>): map<string, string>
  {
    match messageId
    case None => map[]
    case Some(id) => map["In-Reply-To" := id, "References" := References(values, id)]
  }

  /** References is the whole chain, joined: the existing values in their order, then
      the id; nothing is reordered or removed. */
  lemma ReferencesIsChain(values: seq<string>, messageId: string)
    ensures References(values, messageId) == Join(values + [messageId], " ")
  {
    if |values| > 0 {
      JoinSnoc(values, messageId, " ");
    }
  }

  /** References always ends with the id; with a header it starts with the header. */
  lemma ReferencesEndsWithId(values: seq<string>, messageId: string)
    ensures EndsWith(References(values, messageId), messageId)
    ensures |values| > 0 ==> StartsWith(References(values, messageId), Join(values, " ") + " ")
    ensures |values| == 0 ==> References(values, messageId) == messageId
  {
    var r := References(values, messageId);
    assert r[|r| - |messageId|..] == messageId;
    if |values| > 0 {
      assert r[..|Join(values, " ") + " "|] == Join(values, " ") + " ";
    }
  }

  /** Only null is tested: a header whose single value is empty still yields a space
      before the id. */
  lemma EmptyHeaderValueKept(messageId: string)
    ensures References([""], messageId) == " " + messageId
  {
  }

  /** When no identifier contains a space, splitting References at spaces gives back
      the earlier identifiers in order followed by the id. */
  lemma ReferencesTokens(values: seq<string>, messageId: string)
    requires forall i :: 0 <= i < |values| ==> ' ' !in values[i]
    requires ' ' !in messageId
    ensures Split(References(values, messageId), ' ') == values + [messageId]
  {
    ReferencesIsChain(values, messageId);
    var chain := values + [messageId];
    assert forall i :: 0 <= i < |chain| ==> ' ' !in chain[i] by {
      forall i | 0 <= i < |chain| ensures ' ' !in chain[i] {
        if i < |values| { assert chain[i] == values[i]; }
      }
    }
    SplitJoin(chain, ' ');
  }

  /** Without a Message-ID neither header is set; with one, In-Reply-To is exactly
      the id and References follows the rule above. */
  lemma ThreadingHeadersRule(messageId: Option<string>, values: seq<string>)
    ensures messageId.None? ==> ThreadingHeaders(messageId, values) == map[]
    ensures messageId.Some? ==>
              && ThreadingHeaders(messageId, values).Keys == {"In-Reply-To", "References"}
              && ThreadingHeaders(messageId, values)["In-Reply-To"] == messageId.value
              && ThreadingHeaders(messageId, values)["References"]
                 == Join(values + [messageId.value], " ")
  {
    if messageId.Some? {
      ReferencesIsChain(values, messageId.value);
    }
  }
}
