/** Flattening of a message body to text, as `EmailReader.getMessageContent` and
    `EmailReader.getTextFromMimeMultipart` do it: a type dispatch on the top-level
    content and, for a multipart, a recursive look at its LAST part only. */
module MimeContent {
  import opened Wrappers

  /** The media types the extraction tells apart with `isMimeType`. */
  datatype MediaType = TextPlain | TextHtml | OtherType(name: string)

  /** A `MimeMultipart`: its body parts in document order. */
  datatype Multipart = Multipart(parts: seq<BodyPart>)

  /** A body part: a leaf whose `getContent()` yields its text (or throws), or a part
      whose content is itself a multipart. */
  datatype BodyPart =
    | Leaf(mediaType: MediaType, content: Result<string>)
    | Nested(multipart: Multipart)

  /** What `Message.getContent()` returns: a String, a multipart, an object of some
      other class (named by its class name), or the exception it throws. */
  datatype Content =
    | Str(s: string)
    | Multi(multipart: Multipart)
    | Other(className: string)
    | Unreadable(failure: Failure)

  /** The exception `getBodyPart(count - 1)` throws on a multipart with no parts. */
  const NoSuchBodyPart := RuntimeException("IndexOutOfBoundsException")

  const UnsupportedPrefix := "Content type not supported: "

  /** `getMessageContent`. */
  function MessageContent(c: Content): Result<string>
  {
    match c
    case Str(s) => Ok(s)
    case Multi(m) => MultipartText(m)
    case Other(name) => Ok(UnsupportedPrefix + name)
    case Unreadable(f) => Err(f)
  }

  /** `getTextFromMimeMultipart`: only the part at index `count - 1` is looked at. */
  function MultipartText(m: Multipart): Result<string>
    decreases m
  {
    if |m.parts| == 0 then Err(NoSuchBodyPart) else PartText(m.parts[|m.parts| - 1])
  }

  /** The contribution of the last part: text leaves verbatim, a nested multipart
      recursively, and nothing for any other leaf (whose content is still read). */
  function PartText(p: BodyPart): Result<string>
    decreases p
  {
    match p
    case Leaf(TextPlain, content) => content
    case Leaf(TextHtml, content) => content
    case Leaf(OtherType(_), content) => if content.Ok? then Ok("") else Err(content.failure)
    case Nested(m) => MultipartText(m)
  }

  /** A String content is returned unchanged. */
  lemma StringContentUnchanged(s: string)
    ensures MessageContent(Str(s)) == Ok(s)
  {
  }

  /** Content of any other class yields the fixed notice followed by the class name. */
  lemma UnsupportedContentNotice(name: string)
    ensures MessageContent(Other(name)) == Ok("Content type not supported: " + name)
    ensures MessageContent(Other(name)).value[..|UnsupportedPrefix|] == UnsupportedPrefix
  {
  }

  /** A multipart without parts makes the extraction fail. */
  lemma EmptyMultipartFails()
    ensures MessageContent(Multi(Multipart([]))) == Err(RuntimeException("IndexOutOfBoundsException"))
  {
  }

  /** Only the last part contributes: two multiparts with the same last part flatten
      alike, whatever precedes it. */
  lemma OnlyLastPartMatters(earlier: seq<BodyPart>, other: seq<BodyPart>, last: BodyPart)
    ensures MultipartText(Multipart(earlier + [last])) == MultipartText(Multipart(other + [last]))
    ensures MultipartText(Multipart(earlier + [last])) == PartText(last)
  {
  }

  /** A last part of type text/plain or text/html is returned verbatim; a last leaf of
      any other type contributes the empty string. */
  lemma LastLeafCases(earlier: seq<BodyPart>, t: MediaType, text: string)
    ensures t.TextPlain? || t.TextHtml? ==>
              MultipartText(Multipart(earlier + [Leaf(t, Ok(text))])) == Ok(text)
    ensures t.OtherType? ==> MultipartText(Multipart(earlier + [Leaf(t, Ok(text))])) == Ok("")
  {
  }

  /** A last part that is itself a multipart is flattened recursively. */
  lemma NestedLastPartRecurses(earlier: seq<BodyPart>, inner: Multipart)
    ensures MultipartText(Multipart(earlier + [Nested(inner)])) == MultipartText(inner)
  {
  }

  /** `s` is the content of a text/plain or text/html leaf somewhere in the tree. */
  ghost predicate TextLeafIn(s: string, m: Multipart)
    decreases m
  {
    exists i :: 0 <= i < |m.parts| && TextLeafInPart(s, m.parts[i])
  }

  ghost predicate TextLeafInPart(s: string, p: BodyPart)
    decreases p
  {
    match p
    case Leaf(t, content) => (t.TextPlain? || t.TextHtml?) && content == Ok(s)
    case Nested(m) => TextLeafIn(s, m)
  }

  /** The flattened text of a multipart invents nothing: it is empty or it is the
      content of one of the tree's text leaves. */
  lemma {:induction false} FlattenedTextComesFromTree(m: Multipart)
    requires MultipartText(m).Ok?
    ensures MultipartText(m).value == "" || TextLeafIn(MultipartText(m).value, m)
    decreases m
  {
    var last := m.parts[|m.parts| - 1];
    match last
    case Leaf(t, content) =>
      if t.TextPlain? || t.TextHtml? {
        assert TextLeafInPart(content.value, last);
      }
    case Nested(inner) =>
      FlattenedTextComesFromTree(inner);
      if MultipartText(inner).value != "" {
        assert TextLeafInPart(MultipartText(inner).value, last);
      }
  }

  /** A failure in a leaf's content read propagates unchanged out of the extraction;
      no other failure than that read or an empty multipart can occur. */
  lemma {:induction false} FailuresComeFromLastChain(m: Multipart)
    requires MultipartText(m).Err?
    ensures MultipartText(m).failure == NoSuchBodyPart
         || exists i :: 0 <= i < |m.parts| && LeafFailureIn(MultipartText(m).failure, m.parts[i])
    decreases m
  {
    if |m.parts| > 0 {
      var last := m.parts[|m.parts| - 1];
      match last
      case Leaf(t, content) =>
        assert LeafFailureIn(MultipartText(m).failure, last);
      case Nested(inner) =>
        FailuresComeFromLastChain(inner);
        if MultipartText(inner).failure != NoSuchBodyPart {
          assert LeafFailureIn(MultipartText(m).failure, last);
        }
    }
  }

  /** `f` is the failure of a leaf content read somewhere in the tree. */
  ghost predicate LeafFailureIn(f: Failure, p: BodyPart)
    decreases p
  {
    match p
    case Leaf(_, content) => content == Err(f)
    case Nested(m) => exists i :: 0 <= i < |m.parts| && LeafFailureIn(f, m.parts[i])
  }
}
