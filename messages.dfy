/** The fields of a `jakarta.mail` message that the core reads. */
module Messages {
  import opened Wrappers
  import opened MimeContent

  /** An address as its `toString()` renders it. */
  type Address = string

  /** A detached copy of a fetched message.
      `from` and `replyTo` are the address arrays, where the empty sequence stands for
      both `null` and an empty array (the core treats the two alike, except that
      `from[0]` fails on either); `references` holds the values of the References
      header, none when `getHeader("References", " ")` returns null; `sentDate` is
      `getSentDate()` as `Date.toString()` renders it. */
  datatype MailMessage = MailMessage(
    subject: Option<string>,
    from: seq<Address>,
    replyTo: seq<Address>,
    sentDate: Option<string>,
    messageId: Option<string>,
    references: seq<string>,
    content: Content)
}
