/** The mailbox-access collaborator: an IMAP store and one folder of it, reduced to the
    six primitives `EmailReader` calls. How the server answers each primitive during
    one session is fixed by a script; what the core changes is whether the store is
    connected and the folder open, and the trace of what it did to them. */
module Mailbox {
  import opened Wrappers
  import opened Messages

  /** The server's answer to one primitive: it succeeds, or it throws a
      MessagingException with this message. */
  datatype Step = Done | Fails(message: string)

  function StepFailure(step: Step): Option<Failure>
  {
    match step
    case Done => None
    case Fails(message) => Some(MessagingException(message))
  }

  /** A message as the folder holds it, with the outcome of copying it into a detached
      `MimeMessage` (the copy constructor reads the whole message and may throw). */
  datatype RawMessage = RawMessage(copy: Result<MailMessage>)

  /** The answer to `folder.getMessages()` or to `folder.search(...)`. */
  datatype Listing = Listed(messages: seq<RawMessage>) | ListFails(message: string)

  function ListingResult(listing: Listing): Result<seq<RawMessage>>
  {
    match listing
    case Listed(messages) => Ok(messages)
    case ListFails(message) => Err(MessagingException(message))
  }

  /** How the server answers during one session: connecting the store, getting and
      opening the folder, listing it, searching it for messages without the SEEN flag,
      closing the folder and closing the store. */
  datatype ServerScript = ServerScript(
    connect: Step,
    openFolder: Step,
    listing: Listing,
    unseen: Listing,
    closeFolder: Step,
    closeStore: Step)

  /** What the client did to the store and the folder. */
  datatype Event = StoreConnected | FolderOpened | FolderClosed(expunge: bool) | StoreClosed

  class MailServer {
    const script: ServerScript
    var connected: bool
    var folderOpen: bool
    var trace: seq<Event>

    /** A store freshly obtained from `session.getStore("imap")`. */
    constructor (script: ServerScript)
      ensures this.script == script
      ensures !connected && !folderOpen && trace == []
    {
      this.script := script;
      connected, folderOpen, trace := false, false, [];
    }

    /** `store.connect(host, username, password)`. */
    method Connect() returns (err: Option<Failure>)
      requires !connected
      modifies this
      ensures err == StepFailure(script.connect)
      ensures connected == err.None? && folderOpen == old(folderOpen)
      ensures trace == old(trace) + (if err.None? then [StoreConnected] else [])
    {
      err := StepFailure(script.connect);
      if err.None? {
        connected := true;
        trace := trace + [StoreConnected];
      }
    }

    /** `store.getFolder(folderName)` followed by `folder.open(Folder.READ_ONLY)`. */
    method OpenFolder() returns (err: Option<Failure>)
      requires connected && !folderOpen
      modifies this
      ensures err == StepFailure(script.openFolder)
      ensures folderOpen == err.None? && connected == old(connected)
      ensures trace == old(trace) + (if err.None? then [FolderOpened] else [])
    {
      err := StepFailure(script.openFolder);
      if err.None? {
        folderOpen := true;
        trace := trace + [FolderOpened];
      }
    }

    /** `folder.getMessages()`. */
    method GetMessages() returns (r: Result<seq<RawMessage>>)
      requires folderOpen
      ensures r == ListingResult(script.listing)
    {
      r := ListingResult(script.listing);
    }

    /** `folder.search(new FlagTerm(new Flags(Flags.Flag.SEEN), false))`. */
    method SearchUnseen() returns (r: Result<seq<RawMessage>>)
      requires folderOpen
      ensures r == ListingResult(script.unseen)
    {
      r := ListingResult(script.unseen);
    }

    /** `folder.close(expunge)`. */
    method CloseFolder(expunge: bool) returns (err: Option<Failure>)
      requires folderOpen
      modifies this
      ensures err == StepFailure(script.closeFolder)
      ensures folderOpen == err.Some? && connected == old(connected)
      ensures trace == old(trace) + (if err.None? then [FolderClosed(expunge)] else [])
    {
      err := StepFailure(script.closeFolder);
      if err.None? {
        folderOpen := false;
        trace := trace + [FolderClosed(expunge)];
      }
    }

    /** `store.close()`. */
    method CloseStore() returns (err: Option<Failure>)
      requires connected
      modifies this
      ensures err == StepFailure(script.closeStore)
      ensures connected == err.Some? && folderOpen == old(folderOpen)
      ensures trace == old(trace) + (if err.None? then [StoreClosed] else [])
    {
      err := StepFailure(script.closeStore);
      if err.None? {
        connected := false;
        trace := trace + [StoreClosed];
      }
    }
  }
}
