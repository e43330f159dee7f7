/** `EmailReader`: fetching the latest or the unread messages as detached copies, with
    the `finally` block that releases the folder and the store on every exit path, and
    the References line of `displayEmailInfo`. Flattening of the body is in module
    MimeContent. */
module EmailReader {
  import opened Wrappers
  import opened Strings
  import opened Messages
  import opened Mailbox
  import opened Threading

  /** Whether the store is connected and the folder open. */
  datatype Resources = Resources(connected: bool, folderOpen: bool)

  /** The first failure among connecting and opening the folder, if any. */
  function SessionFailure(s: ServerScript): Option<Failure>
  {
    if s.connect.Fails? then StepFailure(s.connect) else StepFailure(s.openFolder)
  }

  /** The resources held when the `try` block ends, by return or by exception: the
      store stays unconnected if connecting fails, the folder closed if opening fails. */
  function AfterTry(s: ServerScript): Resources
  {
    Resources(s.connect.Done?, s.connect.Done? && s.openFolder.Done?)
  }

  /** The events of the `try` block. */
  function OpeningEvents(s: ServerScript): seq<Event>
  {
    if s.connect.Fails? then []
    else if s.openFolder.Fails? then [StoreConnected]
    else [StoreConnected, FolderOpened]
  }

  /** The events of the `finally` block: close the folder without expunging if it is
      open, then close the store if it is connected; a failing folder close jumps to
      the catch clause and skips the store close. */
  function CleanupEvents(s: ServerScript, held: Resources): seq<Event>
  {
    if held.folderOpen && s.closeFolder.Fails? then []
    else
      (if held.folderOpen then [FolderClosed(false)] else [])
      + (if held.connected && s.closeStore.Done? then [StoreClosed] else [])
  }

  /** The resources still held after the `finally` block. */
  function AfterCleanup(s: ServerScript, held: Resources): Resources
  {
    if held.folderOpen && s.closeFolder.Fails? then held
    else Resources(held.connected && s.closeStore.Fails?, false)
  }

  /** Everything one fetch does to the store and the folder. */
  function SessionTrace(s: ServerScript): seq<Event>
  {
    OpeningEvents(s) + CleanupEvents(s, AfterTry(s))
  }

  /** The result of `getLatestEmail`: a copy of the last message of the listing, null
      for an empty folder, or the MessagingException that is rethrown. */
  function LatestEmail(s: ServerScript): Result<Option<MailMessage>>
  {
    match SessionFailure(s)
    case Some(f) => Err(f)
    case None =>
      match ListingResult(s.listing)
      case Err(f) => Err(f)
      case Ok(messages) =>
        if |messages| == 0 then Ok(None)
        else
          match messages[|messages| - 1].copy
          case Ok(m) => Ok(Some(m))
          case Err(f) => Err(f)
  }

  /** Copying every message in order; the first failing copy ends the copying. */
  function CopyAll(messages: seq<RawMessage>): (r: Result<seq<MailMessage>>)
    ensures r.Ok? <==> forall i :: 0 <= i < |messages| ==> messages[i].copy.Ok?
    ensures r.Ok? ==> |r.value| == |messages|
                      && forall i :: 0 <= i < |messages| ==> messages[i].copy == Ok(r.value[i])
    ensures r.Err? ==> exists i :: 0 <= i < |messages| && messages[i].copy == Err(r.failure)
                                    && forall j :: 0 <= j < i ==> messages[j].copy.Ok?
  {
    if |messages| == 0 then Ok([])
    else
      var init, last := messages[..|messages| - 1], messages[|messages| - 1];
      assert forall i :: 0 <= i < |init| ==> init[i] == messages[i];
      match CopyAll(init)
      case Err(f) => Err(f)
      case Ok(copies) =>
        match last.copy
        case Err(f) => Err(f)
        case Ok(m) => Ok(copies + [m])
  }

  /** The result of `getUnreadMessages`. */
  function UnreadMessages(s: ServerScript): Result<seq<MailMessage>>
  {
    match SessionFailure(s)
    case Some(f) => Err(f)
    case None =>
      match ListingResult(s.unseen)
      case Err(f) => Err(f)
      case Ok(messages) => CopyAll(messages)
  }

  /** The `finally` block of both fetch methods. */
  method CloseResources(server: MailServer)
    modifies server
    ensures server.trace
         == old(server.trace) + CleanupEvents(server.script, Resources(old(server.connected), old(server.folderOpen)))
    ensures Resources(server.connected, server.folderOpen)
         == AfterCleanup(server.script, Resources(old(server.connected), old(server.folderOpen)))
  {
    var err: Option<Failure> := None;
    if server.folderOpen {
      err := server.CloseFolder(false);
    }
    if err.None? && server.connected {
      err := server.CloseStore();
    }
    // A close failure is only reported on the console.
  }

  /** `getLatestEmail`. */
  method GetLatestEmail(server: MailServer) returns (r: Result<Option<MailMessage>>)
    requires !server.connected && !server.folderOpen
    modifies server
    ensures r == LatestEmail(server.script)
    ensures server.trace == old(server.trace) + SessionTrace(server.script)
    ensures Resources(server.connected, server.folderOpen)
         == AfterCleanup(server.script, AfterTry(server.script))
  {
    var primary: Result<Option<MailMessage>>;
    var err := server.Connect();
    if err.Some? {
      primary := Err(err.value);
    } else {
      err := server.OpenFolder();
      if err.Some? {
        primary := Err(err.value);
      } else {
        var listed := server.GetMessages();
        if listed.Err? {
          primary := Err(listed.failure);
        } else if |listed.value| == 0 {
          primary := Ok(None);
        } else {
          var original := listed.value[|listed.value| - 1];
          primary := if original.copy.Ok? then Ok(Some(original.copy.value)) else Err(original.copy.failure);
        }
      }
    }
    CloseResources(server);
    r := primary;
  }

  /** `getUnreadMessages`: one copy per search result, appended in search order. */
  method GetUnreadMessages(server: MailServer) returns (r: Result<seq<MailMessage>>)
    requires !server.connected && !server.folderOpen
    modifies server
    ensures r == UnreadMessages(server.script)
    ensures server.trace == old(server.trace) + SessionTrace(server.script)
    ensures Resources(server.connected, server.folderOpen)
         == AfterCleanup(server.script, AfterTry(server.script))
  {
    var primary: Result<seq<MailMessage>>;
    var err := server.Connect();
    if err.Some? {
      primary := Err(err.value);
    } else {
      err := server.OpenFolder();
      if err.Some? {
        primary := Err(err.value);
      } else {
        var found := server.SearchUnseen();
        if found.Err? {
          primary := Err(found.failure);
        } else {
          var messages := found.value;
          var unread: seq<MailMessage> := [];
          var i := 0;
          while i < |messages|
            invariant 0 <= i <= |messages|
            invariant CopyAll(messages[..i]) == Ok(unread)
          {
            assert messages[..i + 1][..i] == messages[..i];
            if messages[i].copy.Err? {
              break;
            }
            unread := unread + [messages[i].copy.value];
            i := i + 1;
          }
          if i < |messages| {
            primary := Err(messages[i].copy.failure);
            assert CopyAll(messages[..i + 1]) == primary;
            CopyAllFailureStays(messages, i + 1);
          } else {
            assert messages[..i] == messages;
            primary := Ok(unread);
          }
        }
      }
    }
    CloseResources(server);
    r := primary;
  }

  /** Once copying a prefix fails, copying the whole sequence fails the same way. */
  lemma {:induction false} CopyAllFailureStays(messages: seq<RawMessage>, n: nat)
    requires n <= |messages|
    requires CopyAll(messages[..n]).Err?
    ensures CopyAll(messages) == CopyAll(messages[..n])
    decreases |messages| - n
  {
    if n == |messages| {
      assert messages[..n] == messages;
    } else {
      assert messages[..n + 1][..n] == messages[..n];
      CopyAllFailureStays(messages, n + 1);
    }
  }

  /** The latest email is the last element of the listing, unsorted; an empty listing
      gives null. */
  lemma LatestIsLastOfListing(s: ServerScript)
    requires s.connect.Done? && s.openFolder.Done? && s.listing.Listed?
    ensures |s.listing.messages| == 0 ==> LatestEmail(s) == Ok(None)
    ensures |s.listing.messages| > 0 ==>
              var last := s.listing.messages[|s.listing.messages| - 1];
              LatestEmail(s) == if last.copy.Ok? then Ok(Some(last.copy.value)) else Err(last.copy.failure)
  {
  }

  /** The unread messages are the search results copied one for one, same length, same
      order; a failing copy rethrows its exception. */
  lemma UnreadInSearchOrder(s: ServerScript)
    requires s.connect.Done? && s.openFolder.Done? && s.unseen.Listed?
    ensures UnreadMessages(s).Ok? ==>
              |UnreadMessages(s).value| == |s.unseen.messages|
              && forall i :: 0 <= i < |s.unseen.messages| ==>
                   s.unseen.messages[i].copy == Ok(UnreadMessages(s).value[i])
    ensures UnreadMessages(s).Ok? <==> forall i :: 0 <= i < |s.unseen.messages| ==> s.unseen.messages[i].copy.Ok?
  {
  }

  /** A failure to close the folder or the store never changes the result. */
  lemma CleanupNeverMasksResult(s: ServerScript, closeFolder: Step, closeStore: Step)
    ensures LatestEmail(s.(closeFolder := closeFolder, closeStore := closeStore)) == LatestEmail(s)
    ensures UnreadMessages(s.(closeFolder := closeFolder, closeStore := closeStore)) == UnreadMessages(s)
  {
  }

  /** When both closes succeed, every exit path leaves the folder closed and the store
      disconnected. */
  lemma CleanupReleasesEverything(s: ServerScript)
    requires s.closeFolder.Done? && s.closeStore.Done?
    ensures AfterCleanup(s, AfterTry(s)) == Resources(false, false)
  {
  }

  /** When the folder was opened and closing it fails, the store close is skipped: both
      stay held and no StoreClosed event happens. */
  lemma FolderCloseFailureSkipsStoreClose(s: ServerScript)
    requires s.connect.Done? && s.openFolder.Done? && s.closeFolder.Fails?
    ensures AfterCleanup(s, AfterTry(s)) == Resources(true, true)
    ensures StoreClosed !in SessionTrace(s)
  {
  }

  /** The folder is never expunged, and it is closed before the store. */
  lemma CleanupOrder(s: ServerScript)
    ensures FolderClosed(true) !in SessionTrace(s)
    ensures forall i, j ::
              (0 <= i < |SessionTrace(s)| && 0 <= j < |SessionTrace(s)|
               && SessionTrace(s)[i] == FolderClosed(false) && SessionTrace(s)[j] == StoreClosed) ==> i < j
    ensures FolderClosed(false) in SessionTrace(s) <==> s.connect.Done? && s.openFolder.Done? && s.closeFolder.Done?
  {
  }

  /** The References line of `displayEmailInfo`: the rule of the reply, except that a
      null Message-ID is concatenated as "null", and stays null without a header. */
  function DisplayedReferences(messageId: Option<string>, values: seq<string>): Option<string>
  {
    match ReferencesHeader(values)
    case None => messageId
    case Some(existing) => Some(existing + " " + Render(messageId))
  }

  /** With a Message-ID the displayed References equal those of a reply. */
  lemma DisplaySharesReplyRule(messageId: string, values: seq<string>)
    ensures DisplayedReferences(Some(messageId), values) == Some(References(values, messageId))
    ensures DisplayedReferences(None, values)
         == if |values| == 0 then None else Some(Join(values, " ") + " " + "null")
  {
  }
}
