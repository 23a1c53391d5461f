/**
 * The chat page: its file picker guard, and `sendMessage`, which shows the
 * user's message, posts the turn, reads the streamed reply line by line,
 * renames the thread when the stream carries a name, and finally shows the
 * model's message. React state and the two storages are fields of one
 * object; the network, the file reader and the clock are parameters.
 */
module ChatPage {
  import opened Wrappers
  import opened Text
  import opened Seqs
  import opened Tables
  import opened Attachment
  import opened ClientTypes
  import opened Framer

  /** 5 MiB, the page's own size limit. */
  const MAX_FILE_BYTES: nat := 5 * 1024 * 1024

  const ACCEPTED_TYPES: seq<string> := ["image/jpg", "image/png", "image/jpeg"]

  const TOO_LARGE_TOAST: string := "The size of the image is too large (max 5MB)"
  const INVALID_TYPE_TOAST: string := "You need to upload a valid Image "

  /** `handleFileSelect`'s checks: `None` accepts the file, otherwise the toast shown. */
  function FileRejection(file: FileInfo): (r: Option<string>)
    ensures r.None? <==> file.size <= MAX_FILE_BYTES && file.mimeType in ACCEPTED_TYPES
    ensures r == Some(TOO_LARGE_TOAST) <==> file.size > MAX_FILE_BYTES
    ensures r == Some(INVALID_TYPE_TOAST) <==> file.size <= MAX_FILE_BYTES && file.mimeType !in ACCEPTED_TYPES
  {
    if file.size > MAX_FILE_BYTES then Some(TOO_LARGE_TOAST)
    else if file.mimeType !in ACCEPTED_TYPES then Some(INVALID_TYPE_TOAST)
    else None
  }

  /**
   * The page accepts exactly the files the handlers' attachment check
   * accepts, and turns away for size exactly those the handlers would
   * answer as too large.
   */
  lemma FileRejectionAgreesWithServer(file: FileInfo)
    ensures FileRejection(file).None? <==> CheckAttachment(SingleFile(file)) == Success(Some(file))
    ensures FileRejection(file) == Some(TOO_LARGE_TOAST) <==> CheckAttachment(SingleFile(file)) == Failure(TooLarge)
    ensures FileRejection(file) == Some(INVALID_TYPE_TOAST)
        <==> CheckAttachment(SingleFile(file)) == Failure(UnsupportedType)
  {
    assert file.mimeType in ACCEPTED_TYPES <==> file.mimeType in ALLOWED_IMAGE_TYPES;
  }

  /** `!message.trim() || !id` fails: there is something to send and a chat to send it to. */
  predicate Sendable(message: string, routeId: Option<string>) {
    !IsBlank(message) && routeId.Some? && routeId.value != ""
  }

  /** `setMessages(prev => prev.some(same id) ? prev : [...prev, m])`. */
  function AppendIfNew(prev: seq<ClientMessage>, m: ClientMessage): (r: seq<ClientMessage>)
    ensures HasId(prev, m.id) ==> r == prev
    ensures !HasId(prev, m.id) ==> r == prev + [m]
  {
    if exists i :: 0 <= i < |prev| && prev[i].id == m.id then prev else prev + [m]
  }

  function MessageIdOf(m: ClientMessage): string {
    m.id
  }

  /** Showing the same message again changes nothing. */
  lemma AppendIfNewIdempotent(prev: seq<ClientMessage>, m: ClientMessage)
    ensures AppendIfNew(AppendIfNew(prev, m), m) == AppendIfNew(prev, m)
  {
    if !HasId(prev, m.id) {
      assert (prev + [m])[|prev|].id == m.id;
    }
  }

  /** Message ids stay distinct, and afterwards the message's id is listed. */
  lemma AppendIfNewKeepsIdsDistinct(prev: seq<ClientMessage>, m: ClientMessage)
    requires DistinctBy(prev, MessageIdOf)
    ensures DistinctBy(AppendIfNew(prev, m), MessageIdOf)
    ensures HasId(AppendIfNew(prev, m), m.id)
  {
    if !HasId(prev, m.id) {
      forall y | y in prev ensures MessageIdOf(y) != MessageIdOf(m) {
        var i :| 0 <= i < |prev| && prev[i] == y;
      }
      AppendDistinct(prev, m, MessageIdOf);
      assert (prev + [m])[|prev|].id == m.id;
    }
  }

  /** `threads.map(t => t.id === id ? {...t, name, isLoading: false} : t)`. */
  function Renamed(threads: seq<Thread>, id: string, name: string): (r: seq<Thread>)
    ensures |r| == |threads|
    ensures forall i :: 0 <= i < |threads| ==>
      r[i] == if threads[i].id == id then threads[i].(name := name, isLoading := Some(false)) else threads[i]
  {
    if |threads| == 0 then []
    else
      [if threads[0].id == id then threads[0].(name := name, isLoading := Some(false)) else threads[0]]
      + Renamed(threads[1..], id, name)
  }

  /** Renaming twice from the same list is renaming once with the later name. */
  lemma RenamedLastWins(threads: seq<Thread>, id: string, first: string, second: string)
    ensures Renamed(Renamed(threads, id, first), id, second) == Renamed(threads, id, second)
  {
  }

  /**
   * Every thread keeps its id and its place; those with the id are renamed
   * and no longer loading; a list without the id comes back unchanged.
   */
  lemma RenamedTouchesOnlyThatThread(threads: seq<Thread>, id: string, name: string)
    ensures forall i :: 0 <= i < |threads| ==> Renamed(threads, id, name)[i].id == threads[i].id
    ensures forall i :: 0 <= i < |threads| && threads[i].id == id ==>
      Renamed(threads, id, name)[i].name == name && Renamed(threads, id, name)[i].isLoading == Some(false)
    ensures (forall t | t in threads :: t.id != id) ==> Renamed(threads, id, name) == threads
  {
    if forall t | t in threads :: t.id != id {
      forall i | 0 <= i < |threads| ensures Renamed(threads, id, name)[i] == threads[i] {
        assert threads[i] in threads;
      }
    }
  }

  /** Fresh ids for one send: the user message, its image, the image's message id, and the reply. */
  datatype ClientIds = ClientIds(userMessage: string, image: string, imageMessage: string, reply: string)

  /**
   * The user message shown: the one the home page handed over in session
   * storage, or else one built from the search text, with the picked
   * image as a data URL when the file reader produced a non-empty one.
   */
  function UserMessageFor(handedOver: Option<ClientMessage>, search: string, image: Option<FileInfo>,
                          dataUrl: string, ids: ClientIds, now: string): (r: ClientMessage)
    ensures handedOver.Some? ==> r == handedOver.value
    ensures handedOver.None? ==> r.id == ids.userMessage && r.role == USER && r.content == search
    ensures handedOver.None? ==> (r.image.Some? <==> image.Some? && dataUrl != "")
    ensures handedOver.None? && r.image.Some? ==> r.image.value.url == dataUrl
  {
    if handedOver.Some? then handedOver.value
    else
      var picture := if image.Some? && dataUrl != "" then Some(ClientImage(ids.image, dataUrl, ids.imageMessage, "", "", now, "")) else None;
      ClientMessage(ids.userMessage, USER, search, now, picture)
  }

  /** The form the page posts: a new chat's first turn, or a turn of an existing chat. */
  datatype Request =
    | CreateChatRequest(id: string, content: string, image: Option<FileInfo>, histories: seq<ClientMessage>, lang: string)
    | AddMessageRequest(chatId: string, content: string, image: Option<FileInfo>, timestamp: string)

  /**
   * The file rebuilt from the handed-over message's image, whose URL is a
   * data URL; `decode` stands for the data-URL match and base64 decoding.
   * There is none without a handed-over image.
   */
  function RebuiltFile(handedOver: Option<ClientMessage>, decode: ClientImage -> Option<FileInfo>): (r: Option<FileInfo>)
    ensures handedOver.None? || handedOver.value.image.None? ==> r.None?
    ensures handedOver.Some? && handedOver.value.image.Some? ==> r == decode(handedOver.value.image.value)
  {
    if handedOver.Some? && handedOver.value.image.Some? then decode(handedOver.value.image.value) else None
  }

  /**
   * A non-empty `currentThreads` hand-over means the chat was just created
   * on the home page, so the turn goes to `createChat`; otherwise to
   * `addMessage`. The image is the picked file, or else the one rebuilt
   * from the handed-over message.
   */
  function RequestFor(routeId: string, message: string, image: Option<FileInfo>, rebuilt: Option<FileInfo>,
                      shown: seq<ClientMessage>, lang: string, currentThreads: Option<string>, now: string): (r: Request)
    ensures r.CreateChatRequest? <==> currentThreads.Some? && currentThreads.value != ""
    ensures r.content == message
    ensures r.image == if image.Some? then image else rebuilt
  {
    var attached := if image.Some? then image else rebuilt;
    if currentThreads.Some? && currentThreads.value != "" then CreateChatRequest(routeId, message, attached, shown, lang)
    else AddMessageRequest(routeId, message, attached, now)
  }

  /**
   * On arrival the page sends the handed-over `currentThreads` text, with
   * no picked file, when that text is non-empty; otherwise it sends nothing.
   */
  function ArrivalMessage(currentThreads: Option<string>): (r: Option<string>)
    ensures r.Some? <==> currentThreads.Some? && currentThreads.value != ""
    ensures r.Some? ==> r == currentThreads
  {
    if currentThreads.Some? && currentThreads.value != "" then currentThreads else None
  }

  class ChatPageState {
    var messages: seq<ClientMessage>
    var currentResponse: string
    var search: string
    var uploadedFile: Option<FileInfo>
    var isPopoverOpen: bool
    var isLoading: bool
    var toast: Option<string>
    /** The thread list in local storage. */
    var threads: seq<Thread>
    /** Session storage `userMessage` and `currentThreads`, left by the home page. */
    var handedOver: Option<ClientMessage>
    var currentThreads: Option<string>
    /** The `:id` of the route. */
    const routeId: Option<string>

    constructor(routeId: Option<string>, threads: seq<Thread>,
                handedOver: Option<ClientMessage>, currentThreads: Option<string>)
      ensures this.routeId == routeId && this.threads == threads
      ensures this.handedOver == handedOver && this.currentThreads == currentThreads
      ensures messages == [] && currentResponse == "" && search == "" && uploadedFile == None
      ensures !isPopoverOpen && !isLoading && toast == None
    {
      this.routeId := routeId;
      this.threads := threads;
      this.handedOver := handedOver;
      this.currentThreads := currentThreads;
      messages := [];
      currentResponse := "";
      search := "";
      uploadedFile := None;
      isPopoverOpen := false;
      isLoading := false;
      toast := None;
    }

    /** `handleFileSelect`: keeps an accepted file, toasts a rejected one, and closes the popover either way. */
    method HandleFileSelect(file: FileInfo)
      modifies this
      ensures uploadedFile == if FileRejection(file).None? then Some(file) else old(uploadedFile)
      ensures toast == if FileRejection(file).Some? then FileRejection(file) else old(toast)
      ensures !isPopoverOpen
      ensures messages == old(messages) && currentResponse == old(currentResponse) && search == old(search)
      ensures isLoading == old(isLoading) && threads == old(threads)
      ensures handedOver == old(handedOver) && currentThreads == old(currentThreads)
    {
      if file.size > MAX_FILE_BYTES {
        toast := Some(TOO_LARGE_TOAST);
        isPopoverOpen := false;
        return;
      }
      if file.mimeType !in ACCEPTED_TYPES {
        toast := Some(INVALID_TYPE_TOAST);
        isPopoverOpen := false;
        return;
      }
      uploadedFile := Some(file);
      isPopoverOpen := false;
    }

    /**
     * `sendMessage`. `dataUrl` is what the file reader gives for `image`,
     * `decode` rebuilds a file from the handed-over message's data URL,
     * `response` the decoded body chunks (`None` when the request fails,
     * answers with an error status or has no body), `parse` stands for
     * `JSON.parse`; `now` is the clock as the send begins and `replyNow`
     * as the reply has been read. Nothing happens without a message or a chat id.
     * Otherwise the user message is shown unless already listed and the
     * form is posted; on failure the page stays loading; on success the
     * reply is read, the thread renamed from the list as it was when the
     * send began (when a line carried a name), the hand-over cleared (when
     * a line was not blank), and the model's message shown.
     */
    method SendMessage(message: string, image: Option<FileInfo>, dataUrl: string, decode: ClientImage -> Option<FileInfo>,
                       ids: ClientIds, now: string, replyNow: string, lang: string,
                       response: Option<seq<string>>, parse: string -> LineParse)
      returns (request: Option<Request>)
      modifies this
      ensures !Sendable(message, routeId) ==>
        && request.None?
        && messages == old(messages) && isLoading == old(isLoading) && currentResponse == old(currentResponse)
        && threads == old(threads) && handedOver == old(handedOver) && currentThreads == old(currentThreads)
      ensures Sendable(message, routeId) ==>
        var shownFirst := AppendIfNew(old(messages), UserMessageFor(old(handedOver), old(search), image, dataUrl, ids, now));
        && request == Some(RequestFor(routeId.value, message, image, RebuiltFile(old(handedOver), decode), old(messages),
                                      lang, old(currentThreads), now))
        && (response.None? ==>
              && messages == shownFirst && isLoading && currentResponse == ""
              && threads == old(threads) && handedOver == old(handedOver) && currentThreads == old(currentThreads))
        && (response.Some? ==>
              var lines := CompleteLines(Concat(response.value));
              var named := LastName(lines, parse);
              && messages == shownFirst + [ClientMessage(ids.reply, MODEL, ResponseOf(lines, parse), replyNow, None)]
              && !isLoading && currentResponse == ""
              && threads == (if named.Some? then Renamed(old(threads), routeId.value, named.value) else old(threads))
              && (handedOver == if HasNonBlank(lines) then None else old(handedOver))
              && (currentThreads == if HasNonBlank(lines) then None else old(currentThreads)))
      ensures search == old(search) && uploadedFile == old(uploadedFile) && isPopoverOpen == old(isPopoverOpen)
      ensures toast == old(toast)
    {
      if IsBlank(message) || routeId.None? || routeId.value == "" {
        return None;
      }
      var id := routeId.value;
      isLoading := true;
      currentResponse := "";
      var shownBefore := messages;
      var userMessage := UserMessageFor(handedOver, search, image, dataUrl, ids, now);
      messages := AppendIfNew(messages, userMessage);
      request := Some(RequestFor(id, message, image, RebuiltFile(handedOver, decode), shownBefore, lang, currentThreads, now));
      if response.None? {
        return;
      }
      ReceiveReply(id, response.value, parse, ids.reply, replyNow);
    }

    /**
     * The part of `sendMessage` after a successful request: stop loading,
     * read the stream, rename the thread from the list as it stood, clear
     * the hand-over once a line was not blank, and show the reply.
     */
    method ReceiveReply(id: string, chunks: seq<string>, parse: string -> LineParse, replyId: string, now: string)
      modifies this
      ensures var lines := CompleteLines(Concat(chunks));
        var named := LastName(lines, parse);
        && messages == old(messages) + [ClientMessage(replyId, MODEL, ResponseOf(lines, parse), now, None)]
        && !isLoading && currentResponse == ""
        && threads == (if named.Some? then Renamed(old(threads), id, named.value) else old(threads))
        && (handedOver == if HasNonBlank(lines) then None else old(handedOver))
        && (currentThreads == if HasNonBlank(lines) then None else old(currentThreads))
      ensures search == old(search) && uploadedFile == old(uploadedFile) && isPopoverOpen == old(isPopoverOpen)
      ensures toast == old(toast)
    {
      var fullResponse, name, touched := ReadStream(chunks, parse);
      ApplyReply(id, fullResponse, name, touched, replyId, now);
    }

    /**
     * The state changes of `ReceiveReply` once the stream is read: the
     * response text, the last thread name and whether a non-blank line came.
     */
    method ApplyReply(id: string, fullResponse: string, name: Option<string>, touched: bool, replyId: string, now: string)
      modifies this
      ensures messages == old(messages) + [ClientMessage(replyId, MODEL, fullResponse, now, None)]
      ensures !isLoading && currentResponse == ""
      ensures threads == if name.Some? then Renamed(old(threads), id, name.value) else old(threads)
      ensures handedOver == (if touched then None else old(handedOver))
      ensures currentThreads == (if touched then None else old(currentThreads))
      ensures search == old(search) && uploadedFile == old(uploadedFile) && isPopoverOpen == old(isPopoverOpen)
      ensures toast == old(toast)
    {
      isLoading := false;
      var snapshot := threads;
      if name.Some? {
        threads := Renamed(snapshot, id, name.value);
      }
      if touched {
        handedOver := None;
        currentThreads := None;
      }
      messages := messages + [ClientMessage(replyId, MODEL, fullResponse, now, None)];
      currentResponse := "";
    }
  }
}
