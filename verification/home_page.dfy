/**
 * The home page: it picks a file without checks, offers suggested
 * questions while the search box is empty, and `createNewChat` hands the
 * first turn over to the chat page through session storage and pushes a
 * placeholder thread onto the saved thread list, in place.
 */
module HomePage {
  import opened Wrappers
  import opened Text
  import opened Tables
  import opened Attachment
  import opened ClientTypes
  import ChatPage

  const NEW_THREAD_NAME: string := "New Thread"

  /** The saved thread list as one shared array object: pushing onto it changes it for every holder. */
  class ThreadList {
    var items: seq<Thread>

    constructor(items: seq<Thread>)
      ensures this.items == items
    {
      this.items := items;
    }

    method Push(t: Thread)
      modifies this
      ensures items == old(items) + [t]
    {
      items := items + [t];
    }
  }

  /** Fresh ids for one new chat: the chat, the user message, its image and the image's message id. */
  datatype HomeIds = HomeIds(chat: string, message: string, image: string, imageMessage: string)

  /** The placeholder thread: one user turn with the search text, loading until the chat page renames it. */
  function NewThread(id: string, userId: Option<string>, search: string, now: int): (r: Thread)
    ensures r.id == id && r.userId == userId.GetOr("")
    ensures r.histories == [ClientTurn("user", [search])]
    ensures r.name == NEW_THREAD_NAME && r.isLoading == Some(true)
    ensures r.createdAt == now && r.updateAt == now
  {
    Thread(id, userId.GetOr(""), [ClientTurn("user", [search])], now, now, NEW_THREAD_NAME, Some(true))
  }

  /**
   * The message handed over to the chat page: a USER message with the
   * search text, carrying an image only when a file was picked, with the
   * file's type and name and the data URL (or `""`).
   */
  function HandedOverMessage(search: string, file: Option<FileInfo>, dataUrl: Option<string>,
                             ids: HomeIds, nowIso: string): (r: ClientMessage)
    ensures r.id == ids.message && r.role == USER && r.content == search
    ensures r.image.Some? <==> file.Some?
    ensures file.Some? ==> r.image.value.mineType == file.value.mimeType && r.image.value.name == file.value.name
    ensures file.Some? ==> r.image.value.url == dataUrl.GetOr("")
  {
    ClientMessage(ids.message, USER, search, nowIso,
      if file.Some? then Some(ClientImage(ids.image, dataUrl.GetOr(""), ids.imageMessage, file.value.mimeType, "", nowIso, file.value.name))
      else None)
  }

  class HomePageState {
    var search: string
    var uploadedFile: Option<FileInfo>
    var isPopoverOpen: bool
    /** Session storage `userMessage` and `currentThreads`. */
    var handedOver: Option<ClientMessage>
    var currentThreads: Option<string>
    /** The route navigated to, if any. */
    var route: Option<string>
    /** The saved thread list, shared with the rest of the page. */
    const threads: ThreadList

    constructor(threads: ThreadList)
      ensures this.threads == threads && search == "" && uploadedFile == None && !isPopoverOpen
      ensures handedOver == None && currentThreads == None && route == None
    {
      this.threads := threads;
      search := "";
      uploadedFile := None;
      isPopoverOpen := false;
      handedOver := None;
      currentThreads := None;
      route := None;
    }

    /** The suggested questions are shown exactly while the search text is empty. */
    predicate ShowsSuggestions()
      reads this
    {
      |search| == 0
    }

    /** Choosing a suggestion puts its text in the search box, which hides the suggestions when it is not empty. */
    method ChooseSuggestion(question: string)
      modifies this
      ensures search == question
      ensures ShowsSuggestions() <==> question == ""
      ensures uploadedFile == old(uploadedFile) && isPopoverOpen == old(isPopoverOpen)
      ensures handedOver == old(handedOver) && currentThreads == old(currentThreads) && route == old(route)
    {
      search := question;
    }

    /** `handleFileSelect`: any file is kept, with no size or type check, and the popover closes. */
    method HandleFileSelect(file: FileInfo)
      modifies this
      ensures uploadedFile == Some(file) && !isPopoverOpen
      ensures search == old(search) && handedOver == old(handedOver)
      ensures currentThreads == old(currentThreads) && route == old(route)
    {
      uploadedFile := Some(file);
      isPopoverOpen := false;
    }

    /**
     * `createNewChat`. `dataUrl` is what the file reader gives for the
     * picked file, `userId` the signed-in user's id if any, `now` the clock.
     */
    method CreateNewChat(ids: HomeIds, userId: Option<string>, dataUrl: Option<string>, now: int, nowIso: string)
      modifies this, threads
      ensures currentThreads == Some(old(search))
      ensures handedOver == Some(HandedOverMessage(old(search), old(uploadedFile), dataUrl, ids, nowIso))
      ensures threads.items == old(threads.items) + [NewThread(ids.chat, userId, old(search), now)]
      ensures route == Some("/chat/" + ids.chat)
      ensures search == old(search) && uploadedFile == old(uploadedFile) && isPopoverOpen == old(isPopoverOpen)
    {
      currentThreads := Some(search);
      var userMessage := ClientMessage(ids.message, USER, search, nowIso, None);
      if uploadedFile.Some? {
        var url := if dataUrl.Some? then dataUrl.value else "";
        userMessage := userMessage.(image := Some(ClientImage(ids.image, url, ids.imageMessage,
                                                              uploadedFile.value.mimeType, "", nowIso,
                                                              uploadedFile.value.name)));
      }
      handedOver := Some(userMessage);
      threads.Push(NewThread(ids.chat, userId, search, now));
      route := Some("/chat/" + ids.chat);
    }
  }

  /**
   * The pushed thread is the only one with its id when the id was fresh,
   * and every earlier thread is kept in place.
   */
  lemma PushedThreadIsUnique(items: seq<Thread>, id: string, userId: Option<string>, search: string, now: int)
    requires forall t | t in items :: t.id != id
    ensures var after := items + [NewThread(id, userId, search, now)];
      && after[..|items|] == items
      && (forall i :: 0 <= i < |after| ==> (after[i].id == id <==> i == |items|))
  {
    var after := items + [NewThread(id, userId, search, now)];
    forall i | 0 <= i < |after| ensures after[i].id == id <==> i == |items| {
      if i < |items| {
        assert after[i] == items[i] && items[i] in items;
      }
    }
  }

  /**
   * The hand-over as the chat page receives it. On arrival the page sends
   * the search text exactly when it is not blank (an empty one sends
   * nothing, a blank one is refused by the send guard). It then shows the
   * handed-over message as it is, and posts the first turn to `createChat`
   * with the search text and, when a file was picked, the file rebuilt
   * from the handed-over data URL.
   */
  lemma HandOverReachesChatPage(search: string, file: Option<FileInfo>, dataUrl: Option<string>, ids: HomeIds,
                                nowIso: string, decode: ClientImage -> Option<FileInfo>,
                                shown: seq<ClientMessage>, lang: string, chatSearch: string,
                                clientIds: ChatPage.ClientIds, chatDataUrl: string, now: string)
    requires ids.chat != ""
    ensures ChatPage.ArrivalMessage(Some(search)).Some? && ChatPage.Sendable(search, Some(ids.chat))
        <==> !IsBlank(search)
    ensures var m := HandedOverMessage(search, file, dataUrl, ids, nowIso);
      ChatPage.UserMessageFor(Some(m), chatSearch, None, chatDataUrl, clientIds, now) == m
    ensures var m := HandedOverMessage(search, file, dataUrl, ids, nowIso);
      !IsBlank(search) ==>
        ChatPage.RequestFor(ids.chat, search, None, ChatPage.RebuiltFile(Some(m), decode), shown, lang, Some(search), now)
        == ChatPage.CreateChatRequest(ids.chat, search, if file.Some? then decode(m.image.value) else None, shown, lang)
  {
    if !IsBlank(search) {
      assert !IsJsWhitespace(search[0]) || exists i :: 0 <= i < |search| && !IsJsWhitespace(search[i]);
    }
  }

  /**
   * The placeholder's life: renaming the pushed thread from the stream's
   * name gives it that name and ends its loading state, and leaves every
   * earlier thread as it was.
   */
  lemma PlaceholderIsRenamed(items: seq<Thread>, id: string, userId: Option<string>, search: string, now: int,
                             name: string)
    requires forall t | t in items :: t.id != id
    ensures ChatPage.Renamed(items + [NewThread(id, userId, search, now)], id, name)
         == items + [NewThread(id, userId, search, now).(name := name, isLoading := Some(false))]
  {
    var after := items + [NewThread(id, userId, search, now)];
    var renamed := ChatPage.Renamed(after, id, name);
    var expected := items + [NewThread(id, userId, search, now).(name := name, isLoading := Some(false))];
    forall i | 0 <= i < |after| ensures renamed[i] == expected[i] {
      if i < |items| {
        assert after[i] == items[i] && items[i] in items;
      }
    }
  }
}
