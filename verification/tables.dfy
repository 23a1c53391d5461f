/**
 * The three tables of the chat history (`chat`, `message`, `image`), their
 * keys and foreign keys, and the relational reads the handlers make
 * (`histories` of a chat, the `image` of a message).
 *
 * A table is a sequence of rows in storage order. Keys are modelled by the
 * `Consistent` predicate: primary keys are distinct, `image.messageId` is
 * unique, and every foreign key points at an existing row.
 */
module Tables {
  import opened Wrappers
  import opened Seqs

  /** The `role` column: an enum of exactly two values, never null. */
  datatype Role = USER | MODEL

  /** A row of `chat`. Timestamps are milliseconds; `name` defaults to the empty string. */
  datatype ChatRow = ChatRow(
    id: string,
    userId: string,
    createdAt: int,
    updateAt: int,
    name: string,
    systemPrompt: string)

  /** A row of `message`; `chatId` references `chat.id` with ON DELETE CASCADE. */
  datatype MessageRow = MessageRow(
    id: string,
    content: string,
    role: Role,
    chatId: string,
    createdAt: int)

  /**
   * A row of `image`. `key` is the only nullable data column; `messageId` is
   * unique and references `message.id` with ON DELETE CASCADE.
   */
  datatype ImageRow = ImageRow(
    id: string,
    url: string,
    key: Option<string>,
    name: string,
    mimeType: string,
    sizeBytes: string,
    expirationTime: string,
    displayName: string,
    fileUri: string,
    messageId: string)

  /** The default of `chat.name`. */
  const CHAT_NAME_DEFAULT: string := ""

  /** A message together with the image joined through `image.messageId`. */
  datatype MessageView = MessageView(message: MessageRow, image: Option<ImageRow>)

  /** A chat together with its `histories`. */
  datatype ChatView = ChatView(chat: ChatRow, histories: seq<MessageView>)

  function ChatKey(c: ChatRow): string { c.id }
  function MessageKey(m: MessageRow): string { m.id }
  function ImageKey(im: ImageRow): string { im.id }
  function ImageMessageKey(im: ImageRow): string { im.messageId }

  function ChatIds(chats: seq<ChatRow>): set<string> { set c | c in chats :: c.id }
  function MessageIds(messages: seq<MessageRow>): set<string> { set m | m in messages :: m.id }
  function ImageIds(images: seq<ImageRow>): set<string> { set im | im in images :: im.id }
  function ImagedMessageIds(images: seq<ImageRow>): set<string> { set im | im in images :: im.messageId }

  /** Every key and foreign-key constraint the three table declarations state. */
  predicate Consistent(chats: seq<ChatRow>, messages: seq<MessageRow>, images: seq<ImageRow>) {
    && DistinctBy(chats, ChatKey)
    && DistinctBy(messages, MessageKey)
    && DistinctBy(images, ImageKey)
    && DistinctBy(images, ImageMessageKey)
    && (forall m | m in messages :: m.chatId in ChatIds(chats))
    && (forall im | im in images :: im.messageId in MessageIds(messages))
  }

  /** `findFirst where id = chatId`. */
  function FindChat(chats: seq<ChatRow>, id: string): (r: Option<ChatRow>)
    ensures r.Some? <==> id in ChatIds(chats)
    ensures r.Some? ==> r.value in chats && r.value.id == id
  {
    if |chats| == 0 then None
    else if chats[0].id == id then Some(chats[0])
    else
      var r := FindChat(chats[1..], id);
      assert ChatIds(chats) == {chats[0].id} + ChatIds(chats[1..]) by {
        assert chats == [chats[0]] + chats[1..];
      }
      r
  }

  /** `findFirst where id = chatId and userId = owner`. */
  function FindOwnedChat(chats: seq<ChatRow>, id: string, owner: string): Option<ChatRow> {
    match FindChat(chats, id)
    case Some(c) => if c.userId == owner then Some(c) else None
    case None => None
  }

  /** Under the primary key, a lookup finds exactly the row that carries the id. */
  lemma FindChatUnique(chats: seq<ChatRow>, c: ChatRow)
    requires DistinctBy(chats, ChatKey)
    requires c in chats
    ensures FindChat(chats, c.id) == Some(c)
  {
    var r := FindChat(chats, c.id);
    var i :| 0 <= i < |chats| && chats[i] == c;
    var j :| 0 <= j < |chats| && chats[j] == r.value;
    assert ChatKey(chats[i]) == ChatKey(chats[j]);
  }

  /** The owner-scoped lookup succeeds exactly when the chat exists and belongs to `owner`. */
  lemma FindOwnedChatSpec(chats: seq<ChatRow>, id: string, owner: string)
    requires DistinctBy(chats, ChatKey)
    ensures FindOwnedChat(chats, id, owner).Some?
        <==> exists c :: c in chats && c.id == id && c.userId == owner
    ensures FindOwnedChat(chats, id, owner).Some? ==> FindOwnedChat(chats, id, owner) == FindChat(chats, id)
  {
    if exists c :: c in chats && c.id == id && c.userId == owner {
      var c :| c in chats && c.id == id && c.userId == owner;
      FindChatUnique(chats, c);
    }
  }

  /** The `image` relation of a message: the image row whose `messageId` is `messageId`, if any. */
  function ImageFor(images: seq<ImageRow>, messageId: string): (r: Option<ImageRow>)
    ensures r.None? <==> messageId !in ImagedMessageIds(images)
    ensures r.Some? ==> r.value in images && r.value.messageId == messageId
  {
    if |images| == 0 then None
    else if images[0].messageId == messageId then Some(images[0])
    else
      var r := ImageFor(images[1..], messageId);
      assert ImagedMessageIds(images) == {images[0].messageId} + ImagedMessageIds(images[1..]) by {
        assert images == [images[0]] + images[1..];
      }
      r
  }

  /** Because `image.messageId` is unique, a message has at most one image and the join finds it. */
  lemma ImageForUnique(images: seq<ImageRow>, im: ImageRow)
    requires DistinctBy(images, ImageMessageKey)
    requires im in images
    ensures ImageFor(images, im.messageId) == Some(im)
  {
    var r := ImageFor(images, im.messageId);
    var i :| 0 <= i < |images| && images[i] == im;
    var j :| 0 <= j < |images| && images[j] == r.value;
    assert ImageMessageKey(images[i]) == ImageMessageKey(images[j]);
  }

  /** Appending an image row changes the join only for its own message, and only if that message had none. */
  lemma {:induction false} ImageForAppend(images: seq<ImageRow>, im: ImageRow, messageId: string)
    ensures ImageFor(images + [im], messageId)
         == if messageId in ImagedMessageIds(images) then ImageFor(images, messageId)
            else if im.messageId == messageId then Some(im)
            else None
  {
    if |images| > 0 {
      assert (images + [im])[0] == images[0] && (images + [im])[1..] == images[1..] + [im];
      ImageForAppend(images[1..], im, messageId);
      assert images == [images[0]] + images[1..];
    } else {
      assert images + [im] == [im];
    }
  }

  /** The rows of `chatId` in `message`. */
  function InChat(chatId: string): MessageRow -> bool {
    (m: MessageRow) => m.chatId == chatId
  }

  /** Each message joined with its image. */
  function JoinImages(ms: seq<MessageRow>, images: seq<ImageRow>): (r: seq<MessageView>)
    ensures |r| == |ms|
    ensures forall i :: 0 <= i < |ms| ==> r[i].message == ms[i] && r[i].image == ImageFor(images, ms[i].id)
  {
    if |ms| == 0 then [] else [MessageView(ms[0], ImageFor(images, ms[0].id))] + JoinImages(ms[1..], images)
  }

  lemma {:induction false} JoinImagesAppend(a: seq<MessageRow>, b: seq<MessageRow>, images: seq<ImageRow>)
    ensures JoinImages(a + b, images) == JoinImages(a, images) + JoinImages(b, images)
  {
    if |a| > 0 {
      assert (a + b)[0] == a[0] && (a + b)[1..] == a[1..] + b;
      JoinImagesAppend(a[1..], b, images);
    } else {
      assert a + b == b;
    }
  }

  /** The `histories` of a chat with their images, in storage order (a query without `orderBy`). */
  function HistoryOf(messages: seq<MessageRow>, images: seq<ImageRow>, chatId: string): seq<MessageView> {
    JoinImages(Filter(messages, InChat(chatId)), images)
  }

  /** Chats of `owner`. */
  function OwnedBy(owner: string): ChatRow -> bool {
    (c: ChatRow) => c.userId == owner
  }

  function MessageCreatedAt(v: MessageView): int { v.message.createdAt }

  /** Sort key for `orderBy desc(createdAt)`. */
  function NewestFirst(v: ChatView): int { -v.chat.createdAt }

  /** Each chat with its histories in `orderBy asc(createdAt)` order. */
  function ViewsOf(cs: seq<ChatRow>, messages: seq<MessageRow>, images: seq<ImageRow>): (r: seq<ChatView>)
    ensures |r| == |cs|
    ensures forall i :: 0 <= i < |cs| ==>
      r[i] == ChatView(cs[i], SortBy(HistoryOf(messages, images, cs[i].id), MessageCreatedAt))
  {
    if |cs| == 0 then []
    else [ChatView(cs[0], SortBy(HistoryOf(messages, images, cs[0].id), MessageCreatedAt))]
         + ViewsOf(cs[1..], messages, images)
  }

  /**
   * The `getAllChats` query: the chats whose `userId` is `owner`, newest
   * `createdAt` first, each with its messages in ascending `createdAt`.
   */
  function ChatsOfOwner(chats: seq<ChatRow>, messages: seq<MessageRow>, images: seq<ImageRow>, owner: string): seq<ChatView> {
    SortBy(ViewsOf(Filter(chats, OwnedBy(owner)), messages, images), NewestFirst)
  }

  /** `getAllChats` lists the newest chat first. */
  lemma ChatsOfOwnerNewestFirst(chats: seq<ChatRow>, messages: seq<MessageRow>, images: seq<ImageRow>, owner: string)
    ensures var r := ChatsOfOwner(chats, messages, images, owner);
      forall i, j :: 0 <= i < j < |r| ==> r[i].chat.createdAt >= r[j].chat.createdAt
  {
    var r := ChatsOfOwner(chats, messages, images, owner);
    SortBySortsAndPermutes(ViewsOf(Filter(chats, OwnedBy(owner)), messages, images), NewestFirst);
    forall i, j | 0 <= i < j < |r| ensures r[i].chat.createdAt >= r[j].chat.createdAt {
      assert NewestFirst(r[i]) <= NewestFirst(r[j]);
    }
  }

  lemma ChatsOfOwnerFromViews(chats: seq<ChatRow>, messages: seq<MessageRow>, images: seq<ImageRow>, owner: string, v: ChatView)
    requires v in ChatsOfOwner(chats, messages, images, owner)
    ensures v in ViewsOf(Filter(chats, OwnedBy(owner)), messages, images)
  {
    var views := ViewsOf(Filter(chats, OwnedBy(owner)), messages, images);
    SortBySortsAndPermutes(views, NewestFirst);
    assert v in multiset(ChatsOfOwner(chats, messages, images, owner));
  }

  /** `getAllChats` lists exactly the chats whose `userId` is the owner. */
  lemma ChatsOfOwnerExactlyOwned(chats: seq<ChatRow>, messages: seq<MessageRow>, images: seq<ImageRow>, owner: string, c: ChatRow)
    ensures c in chats && c.userId == owner
        <==> exists v :: v in ChatsOfOwner(chats, messages, images, owner) && v.chat == c
  {
    var owned := Filter(chats, OwnedBy(owner));
    var views := ViewsOf(owned, messages, images);
    var r := ChatsOfOwner(chats, messages, images, owner);
    SortBySortsAndPermutes(views, NewestFirst);
    if c in chats && c.userId == owner {
      assert OwnedBy(owner)(c);
      var i :| 0 <= i < |owned| && owned[i] == c;
      assert views[i] in multiset(views);
      assert views[i] in r;
    }
    if exists v :: v in r && v.chat == c {
      var v :| v in r && v.chat == c;
      ChatsOfOwnerFromViews(chats, messages, images, owner, v);
      var i :| 0 <= i < |views| && views[i] == v;
      assert owned[i] in owned;
    }
  }

  /**
   * Each listed chat carries its own messages in ascending `createdAt`;
   * messages with equal timestamps keep storage order.
   */
  lemma ChatsOfOwnerHistories(chats: seq<ChatRow>, messages: seq<MessageRow>, images: seq<ImageRow>, owner: string, v: ChatView, t: int)
    requires v in ChatsOfOwner(chats, messages, images, owner)
    ensures SortedBy(v.histories, MessageCreatedAt)
    ensures multiset(v.histories) == multiset(HistoryOf(messages, images, v.chat.id))
    ensures Filter(v.histories, KeyIs(MessageCreatedAt, t))
         == Filter(HistoryOf(messages, images, v.chat.id), KeyIs(MessageCreatedAt, t))
  {
    var views := ViewsOf(Filter(chats, OwnedBy(owner)), messages, images);
    ChatsOfOwnerFromViews(chats, messages, images, owner, v);
    var i :| 0 <= i < |views| && views[i] == v;
    SortBySortsAndPermutes(HistoryOf(messages, images, v.chat.id), MessageCreatedAt);
    SortByStable(HistoryOf(messages, images, v.chat.id), MessageCreatedAt, t);
  }

  /**
   * Messages that all carry the same `createdAt` are listed in storage
   * order, under the stable sort this model takes for `orderBy`.
   */
  lemma UniformTimestampsKeepStorageOrder(h: seq<MessageView>, t: int)
    requires forall i :: 0 <= i < |h| ==> h[i].message.createdAt == t
    ensures SortBy(h, MessageCreatedAt) == h
  {
    SortByKeepsSorted(h, MessageCreatedAt);
  }
}
