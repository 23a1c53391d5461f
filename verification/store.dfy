/**
 * The database the chat handlers read and write.
 *
 * `Db` is a snapshot of the three tables and the `With...` functions are the
 * statements the handlers issue, each as a value-level step; `HistoryStore`
 * is the database object itself, whose methods perform those statements in
 * place. An insert that would break a key is refused (the engine raises,
 * and the handlers' `catch` swallows it); deleting a chat cascades to its
 * messages and from them to their images, as the ON DELETE CASCADE clauses
 * declare.
 */
module Store {
  import opened Wrappers
  import opened Seqs
  import opened Tables

  /** The three tables, in storage order. */
  datatype Db = Db(chats: seq<ChatRow>, messages: seq<MessageRow>, images: seq<ImageRow>)

  predicate DbConsistent(db: Db) {
    Consistent(db.chats, db.messages, db.images)
  }

  /** `insert into chat`; `None` when the engine refuses the row. */
  function WithChat(db: Db, row: ChatRow): Option<Db> {
    if row.id in ChatIds(db.chats) then None else Some(db.(chats := db.chats + [row]))
  }

  /** `insert into message`; refused on a taken id or a missing chat. */
  function WithMessage(db: Db, row: MessageRow): Option<Db> {
    if row.id in MessageIds(db.messages) || row.chatId !in ChatIds(db.chats) then None
    else Some(db.(messages := db.messages + [row]))
  }

  /** A batch of two message inserts: both rows are written, or neither. */
  function WithMessagePair(db: Db, first: MessageRow, second: MessageRow): Option<Db> {
    match WithMessage(db, first)
    case None => None
    case Some(db1) => WithMessage(db1, second)
  }

  /** `insert into image`; refused on a taken id, a taken `messageId` or a missing message. */
  function WithImage(db: Db, row: ImageRow): Option<Db> {
    if row.id in ImageIds(db.images) || row.messageId in ImagedMessageIds(db.images)
       || row.messageId !in MessageIds(db.messages) then None
    else Some(db.(images := db.images + [row]))
  }

  /** `update chat set name, systemPrompt (when given), updateAt where id = chatId`. */
  function SetChatFields(chats: seq<ChatRow>, id: string, name: Option<string>, systemPrompt: Option<string>, updateAt: int)
    : seq<ChatRow>
  {
    if |chats| == 0 then []
    else
      var c := chats[0];
      [if c.id == id
       then c.(name := name.GetOr(c.name), systemPrompt := systemPrompt.GetOr(c.systemPrompt), updateAt := updateAt)
       else c]
      + SetChatFields(chats[1..], id, name, systemPrompt, updateAt)
  }

  /** The update touches the row with that id, in the given columns, and nothing else. */
  lemma {:induction false} SetChatFieldsSpec(chats: seq<ChatRow>, id: string, name: Option<string>, systemPrompt: Option<string>, updateAt: int)
    ensures |SetChatFields(chats, id, name, systemPrompt, updateAt)| == |chats|
    ensures forall i :: 0 <= i < |chats| ==>
      var r := SetChatFields(chats, id, name, systemPrompt, updateAt);
      && r[i].id == chats[i].id && r[i].userId == chats[i].userId && r[i].createdAt == chats[i].createdAt
      && (chats[i].id != id ==> r[i] == chats[i])
      && (chats[i].id == id ==>
            r[i].updateAt == updateAt
            && r[i].name == (if name.Some? then name.value else chats[i].name)
            && r[i].systemPrompt == (if systemPrompt.Some? then systemPrompt.value else chats[i].systemPrompt))
  {
    if |chats| > 0 {
      SetChatFieldsSpec(chats[1..], id, name, systemPrompt, updateAt);
      var r := SetChatFields(chats, id, name, systemPrompt, updateAt);
      forall i | 1 <= i < |chats| ensures r[i] == SetChatFields(chats[1..], id, name, systemPrompt, updateAt)[i - 1] {
      }
    }
  }

  function WithChatFields(db: Db, id: string, name: Option<string>, systemPrompt: Option<string>, updateAt: int): Db {
    db.(chats := SetChatFields(db.chats, id, name, systemPrompt, updateAt))
  }

  /** Rows of other chats. */
  function NotChat(id: string): ChatRow -> bool {
    (c: ChatRow) => c.id != id
  }

  /** Messages of other chats. */
  function NotInChat(chatId: string): MessageRow -> bool {
    (m: MessageRow) => m.chatId != chatId
  }

  /** Images whose message is not among `ids`. */
  function NotOfMessages(ids: set<string>): ImageRow -> bool {
    (im: ImageRow) => im.messageId !in ids
  }

  /** The ids of the messages of `chatId`. */
  function MessagesOfChat(messages: seq<MessageRow>, chatId: string): set<string> {
    set m | m in messages && m.chatId == chatId :: m.id
  }

  /** `delete from chat where id = chatId` with both cascades. */
  function WithoutChat(db: Db, id: string): Db {
    Db(Filter(db.chats, NotChat(id)),
       Filter(db.messages, NotInChat(id)),
       Filter(db.images, NotOfMessages(MessagesOfChat(db.messages, id))))
  }

  // Each statement keeps the declared keys and foreign keys.

  lemma WithChatConsistent(db: Db, row: ChatRow)
    requires DbConsistent(db) && WithChat(db, row).Some?
    ensures DbConsistent(WithChat(db, row).value)
    ensures ChatIds(WithChat(db, row).value.chats) == ChatIds(db.chats) + {row.id}
  {
    AppendDistinct(db.chats, row, ChatKey);
    assert ChatIds(db.chats + [row]) == ChatIds(db.chats) + {row.id};
  }

  lemma WithMessageConsistent(db: Db, row: MessageRow)
    requires DbConsistent(db) && WithMessage(db, row).Some?
    ensures DbConsistent(WithMessage(db, row).value)
    ensures MessageIds(WithMessage(db, row).value.messages) == MessageIds(db.messages) + {row.id}
  {
    AppendDistinct(db.messages, row, MessageKey);
    assert MessageIds(db.messages + [row]) == MessageIds(db.messages) + {row.id};
  }

  lemma WithImageConsistent(db: Db, row: ImageRow)
    requires DbConsistent(db) && WithImage(db, row).Some?
    ensures DbConsistent(WithImage(db, row).value)
  {
    AppendDistinct(db.images, row, ImageKey);
    AppendDistinct(db.images, row, ImageMessageKey);
  }

  lemma WithChatFieldsConsistent(db: Db, id: string, name: Option<string>, systemPrompt: Option<string>, updateAt: int)
    requires DbConsistent(db)
    ensures DbConsistent(WithChatFields(db, id, name, systemPrompt, updateAt))
    ensures ChatIds(WithChatFields(db, id, name, systemPrompt, updateAt).chats) == ChatIds(db.chats)
  {
    var updated := SetChatFields(db.chats, id, name, systemPrompt, updateAt);
    SetChatFieldsSpec(db.chats, id, name, systemPrompt, updateAt);
    assert ChatIds(updated) == ChatIds(db.chats) by {
      forall x | x in ChatIds(updated) ensures x in ChatIds(db.chats) {
        var c :| c in updated && c.id == x;
        var i :| 0 <= i < |updated| && updated[i] == c;
        assert db.chats[i].id == x;
      }
      forall x | x in ChatIds(db.chats) ensures x in ChatIds(updated) {
        var c :| c in db.chats && c.id == x;
        var i :| 0 <= i < |db.chats| && db.chats[i] == c;
        assert updated[i].id == x;
      }
    }
    assert DistinctBy(updated, ChatKey) by {
      forall i, j | 0 <= i < j < |updated| ensures ChatKey(updated[i]) != ChatKey(updated[j]) {
        assert ChatKey(db.chats[i]) != ChatKey(db.chats[j]);
      }
    }
  }

  /** In the chat table alone: the updated row is found under its id, and every other row is kept. */
  lemma SetChatFieldsFinds(chats: seq<ChatRow>, chat: ChatRow, name: Option<string>, systemPrompt: Option<string>,
                           updateAt: int)
    requires chat in chats && DistinctBy(SetChatFields(chats, chat.id, name, systemPrompt, updateAt), ChatKey)
    ensures var chats' := SetChatFields(chats, chat.id, name, systemPrompt, updateAt);
      && FindChat(chats', chat.id)
         == Some(chat.(name := name.GetOr(chat.name), systemPrompt := systemPrompt.GetOr(chat.systemPrompt),
                       updateAt := updateAt))
      && (forall c | c in chats && c.id != chat.id :: c in chats')
  {
    var chats' := SetChatFields(chats, chat.id, name, systemPrompt, updateAt);
    var updated := chat.(name := name.GetOr(chat.name), systemPrompt := systemPrompt.GetOr(chat.systemPrompt),
                         updateAt := updateAt);
    SetChatFieldsSpec(chats, chat.id, name, systemPrompt, updateAt);
    var i :| 0 <= i < |chats| && chats[i] == chat;
    assert chats'[i] == updated;
    FindChatUnique(chats', updated);
    forall c | c in chats && c.id != chat.id ensures c in chats' {
      var j :| 0 <= j < |chats| && chats[j] == c;
      assert chats'[j] == c;
    }
  }

  /**
   * Updating an existing chat leaves the tables consistent, gives that chat
   * the new columns under the same id, owner and creation time, and keeps
   * every other chat, message and image as it was.
   */
  lemma WithChatFieldsSets(db: Db, chat: ChatRow, name: Option<string>, systemPrompt: Option<string>, updateAt: int)
    requires DbConsistent(db) && chat in db.chats
    ensures var db' := WithChatFields(db, chat.id, name, systemPrompt, updateAt);
      && DbConsistent(db')
      && FindChat(db'.chats, chat.id)
         == Some(chat.(name := name.GetOr(chat.name), systemPrompt := systemPrompt.GetOr(chat.systemPrompt),
                       updateAt := updateAt))
      && (forall c | c in db.chats && c.id != chat.id :: c in db'.chats)
      && db'.messages == db.messages && db'.images == db.images
  {
    WithChatFieldsConsistent(db, chat.id, name, systemPrompt, updateAt);
    SetChatFieldsFinds(db.chats, chat, name, systemPrompt, updateAt);
  }

  lemma WithoutChatConsistent(db: Db, id: string)
    requires DbConsistent(db)
    ensures DbConsistent(WithoutChat(db, id))
    ensures id !in ChatIds(WithoutChat(db, id).chats)
  {
    var r := WithoutChat(db, id);
    FilterDistinct(db.chats, NotChat(id), ChatKey);
    FilterDistinct(db.messages, NotInChat(id), MessageKey);
    FilterDistinct(db.images, NotOfMessages(MessagesOfChat(db.messages, id)), ImageKey);
    FilterDistinct(db.images, NotOfMessages(MessagesOfChat(db.messages, id)), ImageMessageKey);
    forall m | m in r.messages ensures m.chatId in ChatIds(r.chats) {
      var c :| c in db.chats && c.id == m.chatId;
      assert NotChat(id)(c);
    }
    forall im | im in r.images ensures im.messageId in MessageIds(r.messages) {
      var m :| m in db.messages && m.id == im.messageId;
      assert m.chatId != id;
      assert NotInChat(id)(m);
    }
  }

  /**
   * What the cascade removes: exactly the chat, the messages of that chat,
   * and the images of those messages; every other row stays.
   */
  lemma WithoutChatRemoves(db: Db, id: string)
    requires DbConsistent(db)
    ensures forall c | c in db.chats :: c in WithoutChat(db, id).chats <==> c.id != id
    ensures forall m | m in db.messages :: m in WithoutChat(db, id).messages <==> m.chatId != id
    ensures forall im | im in db.images ::
      im in WithoutChat(db, id).images
      <==> !(exists m :: m in db.messages && m.id == im.messageId && m.chatId == id)
  {
    forall im | im in db.images
      ensures im.messageId in MessagesOfChat(db.messages, id)
          <==> exists m :: m in db.messages && m.id == im.messageId && m.chatId == id
    {
    }
  }

  // How the statements change the `histories` a chat query returns.

  /** A chat nobody has written to yet has no history. */
  lemma HistoryOfUnknownChat(db: Db, chatId: string)
    requires DbConsistent(db)
    requires chatId !in ChatIds(db.chats)
    ensures HistoryOf(db.messages, db.images, chatId) == []
  {
    forall i | 0 <= i < |db.messages| ensures !InChat(chatId)(db.messages[i]) {
      assert db.messages[i] in db.messages;
    }
    FilterNone(db.messages, InChat(chatId));
  }

  /** A new message goes at the end of its chat's history, without an image; other chats are unchanged. */
  lemma HistoryAfterMessage(db: Db, row: MessageRow, chatId: string)
    requires DbConsistent(db) && WithMessage(db, row).Some?
    ensures HistoryOf(WithMessage(db, row).value.messages, db.images, chatId)
         == HistoryOf(db.messages, db.images, chatId)
            + (if row.chatId == chatId then [MessageView(row, None)] else [])
  {
    FilterAppend(db.messages, [row], InChat(chatId));
    JoinImagesAppend(Filter(db.messages, InChat(chatId)), Filter([row], InChat(chatId)), db.images);
    assert row.id !in ImagedMessageIds(db.images);
    JoinOne(row, chatId, db.images);
  }

  /** One message, kept when it is in the chat, joined with its image. */
  lemma JoinOne(m: MessageRow, chatId: string, images: seq<ImageRow>)
    ensures JoinImages(Filter([m], InChat(chatId)), images)
         == if m.chatId == chatId then [MessageView(m, ImageFor(images, m.id))] else []
  {
    assert [m][1..] == [];
  }

  /** An image of a message outside `ms` changes none of their views. */
  lemma JoinImagesIgnoresImage(ms: seq<MessageRow>, images: seq<ImageRow>, row: ImageRow)
    requires forall m | m in ms :: m.id != row.messageId
    ensures JoinImages(ms, images + [row]) == JoinImages(ms, images)
  {
    forall i | 0 <= i < |ms| ensures ImageFor(images + [row], ms[i].id) == ImageFor(images, ms[i].id) {
      assert ms[i] in ms;
      ImageForAppend(images, row, ms[i].id);
    }
  }

  /** Under the primary key, no earlier message shares the newest one's id. */
  lemma EarlierIdsDiffer(messages: seq<MessageRow>)
    requires DistinctBy(messages, MessageKey) && |messages| > 0
    ensures forall m | m in messages[..|messages| - 1] :: m.id != messages[|messages| - 1].id
  {
    var n := |messages| - 1;
    forall m | m in messages[..n] ensures m.id != messages[n].id {
      var k :| 0 <= k < n && messages[..n][k] == m;
      assert MessageKey(messages[k]) != MessageKey(messages[n]);
    }
  }

  /** The image of the newest message joins that message's view and no other. */
  lemma HistoryAfterImage(db: Db, row: ImageRow, chatId: string)
    requires DbConsistent(db) && WithImage(db, row).Some?
    requires |db.messages| > 0 && db.messages[|db.messages| - 1].id == row.messageId
    ensures var n := |db.messages| - 1;
      var last := db.messages[n];
      && HistoryOf(db.messages, db.images, chatId)
         == HistoryOf(db.messages[..n], db.images, chatId)
            + (if last.chatId == chatId then [MessageView(last, None)] else [])
      && HistoryOf(db.messages, db.images + [row], chatId)
         == HistoryOf(db.messages[..n], db.images, chatId)
            + (if last.chatId == chatId then [MessageView(last, Some(row))] else [])
  {
    var n := |db.messages| - 1;
    var init, last := db.messages[..n], db.messages[n];
    assert db.messages == init + [last];
    FilterAppend(init, [last], InChat(chatId));
    var f := Filter(init, InChat(chatId));
    var g := Filter([last], InChat(chatId));
    JoinImagesAppend(f, g, db.images);
    JoinImagesAppend(f, g, db.images + [row]);
    JoinOne(last, chatId, db.images);
    JoinOne(last, chatId, db.images + [row]);
    ImageForAppend(db.images, row, last.id);
    EarlierIdsDiffer(db.messages);
    JoinImagesIgnoresImage(f, db.images, row);
  }

  class HistoryStore {
    var chats: seq<ChatRow>
    var messages: seq<MessageRow>
    var images: seq<ImageRow>

    /**
     * The default of `message.createdAt` for this load of the table
     * declaration: its `default(new Date())` is evaluated once per load,
     * so rows written by earlier loads may carry other instants.
     */
    const messageCreatedAtDefault: int

    function Snapshot(): Db
      reads this
    {
      Db(chats, messages, images)
    }

    ghost predicate Valid()
      reads this
    {
      DbConsistent(Snapshot())
    }

    /** A load of the table declarations at `loadTime`, over the tables as the database holds them. */
    constructor (db: Db, loadTime: int)
      requires DbConsistent(db)
      ensures Valid()
      ensures Snapshot() == db
      ensures messageCreatedAtDefault == loadTime
    {
      chats, messages, images := db.chats, db.messages, db.images;
      messageCreatedAtDefault := loadTime;
    }

    /** `insert into chat`: refused when the primary key is taken. */
    method InsertChat(row: ChatRow) returns (ok: bool)
      requires Valid()
      modifies this
      ensures Valid()
      ensures ok <==> row.id !in ChatIds(old(chats))
      ensures ok <==> WithChat(old(Snapshot()), row).Some?
      ensures Snapshot() == if ok then WithChat(old(Snapshot()), row).value else old(Snapshot())
    {
      ok := row.id !in ChatIds(chats);
      if ok {
        WithChatConsistent(Snapshot(), row);
        chats := chats + [row];
      }
    }

    /**
     * `insert into message` with the column default for `createdAt`:
     * refused when the id is taken or the chat does not exist.
     */
    method InsertMessage(id: string, chatId: string, content: string, role: Role) returns (ok: bool)
      requires Valid()
      modifies this
      ensures Valid()
      ensures ok <==> id !in MessageIds(old(messages)) && chatId in ChatIds(old(chats))
      ensures var row := MessageRow(id, content, role, chatId, messageCreatedAtDefault);
        && (ok <==> WithMessage(old(Snapshot()), row).Some?)
        && Snapshot() == if ok then WithMessage(old(Snapshot()), row).value else old(Snapshot())
    {
      var row := MessageRow(id, content, role, chatId, messageCreatedAtDefault);
      ok := id !in MessageIds(messages) && chatId in ChatIds(chats);
      if ok {
        WithMessageConsistent(Snapshot(), row);
        messages := messages + [row];
      }
    }

    /** A batch of two message inserts, which the engine runs as one transaction. */
    method InsertMessagePair(first: MessageRow, second: MessageRow) returns (ok: bool)
      requires Valid()
      modifies this
      ensures Valid()
      ensures ok <==> WithMessagePair(old(Snapshot()), first, second).Some?
      ensures Snapshot() == if ok then WithMessagePair(old(Snapshot()), first, second).value else old(Snapshot())
    {
      var db := Snapshot();
      if WithMessage(db, first).Some? {
        WithMessageConsistent(db, first);
        var db1 := WithMessage(db, first).value;
        if WithMessage(db1, second).Some? {
          WithMessageConsistent(db1, second);
          messages := messages + [first, second];
          assert Snapshot() == WithMessage(db1, second).value;
          return true;
        }
      }
      return false;
    }

    /** `insert into image`: refused when the id or the `messageId` is taken, or the message does not exist. */
    method InsertImage(row: ImageRow) returns (ok: bool)
      requires Valid()
      modifies this
      ensures Valid()
      ensures ok <==> && row.id !in ImageIds(old(images))
                      && row.messageId !in ImagedMessageIds(old(images))
                      && row.messageId in MessageIds(old(messages))
      ensures ok <==> WithImage(old(Snapshot()), row).Some?
      ensures Snapshot() == if ok then WithImage(old(Snapshot()), row).value else old(Snapshot())
    {
      ok := row.id !in ImageIds(images) && row.messageId !in ImagedMessageIds(images) && row.messageId in MessageIds(messages);
      if ok {
        WithImageConsistent(Snapshot(), row);
        images := images + [row];
      }
    }

    /** `update chat ... where id = chatId`; a missing chat matches no row. */
    method UpdateChat(id: string, name: Option<string>, systemPrompt: Option<string>, updateAt: int)
      requires Valid()
      modifies this
      ensures Valid()
      ensures Snapshot() == WithChatFields(old(Snapshot()), id, name, systemPrompt, updateAt)
    {
      WithChatFieldsConsistent(Snapshot(), id, name, systemPrompt, updateAt);
      chats := SetChatFields(chats, id, name, systemPrompt, updateAt);
    }

    /**
     * `delete from chat where id = chatId`, with the cascades: the chat's
     * messages go, and with them the images of those messages.
     */
    method DeleteChat(id: string)
      requires Valid()
      modifies this
      ensures Valid()
      ensures Snapshot() == WithoutChat(old(Snapshot()), id)
      ensures id !in ChatIds(chats)
    {
      WithoutChatConsistent(Snapshot(), id);
      var db := WithoutChat(Snapshot(), id);
      chats, messages, images := db.chats, db.messages, db.images;
    }
  }
}
