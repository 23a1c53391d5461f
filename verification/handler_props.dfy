/**
 * What the chat handlers do to the tables, stated over their
 * specifications: which rows a request leaves behind on each branch, in
 * what order they join a chat's history, what the model session is seeded
 * with, and what a deletion removes.
 */
module HandlerProperties {
  import opened Wrappers
  import opened Seqs
  import opened Tables
  import opened History
  import opened Attachment
  import opened Store
  import opened Schema
  import opened Handlers

  /** Ids `uuidv4()` drew for a request: distinct, and unused in the tables. */
  predicate FreshFor(db: Db, ids: FreshIds) {
    && ids.userMessage != ids.modelMessage
    && ids.userMessage !in MessageIds(db.messages)
    && ids.modelMessage !in MessageIds(db.messages)
    && ids.image !in ImageIds(db.images)
  }

  /** A message inserted by the handlers, in the role and chat given. */
  function Row(id: string, content: string, role: Role, chatId: string, stamp: int): MessageRow {
    MessageRow(id, content, role, chatId, stamp)
  }

  // createChat

  /** Every refusal of `createChat` leaves the tables as they were. */
  lemma CreateChatRefusalWritesNothing(db: Db, stamp: int, session: Option<string>, id: string, content: string,
                                       image: FormValue, lang: string, summary: SummaryOutcome, modelFile: Option<ModelFile>,
                                       fragments: Option<seq<string>>, upload: Option<UploadResult>, ids: FreshIds, now: int)
    ensures var o := CreateChatOutcome(db, stamp, session, id, content, image, lang, summary, modelFile, fragments, upload, ids, now);
      !o.reply.Done? ==> o.db == db
  {
  }

  /**
   * Once the checks pass and the model answers, `createChat` streams one
   * record per fragment, each carrying the summary as `name`, after opening
   * an empty session with the prompt of the request's language; what it
   * writes is `CreateChatWrites` of the whole response.
   */
  lemma CreateChatStreams(db: Db, stamp: int, userId: string, id: string, content: string, image: FormValue,
                          lang: string, summary: SummaryOutcome, modelFile: Option<ModelFile>, fragments: seq<string>,
                          upload: Option<UploadResult>, ids: FreshIds, now: int)
    requires userId != "" && content != "" && id != "" && !summary.SummaryFailed?
    requires CheckAttachment(image).Success?
    requires CheckAttachment(image).value.Some? ==> modelFile.Some?
    ensures var attached := if CheckAttachment(image).value.Some? then modelFile else None;
      CreateChatOutcome(db, stamp, Some(userId), id, content, image, lang, summary, modelFile, Some(fragments), upload, ids, now)
      == Outcome(Done(OK, Records(fragments, RecordName(summary), id, userId)),
                 CreateChatWrites(db, stamp, userId, id, content, attached, lang, summary, Concat(fragments), upload, ids, now),
                 Some(ModelCall(SystemPromptFor(lang), [], MessageFor(content, attached))))
  {
  }

  /**
   * Without an attachment, a new chat holds exactly the USER message and
   * then the MODEL message with the whole streamed response; the chat row
   * carries the summary as its name and the prompt of its language; every
   * other chat's history is untouched.
   */
  lemma CreateChatWithoutImage(db: Db, stamp: int, userId: string, id: string, content: string,
                               lang: string, summary: SummaryOutcome, fullResponse: string,
                               upload: Option<UploadResult>, ids: FreshIds, now: int, other: string)
    requires DbConsistent(db) && FreshFor(db, ids)
    requires id !in ChatIds(db.chats) && other != id
    ensures var db' := CreateChatWrites(db, stamp, userId, id, content, None, lang, summary, fullResponse, upload, ids, now);
      && DbConsistent(db')
      && FindChat(db'.chats, id) == Some(ChatRow(id, userId, now, now, ChatName(summary), SystemPromptFor(lang)))
      && HistoryOf(db'.messages, db'.images, id)
         == [MessageView(Row(ids.userMessage, content, USER, id, stamp), None),
             MessageView(Row(ids.modelMessage, fullResponse, MODEL, id, stamp), None)]
      && HistoryOf(db'.messages, db'.images, other) == HistoryOf(db.messages, db.images, other)
  {
    var chat := ChatRow(id, userId, now, now, ChatName(summary), SystemPromptFor(lang));
    var user := Row(ids.userMessage, content, USER, id, stamp);
    var model := Row(ids.modelMessage, fullResponse, MODEL, id, stamp);
    WithChatConsistent(db, chat);
    var db1 := WithChat(db, chat).value;
    TextTurnInserts(db1, user, model);
    var db2 := WithMessage(db1, user).value;
    var db3 := WithMessage(db2, model).value;
    assert WithMessagePair(db1, user, model) == Some(db3);
    assert CreateChatWrites(db, stamp, userId, id, content, None, lang, summary, fullResponse, upload, ids, now) == db3;
    HistoryOfUnknownChat(db, id);
    TextTurnHistory(db1, db2, db3, user, model, id);
    TextTurnHistory(db1, db2, db3, user, model, other);
    FindChatUnique(db1.chats, chat);
  }

  /** Two message inserts into an existing chat on fresh, distinct ids both succeed. */
  lemma TextTurnInserts(db: Db, user: MessageRow, model: MessageRow)
    requires DbConsistent(db)
    requires user.id !in MessageIds(db.messages) && model.id !in MessageIds(db.messages) && user.id != model.id
    requires user.chatId in ChatIds(db.chats) && model.chatId == user.chatId
    ensures WithMessage(db, user).Some? && DbConsistent(WithMessage(db, user).value)
    ensures WithMessage(WithMessage(db, user).value, model).Some?
  {
    WithMessageConsistent(db, user);
  }

  /**
   * Two messages of one chat inserted in a row join that chat's history in
   * order, without images, and leave every other chat's history as it was.
   */
  lemma TextTurnHistory(db: Db, db1: Db, db2: Db, user: MessageRow, model: MessageRow, chatId: string)
    requires DbConsistent(db)
    requires WithMessage(db, user) == Some(db1) && WithMessage(db1, model) == Some(db2)
    requires model.chatId == user.chatId
    ensures DbConsistent(db2) && db2.chats == db.chats && db2.images == db.images
    ensures HistoryOf(db2.messages, db2.images, chatId)
         == HistoryOf(db.messages, db.images, chatId)
            + (if user.chatId == chatId then [MessageView(user, None), MessageView(model, None)] else [])
  {
    WithMessageConsistent(db, user);
    WithMessageConsistent(db1, model);
    HistoryAfterMessage(db, user, chatId);
    HistoryAfterMessage(db1, model, chatId);
    if user.chatId == chatId {
      SnocTwice(HistoryOf(db.messages, db.images, chatId), HistoryOf(db1.messages, db1.images, chatId),
                HistoryOf(db2.messages, db2.images, chatId), MessageView(user, None), MessageView(model, None));
    }
  }

  /**
   * With an attachment the file host stored, a new chat holds exactly one
   * message, the USER message joined with its image row, and no MODEL
   * message.
   */
  lemma CreateChatWithImage(db: Db, stamp: int, userId: string, id: string, content: string,
                            lang: string, summary: SummaryOutcome, mf: ModelFile, fullResponse: string,
                            upload: UploadResult, ids: FreshIds, now: int)
    requires DbConsistent(db) && FreshFor(db, ids)
    requires id !in ChatIds(db.chats) && upload.url != ""
    ensures var db' := CreateChatWrites(db, stamp, userId, id, content, Some(mf), lang, summary, fullResponse, Some(upload), ids, now);
      && DbConsistent(db')
      && FindChat(db'.chats, id) == Some(ChatRow(id, userId, now, now, ChatName(summary), SystemPromptFor(lang)))
      && HistoryOf(db'.messages, db'.images, id)
         == [MessageView(Row(ids.userMessage, content, USER, id, stamp),
                         Some(ImageRowFor(ids.image, upload, mf, ids.userMessage)))]
  {
    var chat := ChatRow(id, userId, now, now, ChatName(summary), SystemPromptFor(lang));
    var user := Row(ids.userMessage, content, USER, id, stamp);
    var im := ImageRowFor(ids.image, upload, mf, ids.userMessage);
    WithChatConsistent(db, chat);
    var db1 := WithChat(db, chat).value;
    WithMessageConsistent(db1, user);
    var db2 := WithMessage(db1, user).value;
    assert ids.userMessage !in ImagedMessageIds(db2.images);
    WithImageConsistent(db2, im);
    var db3 := WithImage(db2, im).value;
    assert CreateChatWrites(db, stamp, userId, id, content, Some(mf), lang, summary, fullResponse, Some(upload), ids, now) == db3;
    HistoryOfUnknownChat(db, id);
    HistoryAfterMessage(db1, user, id);
    HistoryAfterImage(db2, im, id);
    assert db2.messages[..|db2.messages| - 1] == db1.messages;
    FindChatUnique(db1.chats, chat);
  }

  /** When the file host returns no URL, only the chat row is written. */
  lemma CreateChatUploadFailed(db: Db, stamp: int, userId: string, id: string, content: string,
                               lang: string, summary: SummaryOutcome, mf: ModelFile, fullResponse: string,
                               upload: Option<UploadResult>, ids: FreshIds, now: int)
    requires DbConsistent(db)
    requires id !in ChatIds(db.chats) && !Uploaded(upload)
    ensures var db' := CreateChatWrites(db, stamp, userId, id, content, Some(mf), lang, summary, fullResponse, upload, ids, now);
      && db' == db.(chats := db.chats + [ChatRow(id, userId, now, now, ChatName(summary), SystemPromptFor(lang))])
      && HistoryOf(db'.messages, db'.images, id) == []
  {
    HistoryOfUnknownChat(db, id);
  }

  /** A chat id already taken makes the insert fail, and nothing is written at all. */
  lemma CreateChatTakenId(db: Db, stamp: int, userId: string, id: string, content: string, attached: Option<ModelFile>,
                          lang: string, summary: SummaryOutcome, fullResponse: string,
                          upload: Option<UploadResult>, ids: FreshIds, now: int)
    requires id in ChatIds(db.chats)
    ensures CreateChatWrites(db, stamp, userId, id, content, attached, lang, summary, fullResponse, upload, ids, now) == db
  {
  }

  // addMessage

  /** `addMessage` checks the content before it looks at the session at all. */
  lemma AddMessageNeedsContentFirst(db: Db, stamp: int, session: Option<string>, chatId: string,
                                    image: FormValue, modelFile: Option<ModelFile>, fragments: Option<seq<string>>,
                                    upload: Option<UploadResult>, ids: FreshIds, now: int)
    ensures AddMessageOutcome(db, stamp, session, chatId, "", image, modelFile, fragments, upload, ids, now)
         == Outcome(Refused(BAD_REQUEST, NEED_CONTENT), db, None)
  {
  }

  /** The chat `addMessage` found, with the ids and owner it was looked up by. */
  predicate OwnedChat(db: Db, chatId: string, userId: string, chat: ChatRow) {
    chat in db.chats && chat.id == chatId && chat.userId == userId
  }

  /**
   * Once the checks pass and the model answers, `addMessage` opens a
   * session seeded with the chat's stored history (as `recreateHistory`
   * rebuilds it) and its stored system prompt, streams one record per
   * fragment without a `name`, and writes `AddMessageWrites` of the whole
   * response.
   */
  lemma AddMessageStreams(db: Db, stamp: int, userId: string, chat: ChatRow, content: string, image: FormValue,
                          modelFile: Option<ModelFile>, fragments: seq<string>, upload: Option<UploadResult>,
                          ids: FreshIds, now: int)
    requires DbConsistent(db)
    requires userId != "" && content != "" && OwnedChat(db, chat.id, userId, chat)
    requires CheckAttachment(image).Success?
    requires CheckAttachment(image).value.Some? ==> modelFile.Some? && Truthy(modelFile.value.uri) && Truthy(modelFile.value.mimeType)
    ensures var attached := if CheckAttachment(image).value.Some? then modelFile else None;
      AddMessageOutcome(db, stamp, Some(userId), chat.id, content, image, modelFile, Some(fragments), upload, ids, now)
      == Outcome(Done(OK, Relayed(Records(fragments, None, chat.id, userId))),
                 AddMessageWrites(db, stamp, chat.id, content, attached, Concat(fragments), upload, ids, now),
                 Some(ModelCall(chat.systemPrompt, RecreateHistory(HistoryOf(db.messages, db.images, chat.id)),
                                MessageFor(content, attached))))
  {
    FindOwnedChatSpec(db.chats, chat.id, userId);
    FindChatUnique(db.chats, chat);
  }

  /** Refreshing `updateAt` keeps the history and changes only that column of the chat. */
  lemma RefreshedChat(db: Db, chat: ChatRow, now: int)
    requires DbConsistent(db) && chat in db.chats
    ensures var db' := WithChatFields(db, chat.id, None, None, now);
      && DbConsistent(db')
      && FindChat(db'.chats, chat.id) == Some(chat.(updateAt := now))
      && db'.messages == db.messages && db'.images == db.images
  {
    var db' := WithChatFields(db, chat.id, None, None, now);
    WithChatFieldsConsistent(db, chat.id, None, None, now);
    SetChatFieldsSpec(db.chats, chat.id, None, None, now);
    var i :| 0 <= i < |db.chats| && db.chats[i] == chat;
    assert db'.chats[i] == chat.(updateAt := now);
    FindChatUnique(db'.chats, chat.(updateAt := now));
  }

  /**
   * A text turn: the chat's history is the old one followed by the USER
   * message and the MODEL message with the whole response, and the chat's
   * `updateAt` is now.
   */
  lemma AddMessageTextTurn(db: Db, stamp: int, chat: ChatRow, content: string, fullResponse: string,
                           upload: Option<UploadResult>, ids: FreshIds, now: int)
    requires DbConsistent(db) && FreshFor(db, ids) && chat in db.chats
    ensures var db' := AddMessageWrites(db, stamp, chat.id, content, None, fullResponse, upload, ids, now);
      && DbConsistent(db')
      && FindChat(db'.chats, chat.id) == Some(chat.(updateAt := now))
      && HistoryOf(db'.messages, db'.images, chat.id)
         == HistoryOf(db.messages, db.images, chat.id)
            + [MessageView(Row(ids.userMessage, content, USER, chat.id, stamp), None),
               MessageView(Row(ids.modelMessage, fullResponse, MODEL, chat.id, stamp), None)]
  {
    var user := Row(ids.userMessage, content, USER, chat.id, stamp);
    var model := Row(ids.modelMessage, fullResponse, MODEL, chat.id, stamp);
    assert chat.id in ChatIds(db.chats);
    TextTurnInserts(db, user, model);
    var db1 := WithMessage(db, user).value;
    var db2 := WithMessage(db1, model).value;
    TextTurnHistory(db, db1, db2, user, model, chat.id);
    assert AddMessageWrites(db, stamp, chat.id, content, None, fullResponse, upload, ids, now)
        == WithChatFields(db2, chat.id, None, None, now);
    RefreshedChat(db2, chat, now);
  }

  /** The three inserts of an attached turn all succeed on fresh ids, and keep the tables consistent. */
  lemma ImageTurnInserts(db: Db, stamp: int, chat: ChatRow, content: string, im: ImageRow,
                         fullResponse: string, ids: FreshIds)
    requires DbConsistent(db) && FreshFor(db, ids) && chat in db.chats
    requires im.id == ids.image && im.messageId == ids.userMessage
    ensures var user := Row(ids.userMessage, content, USER, chat.id, stamp);
      && WithMessage(db, user).Some?
      && var db1 := WithMessage(db, user).value;
      && DbConsistent(db1)
      && WithImage(db1, im).Some?
      && var db2 := WithImage(db1, im).value;
      && DbConsistent(db2)
      && WithMessage(db2, Row(ids.modelMessage, fullResponse, MODEL, chat.id, stamp)).Some?
      && DbConsistent(WithMessage(db2, Row(ids.modelMessage, fullResponse, MODEL, chat.id, stamp)).value)
  {
    var user := Row(ids.userMessage, content, USER, chat.id, stamp);
    var model := Row(ids.modelMessage, fullResponse, MODEL, chat.id, stamp);
    WithMessageConsistent(db, user);
    var db1 := WithMessage(db, user).value;
    assert ids.userMessage !in ImagedMessageIds(db1.images);
    WithImageConsistent(db1, im);
    var db2 := WithImage(db1, im).value;
    WithMessageConsistent(db2, model);
  }

  /** A USER message followed by its image joins the chat's history as one view carrying the image. */
  lemma UserWithImageHistory(db: Db, db1: Db, db2: Db, user: MessageRow, im: ImageRow)
    requires DbConsistent(db)
    requires WithMessage(db, user) == Some(db1) && WithImage(db1, im) == Some(db2)
    requires im.messageId == user.id
    ensures DbConsistent(db2)
    ensures HistoryOf(db2.messages, db2.images, user.chatId)
         == HistoryOf(db.messages, db.images, user.chatId) + [MessageView(user, Some(im))]
  {
    WithMessageConsistent(db, user);
    WithImageConsistent(db1, im);
    assert db1.messages[..|db1.messages| - 1] == db.messages;
    HistoryAfterImage(db1, im, user.chatId);
  }

  /** The rows of an attached turn join the chat's history in order: USER with its image, then MODEL. */
  lemma ImageTurnHistory(db: Db, db1: Db, db2: Db, db3: Db, user: MessageRow, im: ImageRow, model: MessageRow)
    requires DbConsistent(db)
    requires WithMessage(db, user) == Some(db1) && WithImage(db1, im) == Some(db2) && WithMessage(db2, model) == Some(db3)
    requires im.messageId == user.id && model.chatId == user.chatId
    ensures DbConsistent(db3)
    ensures HistoryOf(db3.messages, db3.images, user.chatId)
         == HistoryOf(db.messages, db.images, user.chatId) + [MessageView(user, Some(im)), MessageView(model, None)]
  {
    UserWithImageHistory(db, db1, db2, user, im);
    WithMessageConsistent(db2, model);
    HistoryAfterMessage(db2, model, user.chatId);
    SnocTwice(HistoryOf(db.messages, db.images, user.chatId), HistoryOf(db2.messages, db2.images, user.chatId),
              HistoryOf(db3.messages, db3.images, user.chatId), MessageView(user, Some(im)), MessageView(model, None));
  }

  /**
   * The statements of a turn with an image row, on fresh ids: the history
   * grows by the USER message joined with that row, then the MODEL message,
   * and the chat's `updateAt` is now.
   */
  lemma ImageTurnWrites(db: Db, stamp: int, chat: ChatRow, content: string, im: ImageRow,
                        fullResponse: string, ids: FreshIds, now: int)
    requires DbConsistent(db) && FreshFor(db, ids) && chat in db.chats
    requires im.id == ids.image && im.messageId == ids.userMessage
    ensures var db' := TurnWrites(db, stamp, chat.id, content, Some(im), fullResponse, ids, now);
      && DbConsistent(db')
      && FindChat(db'.chats, chat.id) == Some(chat.(updateAt := now))
      && HistoryOf(db'.messages, db'.images, chat.id)
         == HistoryOf(db.messages, db.images, chat.id)
            + [MessageView(Row(ids.userMessage, content, USER, chat.id, stamp), Some(im)),
               MessageView(Row(ids.modelMessage, fullResponse, MODEL, chat.id, stamp), None)]
  {
    var user := Row(ids.userMessage, content, USER, chat.id, stamp);
    var model := Row(ids.modelMessage, fullResponse, MODEL, chat.id, stamp);
    ImageTurnInserts(db, stamp, chat, content, im, fullResponse, ids);
    var db1 := WithMessage(db, user).value;
    var db2 := WithImage(db1, im).value;
    var db3 := WithMessage(db2, model).value;
    ImageTurnHistory(db, db1, db2, db3, user, im, model);
    assert TurnWrites(db, stamp, chat.id, content, Some(im), fullResponse, ids, now)
        == WithChatFields(db3, chat.id, None, None, now);
    RefreshedChat(db3, chat, now);
  }

  /**
   * A turn with an attachment the file host stored: the history grows by
   * the USER message joined with the image row as the handler writes it
   * (the file host's URL, key and name, and empty file metadata), then the
   * MODEL message, and the chat's `updateAt` is now.
   */
  lemma AddMessageImageTurn(db: Db, stamp: int, chat: ChatRow, content: string, mf: ModelFile,
                            fullResponse: string, upload: UploadResult, ids: FreshIds, now: int)
    requires DbConsistent(db) && FreshFor(db, ids) && chat in db.chats
    requires upload.url != ""
    ensures var db' := AddMessageWrites(db, stamp, chat.id, content, Some(mf), fullResponse, Some(upload), ids, now);
      && DbConsistent(db')
      && FindChat(db'.chats, chat.id) == Some(chat.(updateAt := now))
      && HistoryOf(db'.messages, db'.images, chat.id)
         == HistoryOf(db.messages, db.images, chat.id)
            + [MessageView(Row(ids.userMessage, content, USER, chat.id, stamp),
                           Some(ImageRow(ids.image, upload.url, Some(upload.key), upload.name, "", "", "", "", "",
                                         ids.userMessage))),
               MessageView(Row(ids.modelMessage, fullResponse, MODEL, chat.id, stamp), None)]
  {
    ImageTurnWrites(db, stamp, chat, content, AddMessageImageRowAsWritten(ids.image, upload, ids.userMessage),
                    fullResponse, ids, now);
  }

  /** When the file host returns no URL after an attached turn, nothing at all is written. */
  lemma AddMessageUploadFailed(db: Db, stamp: int, chatId: string, content: string, mf: ModelFile,
                               fullResponse: string, upload: Option<UploadResult>, ids: FreshIds, now: int)
    requires !Uploaded(upload)
    ensures AddMessageWrites(db, stamp, chatId, content, Some(mf), fullResponse, upload, ids, now) == db
  {
  }

  /**
   * When the model call fails, the chat's history grows by the canned
   * apology alone, as a MODEL message, and the answer is 200.
   */
  lemma AddMessageApology(db: Db, stamp: int, userId: string, chat: ChatRow, content: string,
                          upload: Option<UploadResult>, ids: FreshIds, now: int)
    requires DbConsistent(db) && FreshFor(db, ids)
    requires userId != "" && content != "" && OwnedChat(db, chat.id, userId, chat)
    ensures var o := AddMessageOutcome(db, stamp, Some(userId), chat.id, content, Missing, None, None, upload, ids, now);
      && o.reply == Done(OK, Apologized)
      && DbConsistent(o.db)
      && FindChat(o.db.chats, chat.id) == Some(chat.(updateAt := now))
      && HistoryOf(o.db.messages, o.db.images, chat.id)
         == HistoryOf(db.messages, db.images, chat.id)
            + [MessageView(Row(ids.modelMessage, CANNED_REPLY, MODEL, chat.id, stamp), None)]
  {
    var canned := Row(ids.modelMessage, CANNED_REPLY, MODEL, chat.id, stamp);
    assert chat.id in ChatIds(db.chats);
    WithMessageConsistent(db, canned);
    var db1 := WithMessage(db, canned).value;
    ApologyBranch(db, stamp, userId, chat, content, upload, ids, now);
    HistoryAfterMessage(db, canned, chat.id);
    RefreshedChat(db1, chat, now);
  }

  /** Without a model answer the request takes the apology branch for the chat it found. */
  lemma ApologyBranch(db: Db, stamp: int, userId: string, chat: ChatRow, content: string,
                      upload: Option<UploadResult>, ids: FreshIds, now: int)
    requires DbConsistent(db)
    requires userId != "" && content != "" && OwnedChat(db, chat.id, userId, chat)
    ensures var o := AddMessageOutcome(db, stamp, Some(userId), chat.id, content, Missing, None, None, upload, ids, now);
      && o.reply == Apology(db, stamp, chat.id, ids, now, None).reply
      && o.db == Apology(db, stamp, chat.id, ids, now, None).db
  {
    FindOwnedChatSpec(db.chats, chat.id, userId);
    FindChatUnique(db.chats, chat);
  }

  /** A chat of another user, or no chat, is answered 404 and nothing is written. */
  lemma AddMessageOwnerScoped(db: Db, stamp: int, userId: string, chatId: string, content: string,
                              image: FormValue, modelFile: Option<ModelFile>, fragments: Option<seq<string>>,
                              upload: Option<UploadResult>, ids: FreshIds, now: int)
    requires DbConsistent(db)
    requires userId != "" && content != ""
    requires !exists c :: c in db.chats && c.id == chatId && c.userId == userId
    ensures AddMessageOutcome(db, stamp, Some(userId), chatId, content, image, modelFile, fragments, upload, ids, now)
         == Outcome(Refused(NOT_FOUND, NOT_FOUND_MESSAGE), db, None)
  {
    FindOwnedChatSpec(db.chats, chatId, userId);
  }

  // The image row of an attached `addMessage` turn.

  /**
   * As written, an attached `addMessage` turn is replayed without its
   * file: the model is sent the text with the file reference, but the row
   * stored for the attachment has empty file metadata, so the next
   * session's seed grows by the USER turn with its text alone, then the
   * MODEL turn with the response.
   */
  lemma AsWrittenReplayDropsFile(db: Db, stamp: int, userId: string, chat: ChatRow, content: string, image: FormValue,
                                 mf: ModelFile, fragments: seq<string>, upload: UploadResult, ids: FreshIds, now: int)
    requires DbConsistent(db) && FreshFor(db, ids) && upload.url != ""
    requires userId != "" && content != "" && OwnedChat(db, chat.id, userId, chat)
    requires CheckAttachment(image).Success? && CheckAttachment(image).value.Some?
    requires Truthy(mf.displayName) && Truthy(mf.uri) && Truthy(mf.mimeType)
    ensures var o := AddMessageOutcome(db, stamp, Some(userId), chat.id, content, image, Some(mf), Some(fragments),
                                       Some(upload), ids, now);
      && o.call.Some?
      && o.call.value.message == TextWithFile(content, mf.displayName, mf.uri, mf.mimeType)
      && RecreateHistory(HistoryOf(o.db.messages, o.db.images, chat.id))
         == o.call.value.history
            + [HistoryItem(UserTurn, [TextPart(content)]), HistoryItem(ModelTurn, [TextPart(Concat(fragments))])]
  {
    AddMessageStreams(db, stamp, userId, chat, content, image, Some(mf), fragments, Some(upload), ids, now);
    var user := Row(ids.userMessage, content, USER, chat.id, stamp);
    var model := Row(ids.modelMessage, Concat(fragments), MODEL, chat.id, stamp);
    var im := AddMessageImageRowAsWritten(ids.image, upload, ids.userMessage);
    var h := HistoryOf(db.messages, db.images, chat.id);
    AddMessageImageTurn(db, stamp, chat, content, mf, Concat(fragments), upload, ids, now);
    RecreateHistoryAppend(h, [MessageView(user, Some(im)), MessageView(model, None)]);
    AsWrittenTurnsReplay(user, im, model);
  }

  /** The two turns an exchange adds when its image row has empty file metadata. */
  lemma AsWrittenTurnsReplay(user: MessageRow, im: ImageRow, model: MessageRow)
    requires user.role == USER && model.role == MODEL && im.displayName == ""
    ensures RecreateHistory([MessageView(user, Some(im)), MessageView(model, None)])
         == [HistoryItem(UserTurn, [TextPart(user.content)]), HistoryItem(ModelTurn, [TextPart(model.content)])]
  {
    var added := [MessageView(user, Some(im)), MessageView(model, None)];
    assert !HasFileReference(Some(im));
    assert added[1..] == [MessageView(model, None)] && added[1..][1..] == [];
    assert RecreateHistory(added[1..]) == [ToTurn(MessageView(model, None))];
    assert RecreateHistory(added) == [ToTurn(added[0])] + RecreateHistory(added[1..]);
  }

  /**
   * With the row built from the model file, as `createChat` builds it, an
   * attached turn is replayed to the next session with the same file
   * reference the model was sent: the seed history grows by the USER turn
   * with its text and that file, then the MODEL turn with the response.
   */
  lemma AttachedTurnIsReplayed(db: Db, stamp: int, chat: ChatRow, content: string, mf: ModelFile,
                               fullResponse: string, upload: UploadResult, ids: FreshIds, now: int)
    requires DbConsistent(db) && FreshFor(db, ids) && chat in db.chats && upload.url != ""
    requires Truthy(mf.displayName) && Truthy(mf.uri) && Truthy(mf.mimeType)
    ensures var db' := CorrectedAddMessageWrites(db, stamp, chat.id, content, Some(mf), fullResponse, Some(upload), ids, now);
      RecreateHistory(HistoryOf(db'.messages, db'.images, chat.id))
      == RecreateHistory(HistoryOf(db.messages, db.images, chat.id))
         + [HistoryItem(UserTurn, [TextPart(content),
                                   FilePart(content, FileData(mf.displayName.value, mf.uri.value, mf.mimeType.value))]),
            HistoryItem(ModelTurn, [TextPart(fullResponse)])]
  {
    var user := Row(ids.userMessage, content, USER, chat.id, stamp);
    var model := Row(ids.modelMessage, fullResponse, MODEL, chat.id, stamp);
    var im := ImageRowFor(ids.image, upload, mf, ids.userMessage);
    var h := HistoryOf(db.messages, db.images, chat.id);
    ImageTurnWrites(db, stamp, chat, content, im, fullResponse, ids, now);
    RecreateHistoryAppend(h, [MessageView(user, Some(im)), MessageView(model, None)]);
    AttachedTurnsReplay(user, im, model, mf);
  }

  /** The two turns an attached exchange adds, as the next session receives them. */
  lemma AttachedTurnsReplay(user: MessageRow, im: ImageRow, model: MessageRow, mf: ModelFile)
    requires user.role == USER && model.role == MODEL
    requires im.displayName == mf.displayName.GetOr("") && im.fileUri == mf.uri.GetOr("")
          && im.mimeType == mf.mimeType.GetOr("")
    requires Truthy(mf.displayName) && Truthy(mf.uri) && Truthy(mf.mimeType)
    ensures RecreateHistory([MessageView(user, Some(im)), MessageView(model, None)])
         == [HistoryItem(UserTurn, [TextPart(user.content),
                                    FilePart(user.content, FileData(mf.displayName.value, mf.uri.value, mf.mimeType.value))]),
             HistoryItem(ModelTurn, [TextPart(model.content)])]
  {
    var added := [MessageView(user, Some(im)), MessageView(model, None)];
    assert HasFileReference(Some(im));
    assert added[1..] == [MessageView(model, None)] && added[1..][1..] == [];
    assert RecreateHistory(added[1..]) == [ToTurn(MessageView(model, None))];
    assert RecreateHistory(added) == [ToTurn(added[0])] + RecreateHistory(added[1..]);
  }

  // deleteChat

  /** The images the cascade removes are exactly those the chat's histories carry. */
  lemma RemovedImagesAreHistoryImages(db: Db, id: string, im: ImageRow)
    requires DbConsistent(db)
    ensures (im in db.images && im !in WithoutChat(db, id).images)
        <==> exists v :: v in HistoryOf(db.messages, db.images, id) && v.image == Some(im)
  {
    if im in db.images && im !in WithoutChat(db, id).images {
      RemovedImageInHistory(db, id, im);
    }
    if exists v :: v in HistoryOf(db.messages, db.images, id) && v.image == Some(im) {
      var v :| v in HistoryOf(db.messages, db.images, id) && v.image == Some(im);
      HistoryImageRemoved(db, id, v);
    }
  }

  /** An image the cascade removes is carried by some message view of the chat's history. */
  lemma RemovedImageInHistory(db: Db, id: string, im: ImageRow)
    requires DbConsistent(db) && im in db.images && im !in WithoutChat(db, id).images
    ensures exists v :: v in HistoryOf(db.messages, db.images, id) && v.image == Some(im)
  {
    WithoutChatRemoves(db, id);
    var f := Filter(db.messages, InChat(id));
    var h := HistoryOf(db.messages, db.images, id);
    var m :| m in db.messages && m.id == im.messageId && m.chatId == id;
    assert m in f;
    var j :| 0 <= j < |f| && f[j] == m;
    ImageForUnique(db.images, im);
    assert h[j].image == Some(im);
    assert h[j] in h;
  }

  /** An image the chat's history carries is one the cascade removes. */
  lemma HistoryImageRemoved(db: Db, id: string, v: MessageView)
    requires DbConsistent(db) && v in HistoryOf(db.messages, db.images, id) && v.image.Some?
    ensures v.image.value in db.images && v.image.value !in WithoutChat(db, id).images
  {
    WithoutChatRemoves(db, id);
    var f := Filter(db.messages, InChat(id));
    var h := HistoryOf(db.messages, db.images, id);
    var j :| 0 <= j < |h| && h[j] == v;
    assert f[j] in f;
    assert v.message == f[j] && v.image.value.messageId == f[j].id;
  }

  /**
   * `deleteChat` on a chat of the caller answers 204 and applies the
   * cascade; it calls the file host's delete exactly when some removed
   * image has a non-empty key, and then with exactly those keys.
   */
  lemma DeleteChatKeys(db: Db, userId: string, chat: ChatRow)
    requires DbConsistent(db) && userId != "" && OwnedChat(db, chat.id, userId, chat)
    ensures var o := DeleteChatOutcome(db, Some(userId), chat.id);
      && o.0 == Done(NO_CONTENT, ())
      && o.1 == WithoutChat(db, chat.id)
      && (o.2.Some? <==> exists im :: im in db.images && im !in o.1.images && Truthy(im.key))
      && (o.2.Some? ==> forall k :: k in o.2.value
                           <==> exists im :: im in db.images && im !in o.1.images && im.key == Some(k) && k != "")
  {
    DeleteOwnedChat(db, userId, chat);
    var keys := ImageKeys(HistoryOf(db.messages, db.images, chat.id));
    var db' := WithoutChat(db, chat.id);
    forall k ensures k in keys <==> exists im :: im in db.images && im !in db'.images && im.key == Some(k) && k != "" {
      RemovedKey(db, chat.id, k);
    }
    if exists im :: im in db.images && im !in db'.images && Truthy(im.key) {
      var im :| im in db.images && im !in db'.images && Truthy(im.key);
      RemovedKey(db, chat.id, im.key.value);
    }
    if |keys| > 0 {
      assert keys[0] in keys;
    }
  }

  /** On the caller's own chat, `deleteChat` takes the branch that deletes and sends the history's keys. */
  lemma DeleteOwnedChat(db: Db, userId: string, chat: ChatRow)
    requires DbConsistent(db) && userId != "" && OwnedChat(db, chat.id, userId, chat)
    ensures var keys := ImageKeys(HistoryOf(db.messages, db.images, chat.id));
      DeleteChatOutcome(db, Some(userId), chat.id)
      == (Done(NO_CONTENT, ()), WithoutChat(db, chat.id), if |keys| > 0 then Some(keys) else None)
  {
    FindOwnedChatSpec(db.chats, chat.id, userId);
  }

  /** A key is sent to the file host exactly when it is the non-empty key of a removed image. */
  lemma RemovedKey(db: Db, id: string, k: string)
    requires DbConsistent(db)
    ensures k in ImageKeys(HistoryOf(db.messages, db.images, id))
        <==> exists im :: im in db.images && im !in WithoutChat(db, id).images && im.key == Some(k) && k != ""
  {
    if k in ImageKeys(HistoryOf(db.messages, db.images, id)) {
      SentKeyIsRemoved(db, id, k);
    }
    if exists im :: im in db.images && im !in WithoutChat(db, id).images && im.key == Some(k) && k != "" {
      var im :| im in db.images && im !in WithoutChat(db, id).images && im.key == Some(k) && k != "";
      RemovedKeyIsSent(db, id, im);
    }
  }

  lemma SentKeyIsRemoved(db: Db, id: string, k: string)
    requires DbConsistent(db) && k in ImageKeys(HistoryOf(db.messages, db.images, id))
    ensures exists im :: im in db.images && im !in WithoutChat(db, id).images && im.key == Some(k) && k != ""
  {
    var v :| v in HistoryOf(db.messages, db.images, id) && ImageKeyOf(v) == Some(k);
    HistoryImageRemoved(db, id, v);
    assert v.image.value.key == Some(k);
  }

  lemma RemovedKeyIsSent(db: Db, id: string, im: ImageRow)
    requires DbConsistent(db) && im in db.images && im !in WithoutChat(db, id).images && Truthy(im.key)
    ensures im.key.value in ImageKeys(HistoryOf(db.messages, db.images, id))
  {
    RemovedImageInHistory(db, id, im);
    var v :| v in HistoryOf(db.messages, db.images, id) && v.image == Some(im);
    assert ImageKeyOf(v) == im.key;
  }

  /** Someone else's chat, or a missing one, is answered 404 and nothing is deleted. */
  lemma DeleteChatOwnerScoped(db: Db, userId: string, id: string)
    requires DbConsistent(db) && userId != ""
    requires !exists c :: c in db.chats && c.id == id && c.userId == userId
    ensures DeleteChatOutcome(db, Some(userId), id) == (Refused(NOT_FOUND, NOT_FOUND_MESSAGE), db, None)
  {
    FindOwnedChatSpec(db.chats, id, userId);
  }

  // updateChat

  /**
   * An accepted update of an existing chat sets the name and the system
   * prompt the body carries, always sets `updateAt` to now, keeps the id,
   * owner and creation time, and answers with the updated chat and its
   * histories; no other row changes.
   */
  lemma UpdateChatApplies(db: Db, session: Option<string>, chat: ChatRow, body: Json, now: int)
    requires DbConsistent(db) && SignedIn(session) && chat in db.chats
    requires ParseUpdateChat(body).Some?
    ensures var patch := ParseUpdateChat(body).value;
      var updated := chat.(name := patch.name.GetOr(chat.name),
                           systemPrompt := patch.systemPrompt.GetOr(chat.systemPrompt),
                           updateAt := now);
      var o := UpdateChatOutcome(db, session, chat.id, body, now);
      && o.0 == Done(OK, Some(ChatView(updated, HistoryOf(db.messages, db.images, chat.id))))
      && DbConsistent(o.1)
      && FindChat(o.1.chats, chat.id) == Some(updated)
      && (forall c | c in db.chats && c.id != chat.id :: c in o.1.chats)
      && o.1.messages == db.messages && o.1.images == db.images
  {
    var patch := ParseUpdateChat(body).value;
    FindChatUnique(db.chats, chat);
    WithChatFieldsSets(db, chat, patch.name, patch.systemPrompt, now);
  }

  /** The client's own `updateAt` never reaches the row: the outcome is the same whatever valid value it sends. */
  lemma UpdateChatIgnoresClientTimestamp(db: Db, session: Option<string>, id: string,
                                         m: map<string, Json>, t: string, now: int)
    requires IsDatetime(t)
    requires "updateAt" !in m || HasDatetime(m, "updateAt")
    ensures UpdateChatOutcome(db, session, id, JObj(m["updateAt" := JStr(t)]), now)
         == UpdateChatOutcome(db, session, id, JObj(m), now)
  {
    var m' := m["updateAt" := JStr(t)];
    assert HasDatetime(m', "updateAt");
    forall k | k in {"name", "systemPrompt"} ensures (k in m' <==> k in m) && (k in m ==> m'[k] == m[k]) {
      assert k != "updateAt";
    }
    assert UpdateChatSchema(JObj(m')) <==> UpdateChatSchema(JObj(m));
  }

  /** Like `getChat`, `updateChat` looks the chat up by id alone: any signed-in user gets the same outcome. */
  lemma UpdateChatNoOwnerCheck(db: Db, userA: string, userB: string, id: string, body: Json, now: int)
    requires userA != "" && userB != ""
    ensures UpdateChatOutcome(db, Some(userA), id, body, now) == UpdateChatOutcome(db, Some(userB), id, body, now)
  {
  }

  // getChat and getAllChats

  /** `getChat` does not check the owner either. */
  lemma GetChatNoOwnerCheck(db: Db, userA: string, userB: string, id: string)
    requires userA != "" && userB != ""
    ensures GetChat(db, Some(userA), id) == GetChat(db, Some(userB), id)
  {
  }

  /**
   * When every message row carries the same `createdAt` (as when they were
   * all written within one load of the table declaration, whose default is
   * evaluated once per load), the ascending order `getAllChats` asks for
   * leaves each chat's messages in storage order.
   */
  lemma GetAllChatsStorageOrder(db: Db, userId: string, t: int, v: ChatView)
    requires userId != ""
    requires forall m | m in db.messages :: m.createdAt == t
    requires GetAllChats(db, Some(userId)).Done?
    requires v in GetAllChats(db, Some(userId)).body
    ensures v.histories == HistoryOf(db.messages, db.images, v.chat.id)
  {
    ChatsOfOwnerFromViews(db.chats, db.messages, db.images, userId, v);
    var cs := Filter(db.chats, OwnedBy(userId));
    var views := ViewsOf(cs, db.messages, db.images);
    var i :| 0 <= i < |views| && views[i] == v;
    var h := HistoryOf(db.messages, db.images, cs[i].id);
    var f := Filter(db.messages, InChat(cs[i].id));
    forall j | 0 <= j < |h| ensures h[j].message.createdAt == t {
      assert h[j].message == f[j] && f[j] in f;
    }
    UniformTimestampsKeepStorageOrder(h, t);
  }
}
