/**
 * The chat route handlers: `createChat`, `addMessage`, `updateChat`,
 * `deleteChat`, `getChat` and `getAllChats`.
 *
 * Everything a handler receives from outside the database is a parameter:
 * the session's user id, the multipart fields, the outcome of each call to
 * the model provider and to the file host, the fresh ids `uuidv4()` would
 * draw and the time `new Date()` would read. Each state-changing handler is
 * a method on the store, specified by a function (`...Outcome`) that says,
 * from the tables before the request, what it answers, which rows it
 * leaves behind and which call it makes to the model.
 */
module Handlers {
  import opened Wrappers
  import opened Seqs
  import opened Tables
  import opened History
  import opened Attachment
  import opened Store
  import opened Schema

  const OK: int := 200
  const NO_CONTENT: int := 204
  const UNAUTHORIZED: int := 401
  const NOT_FOUND: int := 404
  const UNPROCESSABLE_ENTITY: int := 422
  const INTERNAL_SERVER_ERROR: int := 500

  const UNAUTHORIZED_MESSAGE: string := "Unauthorized"
  const NOT_FOUND_MESSAGE: string := "Not Found"
  /** The body the application's error hook sends for anything a handler throws. */
  const INTERNAL_ERROR_MESSAGE: string := "Internal Server Error"
  const NEED_MESSAGE: string := "We need message"
  const NEED_ID: string := "We need the id"
  const NEED_CONTENT: string := "We need content"
  /** The MODEL message `addMessage` stores when the model call fails. */
  const CANNED_REPLY: string := "I'm sorry, I'm having trouble processing your request right now."

  /** The two system instructions. Their wording is not part of this model; only that they differ is. */
  const EN_PROMPT: string := "SYSTEM_INSTRUCTION_ENGLISH"
  const FR_PROMPT: string := "SYSTEM_INSTRUCTION_FRENCH"

  /**
   * An HTTP answer: a body with a success status, an error status with its
   * `message`, or the request validator's error body.
   */
  datatype Reply<+T> = Done(status: int, body: T) | Refused(status: int, message: string) | Invalid(status: int)

  /** One newline-terminated JSON record written to the response stream. */
  datatype StreamRecord = StreamRecord(text: string, name: Option<string>, id: string, userId: string)

  /** The summary call: it threw (or its text was not JSON), it had no `summary` key, or it gave one. */
  datatype SummaryOutcome = SummaryFailed | NoSummaryKey | Summary(text: string)

  /** The file reference the model provider returns for an uploaded image; each field may be undefined. */
  datatype ModelFile = ModelFile(displayName: Option<string>, uri: Option<string>, mimeType: Option<string>, sizeBytes: Option<string>)

  /** The file host's answer to an upload: the public URL, the file key and the stored name. */
  datatype UploadResult = UploadResult(url: string, key: string, name: string)

  /** The ids `uuidv4()` draws, in the roles they are drawn for. */
  datatype FreshIds = FreshIds(userMessage: string, modelMessage: string, image: string)

  /** What `sendMessageStream` is given: the text, or the text and the file reference. */
  datatype ModelMessage =
    | PlainText(text: string)
    | TextWithFile(text: string, displayName: Option<string>, fileUri: Option<string>, mimeType: Option<string>)

  /** The model session a handler opens and the message it sends on it. */
  datatype ModelCall = ModelCall(systemInstruction: string, history: seq<HistoryItem>, message: ModelMessage)

  /** What `addMessage` answers with after the checks: the stream, or the status of the apology. */
  datatype AddBody = Relayed(records: seq<StreamRecord>) | Apologized

  /** A handler's answer, the tables it leaves, and the model call it made, if it got that far. */
  datatype Outcome<+T> = Outcome(reply: Reply<T>, db: Db, call: Option<ModelCall>)

  /** A JavaScript string value that is defined and non-empty. */
  predicate Truthy(v: Option<string>) {
    v.Some? && v.value != ""
  }

  /** `session?.userId` is truthy. */
  predicate SignedIn(session: Option<string>) {
    Truthy(session)
  }

  /** The system instruction for the request's `lang` field. */
  function SystemPromptFor(lang: string): (r: string)
    ensures r == EN_PROMPT <==> lang == "EN"
    ensures r == FR_PROMPT <==> lang != "EN"
  {
    if lang == "EN" then EN_PROMPT else FR_PROMPT
  }

  /** The stored chat name: the summary, or the column default when the summary has no `summary` key. */
  function ChatName(summary: SummaryOutcome): string {
    if summary.Summary? then summary.text else CHAT_NAME_DEFAULT
  }

  /** The `name` of `createChat`'s records; an undefined name is left out of the JSON. */
  function RecordName(summary: SummaryOutcome): Option<string> {
    if summary.Summary? then Some(summary.text) else None
  }

  /** `data?.ufsUrl` is truthy. */
  predicate Uploaded(upload: Option<UploadResult>) {
    upload.Some? && upload.value.url != ""
  }

  function MessageFor(content: string, attached: Option<ModelFile>): ModelMessage {
    match attached
    case None => PlainText(content)
    case Some(mf) => TextWithFile(content, mf.displayName, mf.uri, mf.mimeType)
  }

  /** The records written for a stream of fragments: one per fragment, in order. */
  function Records(fragments: seq<string>, name: Option<string>, id: string, userId: string): seq<StreamRecord> {
    seq(|fragments|, i requires 0 <= i < |fragments| => StreamRecord(fragments[i], name, id, userId))
  }

  /**
   * The stream loop: append each fragment's text to `fullResponse` and
   * write one record for it.
   */
  method RelayFragments(fragments: seq<string>, name: Option<string>, id: string, userId: string)
    returns (fullResponse: string, records: seq<StreamRecord>)
    ensures fullResponse == Concat(fragments)
    ensures |records| == |fragments|
    ensures forall i :: 0 <= i < |fragments| ==> records[i] == StreamRecord(fragments[i], name, id, userId)
    ensures records == Records(fragments, name, id, userId)
  {
    fullResponse, records := "", [];
    var k := 0;
    while k < |fragments|
      invariant 0 <= k <= |fragments|
      invariant fullResponse == Concat(fragments[..k])
      invariant |records| == k
      invariant forall i :: 0 <= i < k ==> records[i] == StreamRecord(fragments[i], name, id, userId)
    {
      ConcatSnoc(fragments[..k], fragments[k]);
      assert fragments[..k + 1] == fragments[..k] + [fragments[k]];
      fullResponse := fullResponse + fragments[k];
      records := records + [StreamRecord(fragments[k], name, id, userId)];
      k := k + 1;
    }
    assert fragments[..k] == fragments;
  }

  /** The image row written for an accepted attachment, with the model file's metadata. */
  function ImageRowFor(id: string, upload: UploadResult, mf: ModelFile, messageId: string): ImageRow {
    ImageRow(id, upload.url, Some(upload.key), upload.name,
             mf.mimeType.GetOr(""), mf.sizeBytes.GetOr(""), "",
             mf.displayName.GetOr(""), mf.uri.GetOr(""), messageId)
  }

  /**
   * The image row `addMessage` writes as the handler is written: the
   * metadata is read from the browser file, which has no `mimeType`,
   * `sizeBytes`, `displayName` or `uri` property, so all four are `""`.
   */
  function AddMessageImageRowAsWritten(id: string, upload: UploadResult, messageId: string): ImageRow {
    ImageRow(id, upload.url, Some(upload.key), upload.name, "", "", "", "", "", messageId)
  }

  // createChat

  /** What `createChat` persists once the stream has ended. */
  function CreateChatWrites(db: Db, stamp: int, userId: string, id: string, content: string,
                            attached: Option<ModelFile>, lang: string, summary: SummaryOutcome,
                            fullResponse: string, upload: Option<UploadResult>, ids: FreshIds, now: int): Db
  {
    match WithChat(db, ChatRow(id, userId, now, now, ChatName(summary), SystemPromptFor(lang)))
    case None => db
    case Some(db1) =>
      var user := MessageRow(ids.userMessage, content, USER, id, stamp);
      match attached
      case Some(mf) =>
        if !Uploaded(upload) then db1
        else
          (match WithMessage(db1, user)
           case None => db1
           case Some(db2) => WithImage(db2, ImageRowFor(ids.image, upload.value, mf, ids.userMessage)).GetOr(db2))
      case None =>
        WithMessagePair(db1, user, MessageRow(ids.modelMessage, fullResponse, MODEL, id, stamp)).GetOr(db1)
  }

  /** `createChat`, from the tables before the request. */
  function CreateChatOutcome(db: Db, stamp: int, session: Option<string>, id: string, content: string,
                             image: FormValue, lang: string, summary: SummaryOutcome, modelFile: Option<ModelFile>,
                             fragments: Option<seq<string>>, upload: Option<UploadResult>, ids: FreshIds, now: int)
    : Outcome<seq<StreamRecord>>
  {
    if !SignedIn(session) then Outcome(Refused(UNAUTHORIZED, UNAUTHORIZED_MESSAGE), db, None)
    else if content == "" then Outcome(Refused(BAD_REQUEST, NEED_MESSAGE), db, None)
    else if id == "" then Outcome(Refused(BAD_REQUEST, NEED_ID), db, None)
    else if summary.SummaryFailed? then Outcome(Refused(INTERNAL_SERVER_ERROR, INTERNAL_ERROR_MESSAGE), db, None)
    else
      match CheckAttachment(image)
      case Failure(e) => Outcome(Refused(BAD_REQUEST, ErrorMessage(e)), db, None)
      case Success(file) =>
        if file.Some? && modelFile.None? then Outcome(Refused(INTERNAL_SERVER_ERROR, INTERNAL_ERROR_MESSAGE), db, None)
        else
          var attached := if file.Some? then modelFile else None;
          var call := Some(ModelCall(SystemPromptFor(lang), [], MessageFor(content, attached)));
          match fragments
          case None => Outcome(Refused(INTERNAL_SERVER_ERROR, INTERNAL_ERROR_MESSAGE), db, call)
          case Some(fs) =>
            Outcome(Done(OK, Records(fs, RecordName(summary), id, session.value)),
                    CreateChatWrites(db, stamp, session.value, id, content, attached, lang, summary,
                                     Concat(fs), upload, ids, now),
                    call)
  }

  method CreateChat(store: HistoryStore, session: Option<string>, id: string, content: string,
                    image: FormValue, lang: string, summary: SummaryOutcome, modelFile: Option<ModelFile>,
                    fragments: Option<seq<string>>, upload: Option<UploadResult>, ids: FreshIds, now: int)
    returns (reply: Reply<seq<StreamRecord>>, call: Option<ModelCall>)
    requires store.Valid()
    modifies store
    ensures store.Valid()
    ensures Outcome(reply, store.Snapshot(), call)
         == CreateChatOutcome(old(store.Snapshot()), store.messageCreatedAtDefault, session, id, content,
                              image, lang, summary, modelFile, fragments, upload, ids, now)
  {
    call := None;
    if !SignedIn(session) {
      reply := Refused(UNAUTHORIZED, UNAUTHORIZED_MESSAGE);
      return;
    }
    if content == "" {
      reply := Refused(BAD_REQUEST, NEED_MESSAGE);
      return;
    }
    if id == "" {
      reply := Refused(BAD_REQUEST, NEED_ID);
      return;
    }
    if summary.SummaryFailed? {
      reply := Refused(INTERNAL_SERVER_ERROR, INTERNAL_ERROR_MESSAGE);
      return;
    }
    var checked := CheckAttachment(image);
    if checked.Failure? {
      reply := Refused(BAD_REQUEST, ErrorMessage(checked.error));
      return;
    }
    var file := checked.value;
    if file.Some? && modelFile.None? {
      reply := Refused(INTERNAL_SERVER_ERROR, INTERNAL_ERROR_MESSAGE);
      return;
    }
    var attached := if file.Some? then modelFile else None;
    call := Some(ModelCall(SystemPromptFor(lang), [], MessageFor(content, attached)));
    if fragments.None? {
      reply := Refused(INTERNAL_SERVER_ERROR, INTERNAL_ERROR_MESSAGE);
      return;
    }
    var userId := session.value;
    var fullResponse, records := RelayFragments(fragments.value, RecordName(summary), id, userId);
    reply := Done(OK, records);

    var stamp := store.messageCreatedAtDefault;
    var ok := store.InsertChat(ChatRow(id, userId, now, now, ChatName(summary), SystemPromptFor(lang)));
    if !ok {
      return;
    }
    if attached.Some? {
      if !Uploaded(upload) {
        return;
      }
      ok := store.InsertMessage(ids.userMessage, id, content, USER);
      if !ok {
        return;
      }
      ok := store.InsertImage(ImageRowFor(ids.image, upload.value, attached.value, ids.userMessage));
    } else {
      ok := store.InsertMessagePair(MessageRow(ids.userMessage, content, USER, id, stamp),
                                    MessageRow(ids.modelMessage, fullResponse, MODEL, id, stamp));
    }
  }

  // addMessage

  /** The MODEL message, then the `updateAt` refresh. */
  function FinishTurn(db: Db, stamp: int, chatId: string, fullResponse: string, ids: FreshIds, now: int): Db {
    match WithMessage(db, MessageRow(ids.modelMessage, fullResponse, MODEL, chatId, stamp))
    case None => db
    case Some(db1) => WithChatFields(db1, chatId, None, None, now)
  }

  /**
   * The statements of a turn: the USER message, the attachment's image row
   * when there is one, then `FinishTurn`; a refused statement ends the block.
   */
  function TurnWrites(db: Db, stamp: int, chatId: string, content: string, image: Option<ImageRow>,
                      fullResponse: string, ids: FreshIds, now: int): Db
  {
    match WithMessage(db, MessageRow(ids.userMessage, content, USER, chatId, stamp))
    case None => db
    case Some(db1) =>
      match image
      case None => FinishTurn(db1, stamp, chatId, fullResponse, ids, now)
      case Some(im) =>
        match WithImage(db1, im)
        case None => db1
        case Some(db2) => FinishTurn(db2, stamp, chatId, fullResponse, ids, now)
  }

  /**
   * What `addMessage` persists once the stream has ended, as the handler is
   * written: nothing when an attachment was not stored by the file host,
   * and the attachment's row with empty file metadata otherwise.
   */
  function AddMessageWrites(db: Db, stamp: int, chatId: string, content: string, attached: Option<ModelFile>,
                            fullResponse: string, upload: Option<UploadResult>, ids: FreshIds, now: int): Db
  {
    match attached
    case None => TurnWrites(db, stamp, chatId, content, None, fullResponse, ids, now)
    case Some(_) =>
      if !Uploaded(upload) then db
      else TurnWrites(db, stamp, chatId, content, Some(AddMessageImageRowAsWritten(ids.image, upload.value, ids.userMessage)),
                      fullResponse, ids, now)
  }

  /** The same block with the attachment's row built from the model file, as `createChat` builds it. */
  function CorrectedAddMessageWrites(db: Db, stamp: int, chatId: string, content: string, attached: Option<ModelFile>,
                                     fullResponse: string, upload: Option<UploadResult>, ids: FreshIds, now: int): Db
  {
    match attached
    case None => TurnWrites(db, stamp, chatId, content, None, fullResponse, ids, now)
    case Some(mf) =>
      if !Uploaded(upload) then db
      else TurnWrites(db, stamp, chatId, content, Some(ImageRowFor(ids.image, upload.value, mf, ids.userMessage)),
                      fullResponse, ids, now)
  }

  /** The `catch` branch: store the canned MODEL message, refresh `updateAt`, answer 200. */
  function Apology(db: Db, stamp: int, chatId: string, ids: FreshIds, now: int, call: Option<ModelCall>): Outcome<AddBody> {
    match WithMessage(db, MessageRow(ids.modelMessage, CANNED_REPLY, MODEL, chatId, stamp))
    case None => Outcome(Refused(INTERNAL_SERVER_ERROR, INTERNAL_ERROR_MESSAGE), db, call)
    case Some(db1) => Outcome(Done(OK, Apologized), WithChatFields(db1, chatId, None, None, now), call)
  }

  /** `addMessage`, from the tables before the request. */
  function AddMessageOutcome(db: Db, stamp: int, session: Option<string>, chatId: string, content: string,
                             image: FormValue, modelFile: Option<ModelFile>, fragments: Option<seq<string>>,
                             upload: Option<UploadResult>, ids: FreshIds, now: int): Outcome<AddBody>
  {
    if content == "" then Outcome(Refused(BAD_REQUEST, NEED_CONTENT), db, None)
    else if !SignedIn(session) then Outcome(Refused(UNAUTHORIZED, UNAUTHORIZED_MESSAGE), db, None)
    else
      match FindOwnedChat(db.chats, chatId, session.value)
      case None => Outcome(Refused(NOT_FOUND, NOT_FOUND_MESSAGE), db, None)
      case Some(chat) =>
        match CheckAttachment(image)
        case Failure(e) => Outcome(Refused(BAD_REQUEST, ErrorMessage(e)), db, None)
        case Success(file) =>
          if file.Some? && modelFile.None? then Apology(db, stamp, chatId, ids, now, None)
          else if file.Some? && !(Truthy(modelFile.value.uri) && Truthy(modelFile.value.mimeType)) then
            Outcome(Refused(BAD_REQUEST, ErrorMessage(UnsupportedType)), db, None)
          else
            var attached := if file.Some? then modelFile else None;
            var seed := RecreateHistory(HistoryOf(db.messages, db.images, chatId));
            var call := Some(ModelCall(chat.systemPrompt, seed, MessageFor(content, attached)));
            match fragments
            case None => Apology(db, stamp, chatId, ids, now, call)
            case Some(fs) =>
              Outcome(Done(OK, Relayed(Records(fs, None, chatId, session.value))),
                      AddMessageWrites(db, stamp, chatId, content, attached, Concat(fs), upload, ids, now),
                      call)
  }

  method AddMessage(store: HistoryStore, session: Option<string>, chatId: string, content: string,
                    image: FormValue, modelFile: Option<ModelFile>, fragments: Option<seq<string>>,
                    upload: Option<UploadResult>, ids: FreshIds, now: int)
    returns (reply: Reply<AddBody>, call: Option<ModelCall>)
    requires store.Valid()
    modifies store
    ensures store.Valid()
    ensures Outcome(reply, store.Snapshot(), call)
         == AddMessageOutcome(old(store.Snapshot()), store.messageCreatedAtDefault, session, chatId, content,
                              image, modelFile, fragments, upload, ids, now)
  {
    call := None;
    if content == "" {
      reply := Refused(BAD_REQUEST, NEED_CONTENT);
      return;
    }
    if !SignedIn(session) {
      reply := Refused(UNAUTHORIZED, UNAUTHORIZED_MESSAGE);
      return;
    }
    var found := FindOwnedChat(store.chats, chatId, session.value);
    if found.None? {
      reply := Refused(NOT_FOUND, NOT_FOUND_MESSAGE);
      return;
    }
    var checked := CheckAttachment(image);
    if checked.Failure? {
      reply := Refused(BAD_REQUEST, ErrorMessage(checked.error));
      return;
    }
    var file := checked.value;
    if !(file.Some? && modelFile.None?) {
      if file.Some? && !(Truthy(modelFile.value.uri) && Truthy(modelFile.value.mimeType)) {
        reply := Refused(BAD_REQUEST, ErrorMessage(UnsupportedType));
        return;
      }
      var attached := if file.Some? then modelFile else None;
      var seed := RecreateHistory(HistoryOf(store.messages, store.images, chatId));
      call := Some(ModelCall(found.value.systemPrompt, seed, MessageFor(content, attached)));
      if fragments.Some? {
        var fullResponse, records := RelayFragments(fragments.value, None, chatId, session.value);
        reply := Done(OK, Relayed(records));
        PersistTurn(store, chatId, content, attached, fullResponse, upload, ids, now);
        return;
      }
    }
    // The model call threw: the apology path.
    var ok := store.InsertMessage(ids.modelMessage, chatId, CANNED_REPLY, MODEL);
    if !ok {
      reply := Refused(INTERNAL_SERVER_ERROR, INTERNAL_ERROR_MESSAGE);
      return;
    }
    store.UpdateChat(chatId, None, None, now);
    reply := Done(OK, Apologized);
  }

  /** The persistence block of `addMessage`; a refused statement ends it. */
  method PersistTurn(store: HistoryStore, chatId: string, content: string, attached: Option<ModelFile>,
                     fullResponse: string, upload: Option<UploadResult>, ids: FreshIds, now: int)
    requires store.Valid()
    modifies store
    ensures store.Valid()
    ensures store.Snapshot()
         == AddMessageWrites(old(store.Snapshot()), store.messageCreatedAtDefault, chatId, content, attached,
                             fullResponse, upload, ids, now)
  {
    if attached.Some? && !Uploaded(upload) {
      return;
    }
    var ok := store.InsertMessage(ids.userMessage, chatId, content, USER);
    if !ok {
      return;
    }
    if attached.Some? {
      ok := store.InsertImage(AddMessageImageRowAsWritten(ids.image, upload.value, ids.userMessage));
      if !ok {
        return;
      }
    }
    ok := store.InsertMessage(ids.modelMessage, chatId, fullResponse, MODEL);
    if !ok {
      return;
    }
    store.UpdateChat(chatId, None, None, now);
  }

  // updateChat

  /** `updateChat`, from the tables before the request: the new tables and the answer. */
  function UpdateChatOutcome(db: Db, session: Option<string>, id: string, body: Json, now: int)
    : (Reply<Option<ChatView>>, Db)
  {
    match ParseUpdateChat(body)
    case None => (Invalid(UNPROCESSABLE_ENTITY), db)
    case Some(patch) =>
      if !SignedIn(session) then (Refused(UNAUTHORIZED, UNAUTHORIZED_MESSAGE), db)
      else if FindChat(db.chats, id).None? then (Refused(NOT_FOUND, NOT_FOUND_MESSAGE), db)
      else
        var db1 := WithChatFields(db, id, patch.name, patch.systemPrompt, now);
        (Done(OK, ChatWithHistory(db1, id)), db1)
  }

  /** A chat by id with its histories and their images, in storage order. */
  function ChatWithHistory(db: Db, id: string): Option<ChatView> {
    match FindChat(db.chats, id)
    case None => None
    case Some(c) => Some(ChatView(c, HistoryOf(db.messages, db.images, id)))
  }

  method UpdateChat(store: HistoryStore, session: Option<string>, id: string, body: Json, now: int)
    returns (reply: Reply<Option<ChatView>>)
    requires store.Valid()
    modifies store
    ensures store.Valid()
    ensures (reply, store.Snapshot()) == UpdateChatOutcome(old(store.Snapshot()), session, id, body, now)
  {
    var patch := ParseUpdateChat(body);
    if patch.None? {
      return Invalid(UNPROCESSABLE_ENTITY);
    }
    if !SignedIn(session) {
      return Refused(UNAUTHORIZED, UNAUTHORIZED_MESSAGE);
    }
    if FindChat(store.chats, id).None? {
      return Refused(NOT_FOUND, NOT_FOUND_MESSAGE);
    }
    store.UpdateChat(id, patch.value.name, patch.value.systemPrompt, now);
    reply := Done(OK, ChatWithHistory(store.Snapshot(), id));
  }

  // deleteChat

  /** The key of a message's image, when it has an image with a truthy key. */
  function ImageKeyOf(v: MessageView): Option<string> {
    if v.image.Some? && Truthy(v.image.value.key) then v.image.value.key else None
  }

  /** `histories.filter(image).map(image.key).filter(truthy)`. */
  function ImageKeys(histories: seq<MessageView>): (r: seq<string>)
    ensures |r| <= |histories|
    ensures forall k :: k in r <==> exists v :: v in histories && ImageKeyOf(v) == Some(k)
    ensures forall k | k in r :: k != ""
  {
    if |histories| == 0 then []
    else
      var rest := ImageKeys(histories[1..]);
      assert forall v :: v in histories <==> v == histories[0] || v in histories[1..];
      match ImageKeyOf(histories[0])
      case Some(k) => [k] + rest
      case None => rest
  }

  /** `deleteChat`: the answer, the tables after it, and the list passed to the file host's delete, if called. */
  function DeleteChatOutcome(db: Db, session: Option<string>, id: string): (Reply<()>, Db, Option<seq<string>>) {
    if !SignedIn(session) then (Refused(UNAUTHORIZED, UNAUTHORIZED_MESSAGE), db, None)
    else if FindOwnedChat(db.chats, id, session.value).None? then (Refused(NOT_FOUND, NOT_FOUND_MESSAGE), db, None)
    else
      var keys := ImageKeys(HistoryOf(db.messages, db.images, id));
      (Done(NO_CONTENT, ()), WithoutChat(db, id), if |keys| > 0 then Some(keys) else None)
  }

  /** The file host's delete may fail; the handler logs that and deletes the chat regardless. */
  method DeleteChat(store: HistoryStore, session: Option<string>, id: string)
    returns (reply: Reply<()>, deleteCall: Option<seq<string>>)
    requires store.Valid()
    modifies store
    ensures store.Valid()
    ensures (reply, store.Snapshot(), deleteCall) == DeleteChatOutcome(old(store.Snapshot()), session, id)
  {
    deleteCall := None;
    if !SignedIn(session) {
      reply := Refused(UNAUTHORIZED, UNAUTHORIZED_MESSAGE);
      return;
    }
    if FindOwnedChat(store.chats, id, session.value).None? {
      reply := Refused(NOT_FOUND, NOT_FOUND_MESSAGE);
      return;
    }
    var keys := ImageKeys(HistoryOf(store.messages, store.images, id));
    if |keys| > 0 {
      deleteCall := Some(keys);
    }
    store.DeleteChat(id);
    reply := Done(NO_CONTENT, ());
  }

  // getChat and getAllChats only read.

  /** `getChat`: looked up by id alone. */
  function GetChat(db: Db, session: Option<string>, id: string): Reply<ChatView> {
    if !SignedIn(session) then Refused(UNAUTHORIZED, UNAUTHORIZED_MESSAGE)
    else
      match ChatWithHistory(db, id)
      case None => Refused(NOT_FOUND, NOT_FOUND_MESSAGE)
      case Some(v) => Done(OK, v)
  }

  /** `getAllChats`. */
  function GetAllChats(db: Db, session: Option<string>): Reply<seq<ChatView>> {
    if !SignedIn(session) then Refused(UNAUTHORIZED, UNAUTHORIZED_MESSAGE)
    else Done(OK, ChatsOfOwner(db.chats, db.messages, db.images, session.value))
  }
}
