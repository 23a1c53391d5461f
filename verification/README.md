# ChatPet chat core, modelled in Dafny

ChatPet is a web chat application. A React client posts a prompt, and
optionally an image, to a Hono backend. The backend relays the prompt to a
hosted generative model, streams the model's fragments back as
newline-delimited JSON records, and then persists the turn in three tables:
`chat`, `message` and `image`.

This project models the parts of ChatPet that decide behaviour:

- **Tables and history store** (`tables.dfy`, `store.dfy`)
  - The three tables, with their keys, the unique `image.messageId`, the foreign keys, and the cascading delete.
  - The relational reads the handlers make.
  - The store as a class whose methods insert, update and delete in place.
- **Record schemas** (`schema.dfy`): the zod record schemas, as predicates over a small JSON datatype.
- **History conversion** (`history.dfy`): `recreateHistory` and `historyToMessages`.
- **Handlers** (`attachment.dfy`, `handlers.dfy`, `handler_props.dfy`)
  - The attachment validator.
  - The six chat route handlers: `createChat`, `addMessage`, `updateChat`, `deleteChat`, `getChat` and `getAllChats`.
  - The state-changing handlers are methods on the store. Each is specified by a function of the tables before the request, and lemmas state which rows each branch leaves behind.
- **Client reading the stream** (`text.dfy`, `framer.dfy`, `chat_page.dfy`)
  - The JavaScript string operations involved.
  - The chat page's line-buffer reader loop.
  - The rest of `sendMessage` and `handleFileSelect`, on an object holding the page's state.
- **Server-to-client contract** (`stream_contract.dfy`): what the server writes is what the client reads back, however the transport cuts the text.
- **Smaller client pieces**
  - the home page (`home_page.dfy`);
  - the sidebar and its thread entries (`app_sidebar.dfy`, `sidebar_thread.dfy`);
  - the command palette (`command.dfy`);
  - the file drop zone (`dropzone.dfy`).

External calls and browser APIs are parameters. These are:

- the model's fragment stream (`Option<seq<string>>`, where `None` means the call threw);
- the summary outcome;
- the file the model provider returns;
- the file host's upload result;
- the session's user id;
- the fresh ids `uuidv4()` would draw and the clock values `new Date()` would read;
- `JSON.parse`/`JSON.stringify`;
- the file reader's data URL and the base64 decoding.

A database statement that the engine would refuse is modelled as refused (`None`):

- a taken primary key;
- a taken `image.messageId`;
- a missing parent row.

The handlers' `try`/`catch` then swallows the refusal and skips the remaining statements, as the code does.

All files are verified together. No module uses anything outside the project.

## Model

| member | source | states |
|---|---|---|
| Tables.Consistent | backend/src/db/drizzleSchema/chat.ts:7-10 | the table invariant: primary keys of the three tables distinct, `image.messageId` unique, every message's chat and every image's message present |
| Tables.FindChat | backend/src/routes/chat/chat.handlers.ts:315-317 | the lookup by id succeeds exactly when some chat has that id, and returns a row of the table with that id |
| Tables.FindChatUnique | backend/src/db/drizzleSchema/chat.ts:7 | under the primary key, the lookup by a row's id returns that very row |
| Tables.FindOwnedChatSpec | backend/src/routes/chat/chat.handlers.ts:356-368 | the owner-scoped lookup succeeds exactly when a chat with that id belongs to that user, and then agrees with the lookup by id |
| Tables.ImageFor | backend/src/db/drizzleSchema/message.ts:23-26 | the `image` relation finds nothing exactly when no image row names the message, and otherwise an image row naming it |
| Tables.ImageForUnique | backend/src/db/drizzleSchema/image.ts:15-17 | because `messageId` is unique, the join of a message returns the one image row that names it |
| Tables.ImageForAppend | backend/src/db/drizzleSchema/image.ts:15-18 | a new image row changes the join only for its own message, and only if that message had no image |
| Tables.JoinImages | backend/src/db/drizzleSchema/message.ts:23-26 | one view per message, in order, each joined with that message's image |
| Tables.JoinImagesAppend | backend/src/db/drizzleSchema/chat.ts:24 | joining a list made of two parts gives the joins of each part, in order |
| Tables.ViewsOf | backend/src/routes/chat/chat.handlers.ts:52-59 | one view per chat, in order, each holding that chat's messages sorted by ascending `createdAt` |
| Tables.ChatsOfOwnerNewestFirst | backend/src/routes/chat/chat.handlers.ts:52-54 | `getAllChats` lists chats newest `createdAt` first |
| Tables.ChatsOfOwnerExactlyOwned | backend/src/routes/chat/chat.handlers.ts:52-53 | a chat is listed exactly when it is in the table and its `userId` is the caller |
| Tables.ChatsOfOwnerHistories | backend/src/routes/chat/chat.handlers.ts:55-59 | each listed chat's messages are sorted ascending, are a permutation of that chat's stored messages, and keep storage order among equal timestamps |
| Tables.UniformTimestampsKeepStorageOrder | backend/src/routes/chat/chat.handlers.ts:57 | if a chat's messages all carry one `createdAt`, the ascending sort returns them in storage order (under the stable sort the model takes) |
| Seqs.Filter | frontend/src/components/sidebar-thread.tsx:39 | `filter` keeps exactly the elements satisfying the predicate, and is no longer than its input |
| Seqs.FilterAppend | frontend/src/components/app-sidebar.tsx:149-155 | filtering distributes over concatenation, so order is kept |
| Seqs.FilterDistinct | backend/src/db/drizzleSchema/chat.ts:7 | filtering a list with distinct keys leaves distinct keys |
| Seqs.SortBySortsAndPermutes | backend/src/routes/chat/chat.handlers.ts:54-57 | the `orderBy` sort returns a sorted permutation of its input |
| Seqs.SortByStable | backend/src/routes/chat/chat.handlers.ts:57 | the sort keeps input order among elements with equal keys |
| Seqs.SortByKeepsSorted | backend/src/routes/chat/chat.handlers.ts:57 | an already sorted list is returned unchanged |
| Seqs.ConcatAppend | backend/src/routes/chat/chat.handlers.ts:215-218 | the concatenation of a list made of two parts is the concatenation of the parts |
| Store.SetChatFieldsSpec | backend/src/routes/chat/chat.handlers.ts:325-331 | the update keeps every row's id, owner and creation time, changes only the row with that id, sets its `updateAt`, and sets `name`/`systemPrompt` exactly when given |
| Store.WithChatConsistent | backend/src/db/drizzleSchema/chat.ts:7-10 | an accepted chat insert keeps the table invariant and adds exactly that id |
| Store.WithMessageConsistent | backend/src/db/drizzleSchema/message.ts:6-16 | an accepted message insert keeps the table invariant and adds exactly that id |
| Store.WithImageConsistent | backend/src/db/drizzleSchema/image.ts:5-19 | an accepted image insert keeps the table invariant |
| Store.WithChatFieldsConsistent | backend/src/routes/chat/chat.handlers.ts:325-331 | a chat update keeps the table invariant and the set of chat ids |
| Store.WithChatFieldsSets | backend/src/routes/chat/chat.handlers.ts:325-331 | updating an existing chat gives it the new columns under the same id, owner and creation time, and leaves every other row as it was |
| Store.WithoutChatConsistent | backend/src/db/drizzleSchema/message.ts:10-12 | the cascading delete keeps the table invariant and removes the chat id |
| Store.WithoutChatRemoves | backend/src/db/drizzleSchema/image.ts:18 | the cascade removes exactly the chat, that chat's messages, and the images of those messages; every other row stays |
| Store.HistoryOfUnknownChat | backend/src/db/drizzleSchema/message.ts:10-12 | under the foreign key, a chat id not in the table has an empty history |
| Store.HistoryAfterMessage | backend/src/db/drizzleSchema/chat.ts:24 | a new message joins the end of its own chat's history, without an image; other chats' histories are unchanged |
| Store.HistoryAfterImage | backend/src/db/drizzleSchema/message.ts:23-26 | the image of the newest message joins that message's view and no other |
| Store.HistoryStore.constructor | backend/src/db/drizzleSchema/message.ts:13-15 | a load of the table declarations over consistent tables: the tables as the database holds them, and `messageCreatedAtDefault` fixed at the load time |
| Store.HistoryStore.InsertChat | backend/src/db/drizzleSchema/chat.ts:6-17 | the insert succeeds exactly when the id is free, the invariant is kept, and the tables become the accepted insert or stay as they were |
| Store.HistoryStore.InsertMessage | backend/src/db/drizzleSchema/message.ts:6-16 | the insert succeeds exactly when the id is free and the chat exists, and the row carries this load's column default `createdAt` |
| Store.HistoryStore.InsertMessagePair | backend/src/routes/chat/chat.handlers.ts:284-297 | the batch writes both rows or neither |
| Store.HistoryStore.InsertImage | backend/src/db/drizzleSchema/image.ts:5-19 | the insert succeeds exactly when the id and the `messageId` are free and the message exists |
| Store.HistoryStore.UpdateChat | backend/src/routes/chat/chat.handlers.ts:325-331 | the tables become the value-level update, and the invariant is kept |
| Store.HistoryStore.DeleteChat | backend/src/routes/chat/chat.handlers.ts:390 | the tables become the cascading delete, the invariant is kept, and the id is gone |
| Schema.ParseUpdateChat | backend/src/db/schema/chat.ts:64-69 | an update body is accepted exactly when it satisfies `UpdateChatSchema`; `name` and `systemPrompt` are carried exactly when present |
| Schema.SecondsOptional | backend/src/db/schema/chat.ts:38 | a datetime written to the minute is accepted exactly when the same instant with `:00` seconds is |
| Schema.LeapDayAccepted | backend/src/db/schema/chat.ts:38 | a 29 February is accepted exactly in a Gregorian leap year |
| Schema.UpdateIgnoresOtherKeys | backend/src/db/schema/chat.ts:64-69 | `id`, `userId`, `createdAt`, `histories` or any other key changes neither acceptance nor the update |
| Schema.CreateIgnoresOmittedKeys | backend/src/db/schema/chat.ts:51-62 | the keys `CreateChatSchema` omits play no part in accepting a body |
| Schema.ImageJsonConforms | backend/src/db/schema/chat.ts:3-14 | every stored image answers in the shape `ImageSchema` describes (`key` string or null) |
| Schema.MessageJsonConforms | backend/src/db/schema/chat.ts:16-24 | every stored message answers with role `"USER"`/`"MODEL"` and a conforming or null image |
| Schema.ChatJsonConforms | backend/src/db/schema/chat.ts:26-49 | every chat view answers in the shape `ChatSchema` describes, given ISO datetimes |
| History.RecreateHistorySpec | backend/src/db/schema/recreateHistory.ts:22-46 | one turn per message, in order; USER gives `user` and MODEL gives `model`; three non-empty file fields give two parts with those fields verbatim; otherwise one text part |
| History.HistoryToMessagesSpec | backend/src/db/schema/recreateHistory.ts:48-53 | one pair per turn, in order; `user` gives USER and anything else MODEL; content is the first part's text, or `""` without parts |
| History.HistoryRoundTrip | backend/src/db/schema/recreateHistory.ts:22-53 | converting messages to turns and back reproduces every message's role and content, in order |
| History.RecreateHistoryAppend | backend/src/db/schema/recreateHistory.ts:22-23 | the conversion distributes over concatenation |
| Attachment.CheckAttachment | backend/src/routes/chat/chat.handlers.ts:160-192 | for each error and for acceptance, an iff in source order: an absent field means no attachment; an array, then a non-file, then more than 5 MiB, then a type outside jpeg/jpg/png is refused; otherwise the file is accepted |
| Handlers.SystemPromptFor | backend/src/routes/chat/chat.handlers.ts:127 | the English instruction exactly for `lang == "EN"`, the French one otherwise |
| Handlers.RelayFragments | backend/src/routes/chat/chat.handlers.ts:212-227 | `fullResponse` is the in-order concatenation of the fragments, and there is exactly one record per fragment, carrying its text, name, id and user id |
| Handlers.ImageKeys | backend/src/routes/chat/chat.handlers.ts:377-380 | the keys collected are exactly the truthy keys of the history's images, none empty |
| Handlers.CreateChat | backend/src/routes/chat/chat.handlers.ts:100-303 | the reply, tables and model call are those of `CreateChatOutcome` on the tables before the request; the store invariant is kept |
| Handlers.AddMessage | backend/src/routes/chat/chat.handlers.ts:394-612 | the reply, tables and model call are those of `AddMessageOutcome` on the tables before the request; the invariant is kept |
| Handlers.PersistTurn | backend/src/routes/chat/chat.handlers.ts:524-586 | the tables become `AddMessageWrites`: USER, its image row with empty file metadata as written, MODEL, then `updateAt`, with a refused statement ending the block |
| Handlers.UpdateChat | backend/src/routes/chat/chat.handlers.ts:305-345 | the reply and tables are those of `UpdateChatOutcome`: 422 on an invalid body, then 401, then 404, else the update |
| Handlers.DeleteChat | backend/src/routes/chat/chat.handlers.ts:347-392 | the reply, tables and file-host delete call are those of `DeleteChatOutcome` |
| HandlerProperties.CreateChatRefusalWritesNothing | backend/src/routes/chat/chat.handlers.ts:102-227 | every `createChat` answer that is not the stream leaves the tables as they were |
| HandlerProperties.CreateChatStreams | backend/src/routes/chat/chat.handlers.ts:122-227 | once checks pass, the model is called with the language's prompt and an empty history; one record per fragment carries the summary as `name`; the writes use the whole response |
| HandlerProperties.CreateChatWithoutImage | backend/src/routes/chat/chat.handlers.ts:232-242 | without an image, the new chat row carries the summary and language prompt, and its history is exactly USER(content) then MODEL(fullResponse); other chats' histories are unchanged |
| HandlerProperties.CreateChatWithImage | backend/src/routes/chat/chat.handlers.ts:244-280 | with an uploaded image, the new chat's history is exactly the USER message joined with its image row, and there is no MODEL message |
| HandlerProperties.CreateChatUploadFailed | backend/src/routes/chat/chat.handlers.ts:246-252 | when the file host gives no URL, only the chat row is written |
| HandlerProperties.CreateChatTakenId | backend/src/routes/chat/chat.handlers.ts:232-242 | a taken chat id makes the first insert throw, and nothing is written |
| HandlerProperties.AddMessageNeedsContentFirst | backend/src/routes/chat/chat.handlers.ts:403-409 | missing content gives 400 whatever the session, and nothing is written |
| HandlerProperties.AddMessageStreams | backend/src/routes/chat/chat.handlers.ts:435-522 | once checks pass, the session is seeded with `recreateHistory` of the stored history and the chat's prompt; one record per fragment has no name; the writes are `AddMessageWrites` of the whole response |
| HandlerProperties.AddMessageTextTurn | backend/src/routes/chat/chat.handlers.ts:563-583 | a text turn appends USER(content) then MODEL(fullResponse) to the chat's history and sets its `updateAt` to now |
| HandlerProperties.AddMessageImageTurn | backend/src/routes/chat/chat.handlers.ts:524-583 | an uploaded attached turn appends the USER message joined with the row the handler writes (the file host's URL, key and name, and `""` for the four file fields), then MODEL; `updateAt` is now |
| HandlerProperties.ImageTurnWrites | backend/src/routes/chat/chat.handlers.ts:536-583 | for any image row on fresh ids, the turn's statements all succeed, keep the invariant, append USER with that row then MODEL, and set `updateAt` to now |
| HandlerProperties.AddMessageUploadFailed | backend/src/routes/chat/chat.handlers.ts:526-535 | when the file host gives no URL, nothing at all is written |
| HandlerProperties.AddMessageApology | backend/src/routes/chat/chat.handlers.ts:588-611 | when the model call throws, the answer is 200, the history grows by the canned MODEL message alone, and `updateAt` is now |
| HandlerProperties.AddMessageOwnerScoped | backend/src/routes/chat/chat.handlers.ts:412-431 | a chat of another user, or no chat, is answered 404 and nothing is written |
| HandlerProperties.AsWrittenReplayDropsFile | backend/src/routes/chat/chat.handlers.ts:494-583 | as written, after an attached `addMessage` the model was sent the text with the file reference, yet the next seed grows by a text-only USER turn, then MODEL |
| HandlerProperties.AttachedTurnIsReplayed | backend/src/routes/chat/chat.handlers.ts:268-280 | with the image row built from the model file as `createChat` builds it (`CorrectedAddMessageWrites`), the next seed grows by the USER turn with that same file reference, then the MODEL turn |
| HandlerProperties.RemovedImagesAreHistoryImages | backend/src/routes/chat/chat.handlers.ts:356-390 | the images the cascade removes are exactly those the chat's history carries |
| HandlerProperties.DeleteChatKeys | backend/src/routes/chat/chat.handlers.ts:377-391 | on the caller's chat: 204, the cascade applied, and the file host's delete called exactly when a removed image has a non-empty key, with exactly those keys |
| HandlerProperties.RemovedKey | backend/src/routes/chat/chat.handlers.ts:377-380 | a key is sent exactly when it is the non-empty key of a removed image |
| HandlerProperties.DeleteChatOwnerScoped | backend/src/routes/chat/chat.handlers.ts:356-375 | another user's chat, or a missing one, is answered 404, nothing is deleted and nothing is sent |
| HandlerProperties.UpdateChatApplies | backend/src/routes/chat/chat.handlers.ts:315-344 | an accepted update sets the carried name and prompt, always sets `updateAt` to now, keeps id, owner and creation time, answers with the updated chat and its history, and changes no other row |
| HandlerProperties.UpdateChatIgnoresClientTimestamp | backend/src/routes/chat/chat.handlers.ts:325-331 | any valid client `updateAt` gives the same outcome |
| HandlerProperties.UpdateChatNoOwnerCheck | backend/src/routes/chat/chat.handlers.ts:315-317 | any two signed-in users get the same `updateChat` outcome |
| HandlerProperties.GetChatNoOwnerCheck | backend/src/routes/chat/chat.handlers.ts:80-96 | any two signed-in users get the same `getChat` answer |
| HandlerProperties.GetAllChatsStorageOrder | backend/src/routes/chat/chat.handlers.ts:52-59 | if every stored message carries one `createdAt`, as rows written within one load of the table declaration do, each listed chat's messages come back in storage order |
| Text.Trim | frontend/src/pages/chat/page.tsx:228 | `trim()` is empty exactly for a blank string, and otherwise neither starts nor ends with white space |
| Text.Contains | frontend/src/components/app-sidebar.tsx:151 | `includes` holds exactly when the substring occurs at some index |
| Text.SplitPieces | frontend/src/pages/chat/page.tsx:224-225 | no piece of `split("\n")` holds a newline, so the kept buffer never does |
| Text.JoinSplit | frontend/src/pages/chat/page.tsx:224 | joining the pieces of a split with the separator gives back the text |
| Text.SplitJoin | frontend/src/pages/chat/page.tsx:224 | splitting a join of separator-free pieces gives back the pieces |
| Framer.CompleteLines | frontend/src/pages/chat/page.tsx:224-225 | every complete line is free of newlines |
| Framer.CompleteLinesOfFramed | frontend/src/pages/chat/page.tsx:215-227 | for newline-terminated lines plus an unterminated tail, the complete lines are exactly those lines, so the tail is never parsed |
| Framer.FramedAppend | backend/src/routes/chat/chat.handlers.ts:226 | `writeln` output of two lists of lines is the output of each, in order |
| Framer.ResponseOfLineTexts | frontend/src/pages/chat/page.tsx:253 | `fullResponse` is the concatenation of what each complete line contributes |
| Framer.ChunkStep | frontend/src/pages/chat/page.tsx:222-225 | after a chunk, the consumed lines joined with `"\n"`, then `"\n"` and the new buffer, equal everything received |
| Framer.LineStep | frontend/src/pages/chat/page.tsx:227-260 | one more line adds its text, replaces the name when it carries one, and counts as non-blank exactly when it is |
| Framer.ConsumeLine | frontend/src/pages/chat/page.tsx:228-260 | a blank line changes nothing; a non-blank one clears the hand-over; a parsed one adds its text and takes its non-empty name; a malformed one adds nothing |
| Framer.ConsumeLines | frontend/src/pages/chat/page.tsx:227-262 | the line loop continues the state of the earlier lines into the state of all lines |
| Framer.ReadStream | frontend/src/pages/chat/page.tsx:214-263 | for any chunking, `fullResponse`, the last name and the hand-over flag are functions of the complete lines of the concatenated chunks |
| Framer.ReadFramed | frontend/src/pages/chat/page.tsx:214-263 | reading framed non-blank lines gives the concatenated texts, their shared name once there is a line, and the hand-over flag exactly when there is a line |
| StreamContract.ClientReassemblesServerStream | backend/src/routes/chat/chat.handlers.ts:212-227 | what `createChat`/`addMessage` write reads back on the page as the server's `fullResponse`; the summary name appears exactly when there was a fragment and it is non-empty |
| StreamContract.TruncatedStreamDropsPartialRecord | frontend/src/pages/chat/page.tsx:215-225 | a stream cut inside a record yields the complete records' text, and the partial record is dropped |
| StreamContract.RecordLines | backend/src/routes/chat/chat.handlers.ts:510-522 | each written record is one non-blank line that reads back as that fragment's text and the record's name |
| ChatPage.FileRejection | frontend/src/pages/chat/page.tsx:69-83 | accepted exactly at or below 5 MiB with a jpg/png/jpeg type; the size toast exactly above 5 MiB; otherwise the type toast |
| ChatPage.FileRejectionAgreesWithServer | frontend/src/pages/chat/page.tsx:69-83 | the page accepts exactly what the server's attachment check accepts, and its toasts match the server's size and type refusals |
| ChatPage.AppendIfNew | frontend/src/pages/chat/page.tsx:100-105 | the list is unchanged when a message with that id is listed, otherwise the message is appended |
| ChatPage.AppendIfNewIdempotent | frontend/src/pages/chat/page.tsx:140-145 | showing the same message twice is showing it once |
| ChatPage.AppendIfNewKeepsIdsDistinct | frontend/src/pages/chat/page.tsx:140-145 | distinct message ids stay distinct, and the message's id is then listed |
| ChatPage.Renamed | frontend/src/pages/chat/page.tsx:238-250 | same length; each thread with the id is renamed and stops loading, every other thread is unchanged |
| ChatPage.RenamedLastWins | frontend/src/pages/chat/page.tsx:238-250 | renaming twice is renaming once with the later name |
| ChatPage.RenamedTouchesOnlyThatThread | frontend/src/pages/chat/page.tsx:238-250 | ids and places are kept, threads with the id get the name and stop loading, and a list without the id is unchanged |
| ChatPage.UserMessageFor | frontend/src/pages/chat/page.tsx:95-145 | the handed-over message when there is one; otherwise a USER message with the search text, with an image exactly when a file was picked and read into a non-empty data URL |
| ChatPage.RequestFor | frontend/src/pages/chat/page.tsx:166-183 | a `createChat` form exactly when `currentThreads` is non-empty, otherwise `addMessage`; the picked file, else the rebuilt one |
| ChatPage.RebuiltFile | frontend/src/pages/chat/page.tsx:147-164 | no file without a handed-over image, else the decoded data URL |
| ChatPage.ArrivalMessage | frontend/src/pages/chat/page.tsx:329-340 | on arrival, the page sends the hand-over text exactly when it is non-empty |
| ChatPage.ChatPageState.HandleFileSelect | frontend/src/pages/chat/page.tsx:69-83 | keeps an accepted file, toasts a rejected one, and closes the popover either way; nothing else changes |
| ChatPage.ChatPageState.SendMessage | frontend/src/pages/chat/page.tsx:85-278 | nothing happens without a non-blank message and a route id; otherwise the user message is shown if new and the form posted; on failure the page stays loading; on success the reply is read, the thread renamed, the hand-over cleared after a non-blank line, and the MODEL message shown with the clock read after the stream |
| ChatPage.ChatPageState.ReceiveReply | frontend/src/pages/chat/page.tsx:212-271 | the state after reading the stream, stated over the complete lines of the concatenated chunks |
| ChatPage.ChatPageState.ApplyReply | frontend/src/pages/chat/page.tsx:212-271 | loading stops, the thread is renamed when a name came, the hand-over is cleared when a line was not blank, and one MODEL message with the response is appended |
| HomePage.NewThread | frontend/src/pages/home/page.tsx:109-127 | the placeholder has the fresh id, the user's id or `""`, one user turn with the search text, name "New Thread" and loading true |
| HomePage.HandedOverMessage | frontend/src/pages/home/page.tsx:78-107 | a USER message with the search text, with an image exactly when a file was picked, taking `mineType` and `name` from the file |
| HomePage.ThreadList.Push | frontend/src/pages/home/page.tsx:110-111 | the shared list gains the thread at its end |
| HomePage.HomePageState.HandleFileSelect | frontend/src/pages/home/page.tsx:67-70 | any file is kept, with no size or type check, and the popover closes |
| HomePage.HomePageState.ChooseSuggestion | frontend/src/pages/home/page.tsx:134 | the search text becomes the question; suggestions show exactly when it is empty |
| HomePage.HomePageState.CreateNewChat | frontend/src/pages/home/page.tsx:72-130 | hands over the search text and the built message, pushes exactly one placeholder onto the shared list in place, and routes to `/chat/<id>` |
| HomePage.PushedThreadIsUnique | frontend/src/pages/home/page.tsx:109-127 | with a fresh id, the earlier threads are kept and the pushed one is the only one with that id |
| HomePage.HandOverReachesChatPage | frontend/src/pages/home/page.tsx:107 | the chat page sends the hand-over exactly when the text is not blank, shows the handed-over message as is, and posts `createChat` with the search text and rebuilt file |
| HomePage.PlaceholderIsRenamed | frontend/src/pages/chat/page.tsx:238-250 | the stream's name renames the pushed placeholder and ends its loading; earlier threads are unchanged |
| AppSidebar.ToggleLanguage | frontend/src/components/app-sidebar.tsx:42-46 | "FR" becomes "UK", anything else "FR" |
| AppSidebar.VisibleThreads | frontend/src/components/app-sidebar.tsx:149-155 | a thread is listed exactly when the search is empty or its name contains the search |
| AppSidebar.EmptySearchShowsAll | frontend/src/components/app-sidebar.tsx:149-155 | an empty search lists every thread, in order |
| AppSidebar.VisibleThreadsKeepOrder | frontend/src/components/app-sidebar.tsx:150-153 | the listing keeps storage order, and for a non-empty search is exactly the case-sensitive substring matches |
| AppSidebar.PaletteItems | frontend/src/components/app-sidebar.tsx:207-218 | one item per thread, in order, with the thread's id as id and name as title |
| AppSidebar.PaletteSelection | frontend/src/components/app-sidebar.tsx:199-219 | the palette renders as a dialog listing exactly those items; selecting thread i navigates to its chat and leaves the palette closed |
| AppSidebar.AfterKeyDown | frontend/src/components/app-sidebar.tsx:79-89 | Cmd+K or Ctrl+K opens the palette; any other key leaves it |
| SidebarThread.WithoutThread | frontend/src/components/sidebar-thread.tsx:39 | a thread is kept exactly when it was listed and its id differs |
| SidebarThread.DeleteThread | frontend/src/components/sidebar-thread.tsx:29-47 | a rejected fetch changes nothing; a resolved one, whatever its status, saves the filtered list and goes home exactly when the route is that thread |
| SidebarThread.DeleteThreadSpec | frontend/src/components/sidebar-thread.tsx:39-43 | the saved list has no thread with the id, keeps every other thread in order, and a second delete changes nothing; any two statuses lead to the same outcome |
| CommandPalette.AllGroups | frontend/src/components/command.tsx:101-109 | the groups alone when there are no items, otherwise an untitled group of the items followed by the groups |
| CommandPalette.AllGroupsLists | frontend/src/components/command.tsx:101-109 | the palette lists the loose items, then every group's items, and nothing else |
| CommandPalette.GroupViews | frontend/src/components/command.tsx:135-170 | each group in order, followed by a separator exactly when it is not the last |
| CommandPalette.BlocksAlternate | frontend/src/components/command.tsx:168-170 | with n groups, 2n-1 blocks: group j at position 2j and a separator right after every group but the last |
| CommandPalette.ItemValue | frontend/src/components/command.tsx:140 | the item's value when non-empty, else its title |
| CommandPalette.Current | frontend/src/components/command.tsx:94-98 | the prop when defined, else the internal state |
| CommandPalette.InitialValue | frontend/src/components/command.tsx:92 | `defaultValue` when given, else `""` |
| CommandPalette.OnChange | frontend/src/components/command.tsx:96-99 | a given handler is called instead of updating internal state, and what shows is the held prop or the internal state |
| CommandPalette.ChangeShows | frontend/src/components/command.tsx:94-99 | a held prop keeps showing the parent's value; an unheld one shows what was typed unless a handler takes it |
| CommandPalette.SelectEffects | frontend/src/components/command.tsx:142-147 | the item's own action, then a close request exactly when `open` is controlled and `onOpenChange` is given |
| CommandPalette.SelectionCloses | frontend/src/components/command.tsx:142-147 | a controlled palette with a close handler is closed after any selection |
| CommandPalette.Render | frontend/src/components/command.tsx:126-196 | a dialog exactly when `open` is given or there is a trigger, receiving `open` as given; the loading notice exactly while loading |
| CommandPalette.RenderLayout | frontend/src/components/command.tsx:101-170 | once loaded, the groups of `allGroups` in order with one separator between each two, the loose items' untitled group first |
| Dropzone.DefaultSizeMatchesServer | frontend/src/components/ui/file-upload-dropzone.tsx:21 | for every file, it is within the zone's default 5 MiB limit exactly when the handlers do not refuse it as too large and exactly when the chat page shows no size toast |
| Dropzone.ListedTypesBeyondServer | frontend/src/components/ui/file-upload-dropzone.tsx:18-20 | the zone lists GIF and WebP, which the chat page and the server both refuse |
| Dropzone.OnDrop | frontend/src/components/ui/file-upload-dropzone.tsx:27-39 | in multiple mode, held then accepted files; in single mode, the accepted files; the first accepted file is passed on exactly when there is one and a handler |
| Dropzone.DropsAccumulate | frontend/src/components/ui/file-upload-dropzone.tsx:27-39 | two drops in multiple mode hold everything in order, in single mode only the last; an empty single drop clears the list and selects nothing |
| Dropzone.RemoveFile | frontend/src/components/ui/file-upload-dropzone.tsx:49-52 | removes exactly the element at the index; an out-of-range index leaves the list unchanged |
| Dropzone.RemoveFileKeepsOthers | frontend/src/components/ui/file-upload-dropzone.tsx:49-52 | one shorter, with every file before and after the index kept in order |
| Dropzone.FileIcon | frontend/src/components/ui/file-upload-dropzone.tsx:67-72 | the image icon exactly when the MIME type starts with "image/" |
| Dropzone.AcceptedTypesShowImageIcon | frontend/src/components/ui/file-upload-dropzone.tsx:67-72 | every type the server accepts gets the image icon |

## Left out

- **Model provider calls.** `ai.chats.create`, `sendMessageStream`, `ai.files.upload` and `ai.models.generateContent` are foreign I/O. Their outcomes are parameters.
  - Only the model call's arguments are recorded, as `ModelCall`.
  - The wording of the two system instructions is left out; the model only states that the two differ.
- **JSON.** `JSON.parse` of the summary, `JSON.stringify` and `JSON.parse` of stream records are not modelled as code. The summary outcome is a three-way parameter. On the stream, `encode`/`parse` are functions related only by the round trip the stream lemmas require.
- **Mid-stream failure of the model's stream.** It is not modelled: a stream is a complete sequence of fragments, or `None` when opening it throws. In the code, a throw inside the `for await` loop skips the persistence block. That behaviour is not represented.
- **File host.** `utapi.uploadFiles` is a parameter. `utapi.deleteFiles` is the returned list of keys. Its failure is only logged by the handler, so it changes nothing in the model.
- **Transport.** Hono's `stream`/`streamText`, async/await, concurrency between requests, and client abort are left out. Each request is a sequential run.
  - A refused statement after the stream is modelled, but the response it would try to send after streaming is not: the reply stays the stream.
- **Database engine.**
  - Drizzle and D1 query execution are replaced by the in-memory tables.
  - The `users` table, and the cascade from users to chats, are not part of this model.
- **Browser APIs.** `fetch`, `sessionStorage`, `localStorage`, `FileReader`, `TextDecoder`, `Buffer`, and the data-URL match with base64 decoding are left out.
  - Decoded chunks are a `seq<string>`.
  - The data URL is a parameter.
  - Decoding is a function parameter.
  - The storages are fields.
- **`formatFileSize`** (frontend/src/components/ui/file-upload-dropzone.tsx:54-65) uses floating-point logarithms and `toFixed`.
- **Drop library checks.** The accept and size checks `react-dropzone` performs are library code; the files it accepts arrive as a parameter.
- **Chat page `getMessages` and `updateSystemPrompt`.** These are plain fetches whose server side is modelled as `GetChat` and `UpdateChat`.
- **Rendering and translation.** React rendering, markdown, CSS, `i18n`, and the text of translated labels are left out.
- **Handlers.CreateChatOutcome**: the 500 answer is the application error hook's generic body. The `console` logging on each caught error is left out.
- **Schema.IsDatetime**: modelled as `datetime()` of zod 4, the version whose `z.file()` the schemas use, with its default options: seconds and fraction optional, time zone `Z` only, calendar dates only. Zod's own regular expression is not reproduced character for character.
- **Session middleware.** The `/api/private/*` middleware (backend/src/app.ts:91-103) answers 401 before any validator or handler runs, and is not part of this model. So the order of the 400/422 and 401 answers in `HandlerProperties.AddMessageNeedsContentFirst` and `Handlers.UpdateChat` is the handler's own, not that of the deployed route.
- **Tables.UniformTimestampsKeepStorageOrder** and **HandlerProperties.GetAllChatsStorageOrder** hold only under their hypothesis that all messages carry one `createdAt`. The column default is evaluated once per load of the table declaration, so rows written under different loads differ, and SQL leaves the order of tied `ORDER BY` keys unspecified. The model takes a stable sort, so ties keep storage order, which the engine does not promise.
- **Framer.ReadStream**: `TextDecoder`'s streaming decode is left out. A chunk is already text.

Where the code and the documented design differ, the model follows the code:

- `addMessage` stores an attachment's image row with empty file metadata (see "## Findings"). `Handlers.AddMessage` writes that row; the corrected row is `Handlers.CorrectedAddMessageWrites`, used by `HandlerProperties.AttachedTurnIsReplayed`.
- `getChat`, `updateChat` and `deleteChat` return the history in storage order. Only `getAllChats` asks for an order.
- `getChat` and `updateChat` look the chat up by id with no owner check (`HandlerProperties.GetChatNoOwnerCheck`, `HandlerProperties.UpdateChatNoOwnerCheck`).
- `updateChat` can change `systemPrompt`.
- `createChat` with an image stores the USER message and its image, and no MODEL message.
- `createChat` never refreshes `updateAt` after creation.
- The size message names 10MB, although the limit is 5 MiB.
- `CreateChatSchema` is declared but is not applied to `createChat`'s multipart body. The handler's own checks are what is modelled.
- On the chat page, a failed request leaves the page loading (`isLoading` stays true).
- The page renames threads from the thread list as it stood when the send began.

## Findings

| source | as written | input that shows it | evidently intended | confidence | as-written member | corrected member |
|---|---|---|---|---|---|---|
| backend/src/routes/chat/chat.handlers.ts:550-562 | `addMessage` fills the image row's `mimeType`, `sizeBytes`, `displayName` and `fileUri` from the browser `File`, which has none of these properties, so all four are `""` | an `addMessage` with a PNG whose uploaded model file has display name "a", URI "u" and MIME type "image/png": the model is sent the file, but the stored row has empty fields, and every later `recreateHistory` replays that turn as text only | fill them from the model file, as `createChat` does at lines 268-280, so the file stays in the replayed history | not executed | Handlers.AddMessageWrites, HandlerProperties.AsWrittenReplayDropsFile | Handlers.CorrectedAddMessageWrites, HandlerProperties.AttachedTurnIsReplayed |
