/**
 * Conversion between stored messages and the turns a model session is
 * seeded with (`recreateHistory`), and back (`historyToMessages`).
 */
module History {
  import opened Wrappers
  import opened Tables

  /** The role of a model turn. */
  datatype TurnRole = UserTurn | ModelTurn

  /** The file reference a turn may carry. */
  datatype FileData = FileData(displayName: string, fileUri: string, mimeType: string)

  /** A part of a turn: text alone, or text with a file reference. */
  datatype Part = TextPart(text: string) | FilePart(text: string, fileData: FileData)

  /** A turn of a model session. */
  datatype HistoryItem = HistoryItem(role: TurnRole, parts: seq<Part>)

  /** The fields `historyToMessages` gives back for one turn. */
  datatype MessageFields = MessageFields(role: Role, content: string)

  function PartText(p: Part): string {
    match p
    case TextPart(t) => t
    case FilePart(t, _) => t
  }

  /** An image whose three file-reference fields are all non-empty (all truthy). */
  predicate HasFileReference(image: Option<ImageRow>) {
    image.Some? && image.value.displayName != "" && image.value.fileUri != "" && image.value.mimeType != ""
  }

  function TurnRoleOf(role: Role): TurnRole {
    if role == USER then UserTurn else ModelTurn
  }

  /** The turn a stored message becomes. */
  function ToTurn(v: MessageView): HistoryItem {
    var role := TurnRoleOf(v.message.role);
    if HasFileReference(v.image) then
      HistoryItem(role, [
        TextPart(v.message.content),
        FilePart(v.message.content,
                 FileData(v.image.value.displayName, v.image.value.fileUri, v.image.value.mimeType))])
    else
      HistoryItem(role, [TextPart(v.message.content)])
  }

  /** `recreateHistory`: one turn per stored message, in order. */
  function RecreateHistory(messages: seq<MessageView>): seq<HistoryItem> {
    if |messages| == 0 then [] else [ToTurn(messages[0])] + RecreateHistory(messages[1..])
  }

  /** The fields a turn becomes: `"user"` gives USER, anything else MODEL; content is the first part's text. */
  function ToFields(item: HistoryItem): MessageFields {
    MessageFields(
      if item.role == UserTurn then USER else MODEL,
      if |item.parts| > 0 then PartText(item.parts[0]) else "")
  }

  /** `historyToMessages`: one role/content pair per turn, in order. */
  function HistoryToMessages(history: seq<HistoryItem>): seq<MessageFields> {
    if |history| == 0 then [] else [ToFields(history[0])] + HistoryToMessages(history[1..])
  }

  /**
   * One turn per stored message, in the same order. USER becomes `"user"`
   * and the other role `"model"`. A message whose image has a non-empty
   * display name, file URI and MIME type becomes two parts, both with the
   * message text, the second carrying the three fields verbatim; every
   * other message becomes the single part `{text: content}`.
   */
  lemma {:induction false} RecreateHistorySpec(messages: seq<MessageView>)
    ensures |RecreateHistory(messages)| == |messages|
    ensures forall i :: 0 <= i < |messages| ==> RecreateHistory(messages)[i] == ToTurn(messages[i])
    ensures forall i :: 0 <= i < |messages| ==>
      var v, t := messages[i], RecreateHistory(messages)[i];
      && (t.role == UserTurn <==> v.message.role == USER)
      && (HasFileReference(v.image) ==>
            t.parts == [TextPart(v.message.content),
                        FilePart(v.message.content,
                                 FileData(v.image.value.displayName, v.image.value.fileUri, v.image.value.mimeType))])
      && (!HasFileReference(v.image) ==> t.parts == [TextPart(v.message.content)])
  {
    if |messages| > 0 {
      RecreateHistorySpec(messages[1..]);
    }
  }

  /**
   * One pair per turn, in the same order: `"user"` gives USER and every
   * other role MODEL; the content is the first part's text, or `""` when
   * the turn has no parts.
   */
  lemma {:induction false} HistoryToMessagesSpec(history: seq<HistoryItem>)
    ensures |HistoryToMessages(history)| == |history|
    ensures forall i :: 0 <= i < |history| ==> HistoryToMessages(history)[i] == ToFields(history[i])
    ensures forall i :: 0 <= i < |history| ==>
      var h, m := history[i], HistoryToMessages(history)[i];
      && (m.role == USER <==> h.role == UserTurn)
      && (h.parts == [] ==> m.content == "")
      && (h.parts != [] ==> m.content == PartText(h.parts[0]))
  {
    if |history| > 0 {
      HistoryToMessagesSpec(history[1..]);
    }
  }

  /**
   * Round trip: turning stored messages into turns and back reproduces each
   * message's role and content, in order.
   */
  lemma {:induction false} HistoryRoundTrip(messages: seq<MessageView>)
    ensures |HistoryToMessages(RecreateHistory(messages))| == |messages|
    ensures forall i :: 0 <= i < |messages| ==>
      HistoryToMessages(RecreateHistory(messages))[i]
        == MessageFields(messages[i].message.role, messages[i].message.content)
  {
    RecreateHistorySpec(messages);
    var h := RecreateHistory(messages);
    HistoryToMessagesSpec(h);
    forall i | 0 <= i < |messages|
      ensures HistoryToMessages(h)[i] == MessageFields(messages[i].message.role, messages[i].message.content)
    {
      assert h[i] == ToTurn(messages[i]);
    }
  }

  /** The conversion is a map, so it distributes over concatenation. */
  lemma {:induction false} RecreateHistoryAppend(a: seq<MessageView>, b: seq<MessageView>)
    ensures RecreateHistory(a + b) == RecreateHistory(a) + RecreateHistory(b)
  {
    if |a| == 0 {
      assert a + b == b;
    } else {
      assert (a + b)[0] == a[0] && (a + b)[1..] == a[1..] + b;
      RecreateHistoryAppend(a[1..], b);
    }
  }
}
