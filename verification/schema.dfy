/**
 * The request and record schemas of the chat API, as predicates over JSON
 * values, and the JSON the chat queries answer with.
 *
 * An object schema accepts an object whose listed keys hold values of the
 * listed shapes; keys it does not list are accepted and stripped.
 */
module Schema {
  import opened Wrappers
  import opened Tables

  datatype Json =
    | JNull
    | JBool(b: bool)
    | JNum(n: int)
    | JStr(s: string)
    | JArr(items: seq<Json>)
    | JObj(fields: map<string, Json>)
    | JFile

  predicate IsDigit(c: char) {
    '0' <= c <= '9'
  }

  /** The two-digit number at `s[i..i+2]`. */
  function TwoDigits(s: string, i: nat): int
    requires i + 2 <= |s|
  {
    (s[i] as int - '0' as int) * 10 + (s[i + 1] as int - '0' as int)
  }

  /** The four-digit number at `s[i..i+4]`. */
  function FourDigits(s: string, i: nat): int
    requires i + 4 <= |s|
  {
    TwoDigits(s, i) * 100 + TwoDigits(s, i + 2)
  }

  /** A Gregorian leap year. */
  predicate IsLeapYear(year: int) {
    year % 4 == 0 && (year % 100 != 0 || year % 400 == 0)
  }

  /** The number of days of a month (1-12) of a year. */
  function DaysIn(month: int, year: int): int {
    if month == 2 then (if IsLeapYear(year) then 29 else 28)
    else if month == 4 || month == 6 || month == 9 || month == 11 then 30
    else 31
  }

  /**
   * `z.string().datetime()` with its default options: a date
   * `YYYY-MM-DD` that exists in the Gregorian calendar, `T`, the time
   * `HH:MM`, optionally followed by `:SS` and optionally then by `.` and
   * one or more fraction digits, and the time zone `Z`; hour 00-23,
   * minute and second 00-59.
   */
  predicate IsDatetime(s: string) {
    && |s| >= 17
    && IsDigit(s[0]) && IsDigit(s[1]) && IsDigit(s[2]) && IsDigit(s[3]) && s[4] == '-'
    && IsDigit(s[5]) && IsDigit(s[6]) && s[7] == '-'
    && IsDigit(s[8]) && IsDigit(s[9]) && s[10] == 'T'
    && IsDigit(s[11]) && IsDigit(s[12]) && s[13] == ':'
    && IsDigit(s[14]) && IsDigit(s[15])
    && 1 <= TwoDigits(s, 5) <= 12 && 1 <= TwoDigits(s, 8) <= DaysIn(TwoDigits(s, 5), FourDigits(s, 0))
    && TwoDigits(s, 11) <= 23 && TwoDigits(s, 14) <= 59
    && s[|s| - 1] == 'Z'
    && (|s| == 17 || IsSecondsPart(s))
  }

  /** `:SS`, then optionally `.` and fraction digits, between the minutes and the closing `Z`. */
  predicate IsSecondsPart(s: string)
    requires |s| >= 17
  {
    && |s| >= 20 && s[16] == ':' && IsDigit(s[17]) && IsDigit(s[18]) && TwoDigits(s, 17) <= 59
    && (|s| == 20 || (|s| >= 22 && s[19] == '.' && forall i | 20 <= i < |s| - 1 :: IsDigit(s[i])))
  }

  /**
   * Seconds are optional: a datetime written to the minute is accepted
   * exactly when the same instant written with `:00` seconds is.
   */
  lemma SecondsOptional(minutes: string)
    requires |minutes| == 16
    ensures IsDatetime(minutes + "Z") <==> IsDatetime(minutes + ":00Z")
  {
    var a, b := minutes + "Z", minutes + ":00Z";
    assert forall i | 0 <= i < 16 :: a[i] == b[i] == minutes[i];
    assert TwoDigits(a, 5) == TwoDigits(b, 5) && TwoDigits(a, 8) == TwoDigits(b, 8);
    assert FourDigits(a, 0) == FourDigits(b, 0);
    assert TwoDigits(a, 11) == TwoDigits(b, 11) && TwoDigits(a, 14) == TwoDigits(b, 14);
    assert IsSecondsPart(b) by {
      assert b[16] == ':' && b[17] == '0' && b[18] == '0' && |b| == 20;
    }
  }

  /** A 29 February is accepted exactly in a leap year. */
  lemma LeapDayAccepted(year: string)
    requires |year| == 4 && forall i | 0 <= i < 4 :: IsDigit(year[i])
    ensures IsDatetime(year + "-02-29T12:00Z") <==> IsLeapYear(FourDigits(year, 0))
  {
    var s := year + "-02-29T12:00Z";
    assert forall i | 0 <= i < 4 :: s[i] == year[i];
    assert FourDigits(s, 0) == FourDigits(year, 0);
    assert TwoDigits(s, 5) == 2 && TwoDigits(s, 8) == 29 && TwoDigits(s, 11) == 12 && TwoDigits(s, 14) == 0;
  }

  predicate HasString(m: map<string, Json>, k: string) {
    k in m && m[k].JStr?
  }

  predicate OptionalString(m: map<string, Json>, k: string) {
    k !in m || m[k].JStr?
  }

  predicate HasDatetime(m: map<string, Json>, k: string) {
    k in m && m[k].JStr? && IsDatetime(m[k].s)
  }

  predicate HasStringIn(m: map<string, Json>, k: string, allowed: set<string>) {
    k in m && m[k].JStr? && m[k].s in allowed
  }

  /** `ImageSchema`: every column a string, except `key`, which may also be null or absent. */
  predicate ImageSchema(j: Json) {
    && j.JObj?
    && HasString(j.fields, "id") && HasString(j.fields, "url") && HasString(j.fields, "name")
    && HasString(j.fields, "mimeType") && HasString(j.fields, "sizeBytes")
    && HasString(j.fields, "expirationTime") && HasString(j.fields, "displayName")
    && HasString(j.fields, "fileUri") && HasString(j.fields, "messageId")
    && ("key" !in j.fields || j.fields["key"].JStr? || j.fields["key"].JNull?)
  }

  /** `MessageSchema`: `role` is `"USER"` or `"MODEL"`; `image` may be an image, null or absent. */
  predicate MessageSchema(j: Json) {
    && j.JObj?
    && HasString(j.fields, "id") && HasString(j.fields, "content") && HasString(j.fields, "chatId")
    && HasStringIn(j.fields, "role", {"USER", "MODEL"})
    && ("image" !in j.fields || j.fields["image"].JNull? || ImageSchema(j.fields["image"]))
  }

  predicate HasMessages(m: map<string, Json>, k: string) {
    k in m && m[k].JArr? && forall x | x in m[k].items :: MessageSchema(x)
  }

  /** `ChatSchema`. */
  predicate ChatSchema(j: Json) {
    && j.JObj?
    && HasString(j.fields, "id") && HasString(j.fields, "userId")
    && HasMessages(j.fields, "histories")
    && HasDatetime(j.fields, "createdAt") && HasDatetime(j.fields, "updateAt")
    && HasString(j.fields, "name") && HasString(j.fields, "systemPrompt")
  }

  /**
   * `CreateChatSchema`: `ChatSchema` without `createdAt`, `updateAt`,
   * `userId` and `name`, plus a `message` string, an optional `file` and
   * a `lang` of `"FR"` or `"EN"`.
   */
  predicate CreateChatSchema(j: Json) {
    && j.JObj?
    && HasString(j.fields, "id") && HasMessages(j.fields, "histories") && HasString(j.fields, "systemPrompt")
    && HasString(j.fields, "message")
    && ("file" !in j.fields || j.fields["file"].JFile?)
    && HasStringIn(j.fields, "lang", {"FR", "EN"})
  }

  /**
   * `UpdateChatSchema`: `ChatSchema` without `id`, `userId`, `createdAt`
   * and `histories`, every remaining key optional.
   */
  predicate UpdateChatSchema(j: Json) {
    && j.JObj?
    && ("updateAt" !in j.fields || HasDatetime(j.fields, "updateAt"))
    && OptionalString(j.fields, "name")
    && OptionalString(j.fields, "systemPrompt")
  }

  /** `ChatHistoryMessageSchema`. */
  predicate ChatHistoryMessageSchema(j: Json) {
    && j.JObj?
    && HasStringIn(j.fields, "role", {"user", "assistant", "system"})
    && HasString(j.fields, "content")
    && HasDatetime(j.fields, "timestamp")
  }

  /** What a valid update body carries once unknown keys are stripped. */
  datatype ChatPatch = ChatPatch(updateAt: Option<string>, name: Option<string>, systemPrompt: Option<string>)

  function StringField(m: map<string, Json>, k: string): Option<string> {
    if k in m && m[k].JStr? then Some(m[k].s) else None
  }

  /** The update body validator: `None` is a validation failure. */
  function ParseUpdateChat(j: Json): (r: Option<ChatPatch>)
    ensures r.Some? <==> UpdateChatSchema(j)
    ensures r.Some? ==> && (r.value.name.Some? <==> "name" in j.fields)
                        && (r.value.systemPrompt.Some? <==> "systemPrompt" in j.fields)
                        && (r.value.updateAt.Some? ==> IsDatetime(r.value.updateAt.value))
  {
    if UpdateChatSchema(j) then
      Some(ChatPatch(StringField(j.fields, "updateAt"), StringField(j.fields, "name"), StringField(j.fields, "systemPrompt")))
    else None
  }

  /** The keys an update can carry. */
  const UPDATABLE_KEYS: set<string> := {"updateAt", "name", "systemPrompt"}

  /**
   * Whatever a body puts under any other key (`id`, `userId`, `createdAt`,
   * `histories` or anything else) changes neither whether it is accepted nor
   * what it updates.
   */
  lemma UpdateIgnoresOtherKeys(m: map<string, Json>, k: string, v: Json)
    requires k !in UPDATABLE_KEYS
    ensures ParseUpdateChat(JObj(m[k := v])) == ParseUpdateChat(JObj(m))
  {
    var m' := m[k := v];
    assert forall key | key in UPDATABLE_KEYS :: (key in m' <==> key in m) && (key in m ==> m'[key] == m[key]);
  }

  /** Likewise, the keys `CreateChatSchema` omits play no part in accepting a body. */
  lemma CreateIgnoresOmittedKeys(m: map<string, Json>, k: string, v: Json)
    requires k in {"createdAt", "updateAt", "userId", "name"}
    ensures CreateChatSchema(JObj(m[k := v])) == CreateChatSchema(JObj(m))
  {
    var m' := m[k := v];
    assert forall key | key in {"id", "histories", "systemPrompt", "message", "file", "lang"} ::
      (key in m' <==> key in m) && (key in m ==> m'[key] == m[key]);
  }

  // The JSON a chat query answers with; timestamps go through `iso`, which
  // stands for `Date.prototype.toISOString`.

  function RoleName(r: Role): string {
    match r
    case USER => "USER"
    case MODEL => "MODEL"
  }

  function ImageJson(im: ImageRow): Json {
    JObj(map[
      "id" := JStr(im.id), "url" := JStr(im.url),
      "key" := (if im.key.Some? then JStr(im.key.value) else JNull),
      "name" := JStr(im.name), "mimeType" := JStr(im.mimeType), "sizeBytes" := JStr(im.sizeBytes),
      "expirationTime" := JStr(im.expirationTime), "displayName" := JStr(im.displayName),
      "fileUri" := JStr(im.fileUri), "messageId" := JStr(im.messageId)])
  }

  function MessageJson(v: MessageView, iso: int -> string): Json {
    JObj(map[
      "id" := JStr(v.message.id), "content" := JStr(v.message.content),
      "role" := JStr(RoleName(v.message.role)), "chatId" := JStr(v.message.chatId),
      "createdAt" := JStr(iso(v.message.createdAt)),
      "image" := (if v.image.Some? then ImageJson(v.image.value) else JNull)])
  }

  function MessagesJson(vs: seq<MessageView>, iso: int -> string): (r: seq<Json>)
    ensures |r| == |vs|
    ensures forall i :: 0 <= i < |vs| ==> r[i] == MessageJson(vs[i], iso)
  {
    if |vs| == 0 then [] else [MessageJson(vs[0], iso)] + MessagesJson(vs[1..], iso)
  }

  function ChatJson(v: ChatView, iso: int -> string): Json {
    JObj(map[
      "id" := JStr(v.chat.id), "userId" := JStr(v.chat.userId),
      "histories" := JArr(MessagesJson(v.histories, iso)),
      "createdAt" := JStr(iso(v.chat.createdAt)), "updateAt" := JStr(iso(v.chat.updateAt)),
      "name" := JStr(v.chat.name), "systemPrompt" := JStr(v.chat.systemPrompt)])
  }

  lemma ImageJsonConforms(im: ImageRow)
    ensures ImageSchema(ImageJson(im))
  {
    var m := ImageJson(im).fields;
    assert HasString(m, "id") && HasString(m, "url") && HasString(m, "name");
    assert HasString(m, "mimeType") && HasString(m, "sizeBytes") && HasString(m, "expirationTime");
    assert HasString(m, "displayName") && HasString(m, "fileUri") && HasString(m, "messageId");
  }

  lemma MessageJsonConforms(v: MessageView, iso: int -> string)
    ensures MessageSchema(MessageJson(v, iso))
  {
    var m := MessageJson(v, iso).fields;
    assert HasString(m, "id") && HasString(m, "content") && HasString(m, "chatId");
    assert HasStringIn(m, "role", {"USER", "MODEL"});
    if v.image.Some? {
      ImageJsonConforms(v.image.value);
    }
  }

  lemma MessagesJsonConform(vs: seq<MessageView>, iso: int -> string)
    ensures forall x | x in MessagesJson(vs, iso) :: MessageSchema(x)
  {
    var items := MessagesJson(vs, iso);
    forall x | x in items ensures MessageSchema(x) {
      var i :| 0 <= i < |items| && items[i] == x;
      MessageJsonConforms(vs[i], iso);
    }
  }

  /** Every row the tables can hold answers in the shape `ChatSchema` documents. */
  lemma ChatJsonConforms(v: ChatView, iso: int -> string)
    requires forall t :: IsDatetime(iso(t))
    ensures ChatSchema(ChatJson(v, iso))
  {
    var m := ChatJson(v, iso).fields;
    MessagesJsonConform(v.histories, iso);
    assert m["histories"] == JArr(MessagesJson(v.histories, iso));
    var created, updated := iso(v.chat.createdAt), iso(v.chat.updateAt);
    assert IsDatetime(created) && IsDatetime(updated);
    assert m["createdAt"] == JStr(created) && m["updateAt"] == JStr(updated);
  }
}
