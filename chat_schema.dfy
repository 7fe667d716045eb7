/** The two conversation records: a direct conversation (models/OneToOneMessage.js)
    and a group chat (models/GroupChat.js). Both hold an ordered message list and
    the same three summary fields. */
module ChatSchema {
  import opened Seqs
  import opened Common

  /** A message's `type`: one of "Text", "Media", "Document" and "Link". */
  datatype MessageType = Text | Media | Document | Link

  function MessageTypeName(t: MessageType): string
  {
    match t
    case Text => "Text"
    case Media => "Media"
    case Document => "Document"
    case Link => "Link"
  }

  /** The enum check the schema applies to `type` on save. */
  function ParseMessageType(s: string): (r: Option<MessageType>)
    ensures r.Some? ==> MessageTypeName(r.value) == s
    ensures r.None? ==> forall t :: MessageTypeName(t) != s
  {
    if s == "Text" then Some(Text)
    else if s == "Media" then Some(Media)
    else if s == "Document" then Some(Document)
    else if s == "Link" then Some(Link)
    else None
  }

  /** A message's `type` as the client sends it: left out it stays unset, any
      string outside the enum fails validation. */
  function CheckMessageType(s: Option<string>): (r: Result<Option<MessageType>, Error>)
    ensures r.Failure? ==> r.error == ValidationError
    ensures r.Failure? <==> s.Some? && forall t :: MessageTypeName(t) != s.value
    ensures r.Success? && r.value.Some? ==> s == Some(MessageTypeName(r.value.value))
    ensures s.None? ==> r == Success(None)
    ensures s.Some? && r.Success? ==> r.value.Some?
  {
    match s
    case None => Success(None)
    case Some(name) =>
      match ParseMessageType(name)
      case None => Failure(ValidationError)
      case Some(t) => Success(Some(t))
  }

  /** One message. A direct message has its recipient in `to`; a group message
      has no `to` field, modelled as `None`. `fromName` and `fromImg` are the
      sender's display fields captured when the message is built. */
  datatype Message = Message(
    to: Option<Id>,
    from: Id,
    fromName: string,
    fromImg: Option<string>,
    kind: Option<MessageType>,
    createdAt: Time,
    text: Option<string>,
    file: Option<string>)

  /** `lastMsgFrom`, `lastMsg` and `lastMsgTime`: three optional strings (the
      time is kept as text, not as a date). */
  datatype Summary = Summary(lastMsgFrom: Option<string>, lastMsg: Option<string>, lastMsgTime: Option<string>)

  const NoSummary := Summary(None, None, None)

  /** A direct conversation: an ordered participant list with no size bound in
      the schema. */
  datatype DirectConversation = DirectConversation(
    id: Id,
    participants: seq<Id>,
    messages: seq<Message>,
    summary: Summary)

  /** A group chat; `groupName` is required. */
  datatype GroupChat = GroupChat(
    id: Id,
    groupName: string,
    participants: seq<Id>,
    messages: seq<Message>,
    avatar: Option<string>,
    summary: Summary)

  /** The summary copied from a message: its sender name, its text, and its
      creation time cast to a string by `dateText`. */
  function SummaryOf(m: Message, dateText: Time -> string): (s: Summary)
    ensures s.lastMsg == m.text && s.lastMsgFrom == Some(m.fromName)
    ensures s.lastMsgTime == Some(dateText(m.createdAt))
  {
    Summary(Some(m.fromName), m.text, Some(dateText(m.createdAt)))
  }

  /** The summary describes the last message, and is unset while there is none. */
  ghost predicate SummaryAgrees(messages: seq<Message>, summary: Summary, dateText: Time -> string)
  {
    if messages == [] then summary == NoSummary
    else summary == SummaryOf(messages[|messages| - 1], dateText)
  }
}
