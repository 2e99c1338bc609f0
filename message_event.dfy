/**
 * The closed vocabulary of chat-message events the state consumes, and the
 * translation from the backend's event kinds into it. The backend fetches
 * (`get_message`, `get_conversation`, `did_to_identity`) are parameters that
 * answer with a value or an error; `convert_raygun_message`, which cannot
 * fail, is a parameter too.
 */
module MessageEvents {
  import opened Wrappers
  import opened Entities

  /** A backend failure, carried through unchanged. */
  datatype FetchError = FetchError(reason: string)

  /** The backend's event kinds (`raygun::MessageEventKind`); `Other` stands for every kind the translation does not handle. */
  datatype MessageEventKind =
    | MessageReceived(conversationId: Uuid, messageId: Uuid)
    | MessageSent(conversationId: Uuid, messageId: Uuid)
    | MessageDeleted(conversationId: Uuid, messageId: Uuid)
    | MessageReactionAdded(conversationId: Uuid, messageId: Uuid, reactor: Did, emoji: string)
    | MessageReactionRemoved(conversationId: Uuid, messageId: Uuid, reactor: Did, emoji: string)
    | TypingReceived(conversationId: Uuid, didKey: Did)
    | MessageEdited(conversationId: Uuid, messageId: Uuid)
    | RecipientAdded(conversationId: Uuid, recipient: Did)
    | RecipientRemoved(conversationId: Uuid, recipient: Did)
    | ConversationNameUpdated(conversationId: Uuid, name: string)
    | Other(kind: string)

  /** The UI-side events (`MessageEvent`). */
  datatype MessageEvent =
    | Received(conversationId: Uuid, message: Message)
    | Sent(conversationId: Uuid, message: Message)
    | Edited(conversationId: Uuid, message: Message)
    | Deleted(conversationId: Uuid, messageId: Uuid)
    | ReactionAdded(raw: RawMessage)
    | ReactionRemoved(raw: RawMessage)
    | TypingIndicator(conversationId: Uuid, participant: Did)
    | RecipientJoined(conversation: Conversation, identity: Identity)
    | RecipientLeft(conversation: Conversation)
    | NameUpdated(conversation: Conversation)

  /** The kinds the translation handles; every other kind reaches `todo!()`. */
  predicate Handled(kind: MessageEventKind)
  {
    !kind.Other?
  }

  /** Kinds whose translation fetches the message they name. */
  predicate FetchesMessage(kind: MessageEventKind)
  {
    kind.MessageReceived? || kind.MessageSent? || kind.MessageEdited? ||
    kind.MessageReactionAdded? || kind.MessageReactionRemoved?
  }

  /** Kinds whose translation fetches the conversation they name. */
  predicate FetchesConversation(kind: MessageEventKind)
  {
    kind.RecipientAdded? || kind.RecipientRemoved? || kind.ConversationNameUpdated?
  }

  /** `convert_message_event`: one backend event kind to one UI event, or the first fetch error. */
  function ConvertMessageEvent(
    kind: MessageEventKind,
    getMessage: (Uuid, Uuid) -> Result<RawMessage, FetchError>,
    getConversation: Uuid -> Result<Conversation, FetchError>,
    didToIdentity: Did -> Result<Identity, FetchError>,
    convertMessage: RawMessage -> Message): (r: Result<MessageEvent, FetchError>)
    requires Handled(kind)
    // A message-fetching kind fails exactly when its fetch fails, with that error.
    ensures FetchesMessage(kind) ==>
              (r.Err? <==> getMessage(kind.conversationId, kind.messageId).Err?) &&
              (r.Err? ==> r.error == getMessage(kind.conversationId, kind.messageId).error)
    // Received, Sent and Edited carry the same conversation and the converted fetched message.
    ensures (kind.MessageReceived? || kind.MessageSent? || kind.MessageEdited?) && r.Ok? ==>
              var m := convertMessage(getMessage(kind.conversationId, kind.messageId).value);
              (kind.MessageReceived? <==> r.value == Received(kind.conversationId, m)) &&
              (kind.MessageSent? <==> r.value == Sent(kind.conversationId, m)) &&
              (kind.MessageEdited? <==> r.value == Edited(kind.conversationId, m))
    // Reaction kinds carry the fetched record as is, with the reaction's direction kept.
    ensures (kind.MessageReactionAdded? || kind.MessageReactionRemoved?) && r.Ok? ==>
              var raw := getMessage(kind.conversationId, kind.messageId).value;
              (kind.MessageReactionAdded? <==> r.value == ReactionAdded(raw)) &&
              (kind.MessageReactionRemoved? <==> r.value == ReactionRemoved(raw))
    // Deleted and typing are passed through without any fetch and never fail.
    ensures kind.MessageDeleted? ==> r == Ok(Deleted(kind.conversationId, kind.messageId))
    ensures kind.TypingReceived? ==> r == Ok(TypingIndicator(kind.conversationId, kind.didKey))
    // Recipient and name kinds refetch the conversation; RecipientAdded resolves the identity first.
    ensures kind.RecipientAdded? ==>
              var ident := didToIdentity(kind.recipient);
              var conv := getConversation(kind.conversationId);
              (ident.Err? ==> r == Err(ident.error)) &&
              (ident.Ok? && conv.Err? ==> r == Err(conv.error)) &&
              (ident.Ok? && conv.Ok? ==> r == Ok(RecipientJoined(conv.value, ident.value)))
    ensures (kind.RecipientRemoved? || kind.ConversationNameUpdated?) ==>
              var conv := getConversation(kind.conversationId);
              (conv.Err? <==> r.Err?) && (r.Err? ==> r.error == conv.error) &&
              (r.Ok? ==> r.value == (if kind.RecipientRemoved? then RecipientLeft(conv.value) else NameUpdated(conv.value)))
  {
    match kind
    case MessageReceived(cid, mid) =>
      (match getMessage(cid, mid)
       case Err(e) => Err(e)
       case Ok(raw) => Ok(Received(cid, convertMessage(raw))))
    case MessageSent(cid, mid) =>
      (match getMessage(cid, mid)
       case Err(e) => Err(e)
       case Ok(raw) => Ok(Sent(cid, convertMessage(raw))))
    case MessageDeleted(cid, mid) => Ok(Deleted(cid, mid))
    case MessageReactionAdded(cid, mid, _, _) =>
      (match getMessage(cid, mid)
       case Err(e) => Err(e)
       case Ok(raw) => Ok(ReactionAdded(raw)))
    case MessageReactionRemoved(cid, mid, _, _) =>
      (match getMessage(cid, mid)
       case Err(e) => Err(e)
       case Ok(raw) => Ok(ReactionRemoved(raw)))
    case TypingReceived(cid, did) => Ok(TypingIndicator(cid, did))
    case MessageEdited(cid, mid) =>
      (match getMessage(cid, mid)
       case Err(e) => Err(e)
       case Ok(raw) => Ok(Edited(cid, convertMessage(raw))))
    case RecipientAdded(cid, recipient) =>
      (match didToIdentity(recipient)
       case Err(e) => Err(e)
       case Ok(ident) =>
         match getConversation(cid)
         case Err(e) => Err(e)
         case Ok(conv) => Ok(RecipientJoined(conv, ident)))
    case RecipientRemoved(cid, _) =>
      (match getConversation(cid)
       case Err(e) => Err(e)
       case Ok(conv) => Ok(RecipientLeft(conv)))
    case ConversationNameUpdated(cid, _) =>
      (match getConversation(cid)
       case Err(e) => Err(e)
       case Ok(conv) => Ok(NameUpdated(conv)))
  }

  /**
   * `convert_message_event` over every backend kind: a kind the match does
   * not handle reaches `todo!()` and panics; a handled kind translates as
   * ConvertMessageEvent says.
   */
  function ConvertAnyKind(
    kind: MessageEventKind,
    getMessage: (Uuid, Uuid) -> Result<RawMessage, FetchError>,
    getConversation: Uuid -> Result<Conversation, FetchError>,
    didToIdentity: Did -> Result<Identity, FetchError>,
    convertMessage: RawMessage -> Message): (r: Checked<Result<MessageEvent, FetchError>>)
    ensures r.Panics? <==> kind.Other?
    ensures r.Returns? ==> r.value == ConvertMessageEvent(kind, getMessage, getConversation, didToIdentity, convertMessage)
  {
    if kind.Other? then Panics
    else Returns(ConvertMessageEvent(kind, getMessage, getConversation, didToIdentity, convertMessage))
  }

  /** The conversation a UI event is addressed to, when the event names it directly. */
  function EventConversation(e: MessageEvent): Option<Uuid>
  {
    match e
    case Received(cid, _) => Some(cid)
    case Sent(cid, _) => Some(cid)
    case Edited(cid, _) => Some(cid)
    case Deleted(cid, _) => Some(cid)
    case TypingIndicator(cid, _) => Some(cid)
    case RecipientJoined(conv, _) => Some(conv.id)
    case RecipientLeft(conv) => Some(conv.id)
    case NameUpdated(conv) => Some(conv.id)
    case ReactionAdded(raw) => Some(raw.conversationId)
    case ReactionRemoved(raw) => Some(raw.conversationId)
  }

  /**
   * When every fetch answers for the conversation it was asked about, the
   * translated event is addressed to the same conversation as the backend kind.
   */
  lemma {:induction false} ConvertKeepsConversation(
    kind: MessageEventKind,
    getMessage: (Uuid, Uuid) -> Result<RawMessage, FetchError>,
    getConversation: Uuid -> Result<Conversation, FetchError>,
    didToIdentity: Did -> Result<Identity, FetchError>,
    convertMessage: RawMessage -> Message)
    requires Handled(kind)
    requires forall c, m :: getMessage(c, m).Ok? ==> getMessage(c, m).value.conversationId == c
    requires forall c :: getConversation(c).Ok? ==> getConversation(c).value.id == c
    ensures ConvertMessageEvent(kind, getMessage, getConversation, didToIdentity, convertMessage).Ok? ==>
              EventConversation(ConvertMessageEvent(kind, getMessage, getConversation, didToIdentity, convertMessage).value)
                == Some(kind.conversationId)
  {
  }
}
