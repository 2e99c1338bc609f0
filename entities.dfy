/**
 * The entity tables of the conversation state: identities, messages, chats and
 * toasts, as the state container and the event translator exchange them.
 * Records of the backend (`warp`) keep only the fields the core reads.
 */
module Entities {
  import opened Wrappers

  /** Conversation, message and toast ids (`Uuid`): opaque, compared only for equality. */
  type Uuid = nat

  /** Decentralized identifiers (`DID`), compared through their string form. */
  type Did = string

  /** `std::time::Instant`: nanoseconds on a monotonic clock. */
  type Instant = nat

  /** Native window ids (`WindowId`): opaque. */
  type WindowId = nat

  datatype IdentityStatus = Online | Offline | Away

  datatype Platform = Desktop | Mobile | Web | Unknown

  /** A participant, self or remote. */
  datatype Identity = Identity(
    did: Did,
    username: string,
    profilePicture: string,
    profileBanner: string,
    status: IdentityStatus,
    platform: Platform,
    statusMessage: Option<string>)

  /** `Identity::default()`: every text empty. */
  function DefaultIdentity(): Identity
  {
    Identity("", "", "", "", Offline, Unknown, None)
  }

  /** One emoji and the identities that reacted with it. */
  datatype Reaction = Reaction(emoji: string, users: seq<Did>)

  /** The backend's message record (`raygun::Message`). */
  datatype RawMessage = RawMessage(
    id: Uuid,
    conversationId: Uuid,
    sender: Did,
    value: seq<string>,
    reactions: seq<Reaction>)

  /** The UI's message: the backend record plus a reply snapshot and a local correlation key. */
  datatype Message = Message(inner: RawMessage, inReplyTo: Option<string>, key: string)

  datatype ConversationType = Direct | Group

  /** The backend's conversation record (`raygun::Conversation`). */
  datatype Conversation = Conversation(
    id: Uuid,
    name: Option<string>,
    recipients: seq<Did>,
    conversationType: ConversationType,
    creator: Option<Did>)

  /** Largest value of the pending-outgoing counter, taken as a `u32`. */
  const PENDING_MAX: nat := 0xFFFF_FFFF

  /** A conversation as the UI keeps it. */
  datatype Chat = Chat(
    id: Uuid,
    participants: set<Did>,
    conversationType: ConversationType,
    conversationName: Option<string>,
    creator: Option<Did>,
    messages: seq<Message>,
    unreads: nat,
    pendingOutgoingMessages: nat,
    typingIndicator: map<Did, Instant>,
    draft: Option<string>,
    replyingTo: Option<RawMessage>,
    hasMoreMessages: bool)

  /** What a ConversationCreated event carries: the chat and its participants' identities. */
  datatype ChatAdapter = ChatAdapter(inner: Chat, identities: seq<Identity>)

  /** The icons the core chooses between; every other icon is named by its shape. */
  datatype Icon = ArrowDown | DocumentArrowDown | Shape(name: string)

  /** A transient toast with a countdown lifetime, in ticks. */
  datatype ToastNotification = ToastNotification(
    title: string,
    content: string,
    icon: Option<Icon>,
    initialTime: nat,
    remainingTime: nat)

  /** `ToastNotification::init(title, content, icon, time)`: the countdown starts full. */
  function InitToast(title: string, content: string, icon: Option<Icon>, time: nat): (t: ToastNotification)
    ensures t.remainingTime == t.initialTime == time
  {
    ToastNotification(title, content, icon, time, time)
  }

  /** One tick of a toast's countdown (`decrement_time`), stopping at zero. */
  function DecrementTime(t: ToastNotification): (r: ToastNotification)
    ensures r.remainingTime == if t.remainingTime > 0 then t.remainingTime - 1 else 0
    ensures r.(remainingTime := t.remainingTime) == t
  {
    t.(remainingTime := if t.remainingTime > 0 then t.remainingTime - 1 else 0)
  }
}
