/**
 * The dispatch of the state container: UI actions (`mutate`), identity
 * events, conversation events and message events (`process_warp_event`), as
 * functions from the state before to the state after, with the invariants
 * every step keeps and the guarantees of the individual handlers.
 */
module StateEvents {
  import opened Wrappers
  import opened Entities
  import opened SeqOps
  import opened MessageLog
  import opened MessageEvents
  import opened StateSpec

  /** The UI actions the model covers (`Action`). */
  datatype Action =
    | AddToastNotification(toast: ToastNotification)
    | DismissUpdate
    | SendRequest(identity: Identity)
    | RequestAccepted(identity: Identity)
    | CancelRequest(did: Did)
    | AcceptRequest(identity: Identity)
    | DenyRequest(did: Did)
    | RemoveFriend(did: Did)
    | Block(did: Did)
    | Unblock(did: Did)
    | Favorite(chatId: Uuid)
    | ToggleFavorite(chatId: Uuid)
    | UnFavorite(chatId: Uuid)
    | SetLanguage(language: string)
    | AddOverlay(window: WindowId)
    | RemoveFromSidebar(chatId: Uuid)
    | SidebarHidden(hidden: bool)
    | Navigate(to: string)
    | SetMeta(metadata: Metadata)
    | SetTheme(theme: Option<string>)
    | SetFont(font: Option<string>)
    | ChatWith(chatId: Uuid, moveToTop: bool)
    | ClearActiveChat
    | StartReplying(chatId: Uuid, message: Message)
    | CancelReply(chatId: Uuid)
    | ClearUnreads(chatId: Uuid)
    | ClearActiveUnreads
    | SetChatDraft(chatId: Uuid, value: string)
    | ClearChatDraft(chatId: Uuid)
    | SetId(identity: Identity)
    | SetActiveMedia(chatId: Uuid)
    | DisableMedia
    | MockSend(chatId: Uuid, text: seq<string>, messageId: Uuid, key: string)

  /** Identity events (`MultiPassEventKind` as the UI receives it). */
  datatype MultiPassEvent =
    | NoEvent
    | FriendRequestReceived(identity: Identity)
    | FriendRequestSent(identity: Identity)
    | FriendAdded(identity: Identity)
    | FriendRemoved(identity: Identity)
    | FriendRequestCancelled(identity: Identity)
    | FriendOnline(identity: Identity)
    | FriendOffline(identity: Identity)
    | Blocked(identity: Identity)
    | Unblocked(identity: Identity)
    | IdentityUpdate(identity: Identity)

  /** Conversation events (`RayGunEvent`). */
  datatype RayGunEvent =
    | ConversationCreated(chat: ChatAdapter)
    | ConversationDeleted(id: Uuid)

  datatype WarpEvent =
    | MultiPass(mp: MultiPassEvent)
    | RayGun(rg: RayGunEvent)
    | MessageEv(msg: MessageEvent)

  /** The DID whose Direct chat `remove_friend` may look up, for the events and actions that reach it. */
  function FriendTarget(a: Action): Option<Did>
  {
    match a
    case RemoveFriend(did) => Some(did)
    case Block(did) => Some(did)
    case _ => None
  }

  /** The actions on the friendship sets. */
  predicate IsFriendAction(a: Action)
  {
    a.SendRequest? || a.RequestAccepted? || a.CancelRequest? || a.AcceptRequest? ||
    a.DenyRequest? || a.RemoveFriend? || a.Block? || a.Unblock?
  }

  /** The actions on the chats. */
  predicate IsChatAction(a: Action)
  {
    a.Favorite? || a.ToggleFavorite? || a.UnFavorite? || a.RemoveFromSidebar? || a.ChatWith? ||
    a.ClearActiveChat? || a.StartReplying? || a.CancelReply? || a.ClearUnreads? ||
    a.ClearActiveUnreads? || a.SetChatDraft? || a.ClearChatDraft? || a.SetActiveMedia? || a.DisableMedia? ||
    a.MockSend?
  }

  /** `mutate(action)`; `toastKey` is the fresh key of a new toast, `pick` the Direct chat `find` lands on. */
  function ApplyAction(s: Snapshot, a: Action, toastKey: Uuid, pick: Option<Uuid>): (r: Snapshot)
    requires FriendTarget(a).Some? ==> ValidPick(s.chats.all, FriendTarget(a).value, pick)
    ensures r.configuration == s.configuration && r.initialized == s.initialized
  {
    if IsFriendAction(a) then ApplyFriendAction(s, a, pick)
    else if IsChatAction(a) then ApplyChatAction(s, a)
    else ApplySettingsAction(s, a, toastKey)
  }

  /** The friendship actions of `mutate`. */
  function ApplyFriendAction(s: Snapshot, a: Action, pick: Option<Uuid>): (r: Snapshot)
    requires FriendTarget(a).Some? ==> ValidPick(s.chats.all, FriendTarget(a).value, pick)
    ensures r.configuration == s.configuration && r.initialized == s.initialized
  {
    if IsRequestAction(a) then ApplyRequestAction(s, a) else ApplyFriendListAction(s, a, pick)
  }

  /** The actions on pending friend requests. */
  predicate IsRequestAction(a: Action)
  {
    a.SendRequest? || a.RequestAccepted? || a.CancelRequest? || a.AcceptRequest? || a.DenyRequest?
  }

  function ApplyRequestAction(s: Snapshot, a: Action): (r: Snapshot)
    ensures r.configuration == s.configuration && r.initialized == s.initialized
  {
    if a.SendRequest? then NewOutgoingRequest(s, a.identity)
    else if a.RequestAccepted? || a.AcceptRequest? then CompleteRequest(s, a.identity)
    else if a.CancelRequest? || a.DenyRequest? then StateSpec.CancelRequest(s, a.did)
    else s
  }

  /** Removing, blocking and unblocking. */
  function ApplyFriendListAction(s: Snapshot, a: Action, pick: Option<Uuid>): (r: Snapshot)
    requires FriendTarget(a).Some? ==> ValidPick(s.chats.all, FriendTarget(a).value, pick)
    ensures r.configuration == s.configuration && r.initialized == s.initialized
  {
    if a.RemoveFriend? then StateSpec.RemoveFriend(s, a.did, pick)
    else if a.Block? then StateSpec.Block(s, a.did, pick)
    else if a.Unblock? then StateSpec.Unblock(s, a.did)
    else s
  }

  /** The chat actions of `mutate`. */
  function ApplyChatAction(s: Snapshot, a: Action): (r: Snapshot)
    ensures r.configuration == s.configuration && r.initialized == s.initialized
  {
    if IsSidebarAction(a) then ApplySidebarAction(s, a)
    else if IsReplyAction(a) then ApplyReplyAction(s, a)
    else ApplyDraftAction(s, a)
  }

  /** The actions on the favourites, the sidebar and the open chat. */
  predicate IsSidebarAction(a: Action)
  {
    a.Favorite? || a.ToggleFavorite? || a.UnFavorite? || a.RemoveFromSidebar? || a.ChatWith?
  }

  function ApplySidebarAction(s: Snapshot, a: Action): (r: Snapshot)
    ensures r.configuration == s.configuration && r.initialized == s.initialized
  {
    if a.Favorite? then StateSpec.Favorite(s, a.chatId)
    else if a.ToggleFavorite? then StateSpec.ToggleFavorite(s, a.chatId)
    else if a.UnFavorite? then Unfavorite(s, a.chatId)
    else if a.RemoveFromSidebar? then RemoveSidebarChat(s, a.chatId)
    else if a.ChatWith? then SetActiveChat(s, a.chatId, a.moveToTop)
    else s
  }

  /** The actions on replies and unread counters. */
  predicate IsReplyAction(a: Action)
  {
    a.ClearActiveChat? || a.StartReplying? || a.CancelReply? || a.ClearUnreads? || a.ClearActiveUnreads?
  }

  function ApplyReplyAction(s: Snapshot, a: Action): (r: Snapshot)
    ensures r.configuration == s.configuration && r.initialized == s.initialized
  {
    if a.ClearActiveChat? then StateSpec.ClearActiveChat(s)
    else if a.StartReplying? then StateSpec.StartReplying(s, a.chatId, a.message)
    else if a.CancelReply? then StateSpec.CancelReply(s, a.chatId)
    else if a.ClearUnreads? then StateSpec.ClearUnreads(s, a.chatId)
    else if a.ClearActiveUnreads? && s.chats.active.Some? then StateSpec.ClearUnreads(s, s.chats.active.value)
    else s
  }

  /** The actions on drafts and the media call. */
  function ApplyDraftAction(s: Snapshot, a: Action): (r: Snapshot)
    ensures r.configuration == s.configuration && r.initialized == s.initialized
  {
    if a.SetChatDraft? then StateSpec.SetChatDraft(s, a.chatId, a.value)
    else if a.ClearChatDraft? then StateSpec.ClearChatDraft(s, a.chatId)
    else if a.SetActiveMedia? then StateSpec.SetActiveMedia(s, a.chatId)
    else if a.DisableMedia? then StateSpec.DisableMedia(s)
    else if a.MockSend? then AddMsgToChat(s, a.chatId, MockMessage(s.id, a.chatId, a.text, a.messageId, a.key))
    else s
  }

  /**
   * The message `MockSend` adds as if we had sent it: a default backend
   * record in the chat, from us, with the given text, no reactions and no
   * reply. The record id and the local key are the fresh values
   * (`Uuid::new_v4`) the source draws.
   */
  function MockMessage(me: Did, chatId: Uuid, text: seq<string>, messageId: Uuid, key: string): (m: Message)
    ensures m.inner.conversationId == chatId && m.inner.sender == me && m.inner.value == text
    ensures m.inner.reactions == [] && m.inReplyTo.None? && m.key == key && m.inner.id == messageId
  {
    Message(RawMessage(messageId, chatId, me, text, []), None, key)
  }

  /** The toast, settings, window and identity actions of `mutate`. */
  function ApplySettingsAction(s: Snapshot, a: Action, toastKey: Uuid): (r: Snapshot)
    ensures r.configuration == s.configuration && r.initialized == s.initialized
  {
    if IsWindowAction(a) then ApplyWindowAction(s, a) else ApplyPreferenceAction(s, a, toastKey)
  }

  /** The actions on the window: overlays, sidebar, route and metadata. */
  predicate IsWindowAction(a: Action)
  {
    a.AddOverlay? || a.SidebarHidden? || a.Navigate? || a.SetMeta?
  }

  function ApplyWindowAction(s: Snapshot, a: Action): (r: Snapshot)
    ensures r.configuration == s.configuration && r.initialized == s.initialized
  {
    if a.AddOverlay? then s.(ui := s.ui.(overlays := s.ui.overlays + [a.window]))
    else if a.SidebarHidden? then s.(ui := s.ui.(sidebarHidden := a.hidden))
    else if a.Navigate? then s.(route := a.to)
    else if a.SetMeta? then s.(ui := s.ui.(metadata := a.metadata))
    else s
  }

  /** Toasts, the update banner, language, theme, font and the own identity. */
  function ApplyPreferenceAction(s: Snapshot, a: Action, toastKey: Uuid): (r: Snapshot)
    ensures r.configuration == s.configuration && r.initialized == s.initialized
  {
    if a.AddToastNotification? then AddToast(s, toastKey, a.toast)
    else if a.DismissUpdate? then StateSpec.DismissUpdate(s)
    else if a.SetLanguage? then StateSpec.SetLanguage(s, a.language)
    else if a.SetTheme? then StateSpec.SetTheme(s, a.theme)
    else if a.SetFont? then StateSpec.SetFont(s, a.font)
    else if a.SetId? then SetOwnIdentity(s, a.identity)
    else s
  }

  /** The DID whose Direct chat `remove_friend` may look up, for an identity event. */
  function EventFriendTarget(e: MultiPassEvent): Option<Did>
  {
    if e.Blocked? then Some(e.identity.did) else None
  }

  /** `process_multipass_event`. */
  function ApplyMultiPass(s: Snapshot, e: MultiPassEvent, pick: Option<Uuid>): (r: Snapshot)
    requires EventFriendTarget(e).Some? ==> ValidPick(s.chats.all, EventFriendTarget(e).value, pick)
    ensures r.chats == s.chats || e.Blocked?
  {
    match e
    case NoEvent => s
    case FriendRequestReceived(ident) => NewIncomingRequest(s, ident)
    case FriendRequestSent(ident) => NewOutgoingRequest(s, ident)
    case FriendAdded(ident) => CompleteRequest(s, ident)
    case FriendRemoved(ident) => s.(friends := s.friends.(all := s.friends.all - {ident.did}))
    case FriendRequestCancelled(ident) => StateSpec.CancelRequest(s, ident.did)
    case FriendOnline(ident) => SetStatus(s, ident.did, Online)
    case FriendOffline(ident) => SetStatus(s, ident.did, Offline)
    case Blocked(ident) => StateSpec.Block(s, ident.did, pick)
    case Unblocked(ident) => StateSpec.Unblock(s, ident.did)
    case IdentityUpdate(ident) => UpdateIdentity(s, ident.did, ident)
  }

  /** Whether a friend request raises a desktop notification: only when unfocused and enabled. */
  predicate FriendRequestNotifies(s: Snapshot)
  {
    !s.ui.metadata.focused && s.configuration.friendsNotifications
  }

  /**
   * ConversationCreated: a chat new to the sidebar goes to its top and its
   * participants' identities are registered; the table entry is always
   * (re)written.
   */
  function ConversationCreated(s: Snapshot, chat: ChatAdapter): (r: Snapshot)
    ensures chat.inner.id in r.chats.all && r.chats.all[chat.inner.id] == chat.inner
    ensures r.chats.all == s.chats.all[chat.inner.id := chat.inner]
    ensures chat.inner.id !in s.chats.inSidebar ==>
              r.chats.inSidebar == [chat.inner.id] + s.chats.inSidebar &&
              r.identities == RegisterIdentities(s.identities, chat.identities)
    ensures chat.inner.id in s.chats.inSidebar ==>
              r.chats.inSidebar == s.chats.inSidebar && r.identities == s.identities
    ensures r == s.(chats := s.chats.(all := r.chats.all, inSidebar := r.chats.inSidebar), identities := r.identities)
  {
    var cid := chat.inner.id;
    var s1 := if cid !in s.chats.inSidebar then
                s.(chats := s.chats.(inSidebar := [cid] + s.chats.inSidebar),
                   identities := RegisterIdentities(s.identities, chat.identities))
              else s;
    s1.(chats := s1.chats.(all := s1.chats.all[cid := chat.inner]))
  }

  /** ConversationDeleted: the chat leaves the sidebar and the table, and is closed if it was open. */
  function ConversationDeleted(s: Snapshot, cid: Uuid): (r: Snapshot)
    ensures cid !in r.chats.inSidebar && cid !in r.chats.all
    ensures r.chats.inSidebar == Without(s.chats.inSidebar, cid)
    ensures r.chats.all == s.chats.all - {cid}
    ensures r.chats.active == (if s.chats.active == Some(cid) then None else s.chats.active)
    ensures r == s.(chats := s.chats.(all := r.chats.all, inSidebar := r.chats.inSidebar, active := r.chats.active))
  {
    var s1 := s.(chats := s.chats.(inSidebar := Without(s.chats.inSidebar, cid), all := s.chats.all - {cid}));
    if s1.chats.active == Some(cid) then StateSpec.ClearActiveChat(s1) else s1
  }

  /** `process_raygun_event`. */
  function ApplyRayGun(s: Snapshot, e: RayGunEvent): (r: Snapshot)
    ensures r.friends == s.friends && r.settings == s.settings && r.configuration == s.configuration
    ensures e.ConversationCreated? ==>
              var id := e.chat.inner.id;
              id in r.chats.all && r.chats.all[id] == e.chat.inner && id in r.chats.inSidebar
    ensures e.ConversationDeleted? ==>
              e.id !in r.chats.all && e.id !in r.chats.inSidebar && r.chats.active != Some(e.id)
  {
    match e
    case ConversationCreated(chat) => ConversationCreated(s, chat)
    case ConversationDeleted(cid) => ConversationDeleted(s, cid)
  }

  /** A Sent message goes to the back of an existing chat's log; nothing else about the chat changes. */
  function AppendMessage(s: Snapshot, cid: Uuid, m: Message): (r: Snapshot)
    ensures OnlyChatChanged(s, r, cid)
    ensures cid in s.chats.all ==> r.chats.all[cid] == s.chats.all[cid].(messages := s.chats.all[cid].messages + [m])
  {
    if cid in s.chats.all then PutChat(s, cid, s.chats.all[cid].(messages := s.chats.all[cid].messages + [m])) else s
  }

  /** An Edited message replaces the first message with its id in an existing chat. */
  function EditMessage(s: Snapshot, cid: Uuid, m: Message): (r: Snapshot)
    ensures OnlyChatChanged(s, r, cid)
    ensures cid in s.chats.all ==>
              r.chats.all[cid] == s.chats.all[cid].(messages := ReplaceFirstById(s.chats.all[cid].messages, m))
  {
    if cid in s.chats.all then
      PutChat(s, cid, s.chats.all[cid].(messages := ReplaceFirstById(s.chats.all[cid].messages, m)))
    else s
  }

  /** A Deleted message disappears, every copy of its id, from an existing chat. */
  function DeleteMessage(s: Snapshot, cid: Uuid, mid: Uuid): (r: Snapshot)
    ensures OnlyChatChanged(s, r, cid)
    ensures cid in s.chats.all ==>
              r.chats.all[cid] == s.chats.all[cid].(messages := RemoveById(s.chats.all[cid].messages, mid))
  {
    if cid in s.chats.all then
      PutChat(s, cid, s.chats.all[cid].(messages := RemoveById(s.chats.all[cid].messages, mid)))
    else s
  }

  /** A typing event marks the participant as typing `now`, only in chats that are in the sidebar. */
  function MarkTyping(s: Snapshot, cid: Uuid, participant: Did, now: Instant): (r: Snapshot)
    ensures OnlyChatChanged(s, r, cid)
    ensures cid !in s.chats.inSidebar ==> r == s
    ensures cid in s.chats.inSidebar && cid in s.chats.all ==>
              r.chats.all[cid] == s.chats.all[cid].(typingIndicator := s.chats.all[cid].typingIndicator[participant := now])
  {
    if cid !in s.chats.inSidebar || cid !in s.chats.all then s
    else PutChat(s, cid, s.chats.all[cid].(typingIndicator := s.chats.all[cid].typingIndicator[participant := now]))
  }

  /** The participants of an existing chat become the backend's recipients. */
  function SetParticipants(s: Snapshot, conv: Conversation): (r: Snapshot)
    ensures OnlyChatChanged(s, r, conv.id)
    ensures conv.id in s.chats.all ==>
              (forall d :: d in r.chats.all[conv.id].participants <==> d in conv.recipients) &&
              r.chats.all[conv.id] == s.chats.all[conv.id].(participants := r.chats.all[conv.id].participants)
  {
    if conv.id in s.chats.all then
      PutChat(s, conv.id, s.chats.all[conv.id].(participants := set d | d in conv.recipients))
    else s
  }

  /** An existing chat takes the backend's conversation name. */
  function SetConversationName(s: Snapshot, conv: Conversation): (r: Snapshot)
    ensures OnlyChatChanged(s, r, conv.id)
    ensures conv.id in s.chats.all ==> r.chats.all[conv.id] == s.chats.all[conv.id].(conversationName := conv.name)
  {
    if conv.id in s.chats.all then PutChat(s, conv.id, s.chats.all[conv.id].(conversationName := conv.name)) else s
  }

  /** `process_message_event`; `now` is the clock reading a typing event records. */
  function ApplyMessageEvent(s: Snapshot, e: MessageEvent, now: Instant): (r: Snapshot)
    ensures r.friends == s.friends && r.settings == s.settings && r.configuration == s.configuration
    ensures r.chats.all.Keys == s.chats.all.Keys && r.chats.active == s.chats.active
    ensures e.Received? || e.Sent? ==> |r.chats.inSidebar| > 0 && r.chats.inSidebar[0] == e.conversationId
    ensures !(e.Received? || e.Sent?) ==> r.chats.inSidebar == s.chats.inSidebar
  {
    match e
    case Received(cid, m) => SendChatToTop(AddMsgToChat(StatusHack(s, m.inner.sender), cid, m), cid)
    case Sent(cid, m) => DecrementOutgoing(SendChatToTop(AppendMessage(s, cid, m), cid), cid)
    case Edited(cid, m) => EditMessage(StatusHack(s, m.inner.sender), cid, m)
    case Deleted(cid, mid) => DeleteMessage(s, cid, mid)
    case ReactionAdded(raw) => UpdateMessage(s, raw)
    case ReactionRemoved(raw) => UpdateMessage(s, raw)
    case TypingIndicator(cid, p) => MarkTyping(StatusHack(s, p), cid, p, now)
    case RecipientJoined(conv, ident) => SetParticipants(s.(identities := s.identities[ident.did := ident]), conv)
    case RecipientLeft(conv) => SetParticipants(s, conv)
    case NameUpdated(conv) => SetConversationName(s, conv)
  }

  /** `process_warp_event`. */
  function ApplyWarpEvent(s: Snapshot, e: WarpEvent, now: Instant, pick: Option<Uuid>): (r: Snapshot)
    requires e.MultiPass? && EventFriendTarget(e.mp).Some? ==> ValidPick(s.chats.all, EventFriendTarget(e.mp).value, pick)
    ensures r.configuration == s.configuration && r.initialized == s.initialized
    ensures !e.MultiPass? ==> r.friends == s.friends && r.settings == s.settings
    ensures e.MessageEv? ==> r.chats.all.Keys == s.chats.all.Keys
  {
    match e
    case MultiPass(mp) => ApplyMultiPass(s, mp, pick)
    case RayGun(rg) => ApplyRayGun(s, rg)
    case MessageEv(me) => ApplyMessageEvent(s, me, now)
  }

  /** How a received message is announced. */
  datatype MessageAlert = PushNotification(withSound: bool) | PlaySound | NoAlert

  /**
   * The alert for a received message: a desktop notification when message
   * notifications are on and the window is unfocused (with sound iff message
   * sounds are on); otherwise a bare sound outside the Compose layout when
   * message sounds are on; otherwise nothing.
   */
  function ReceivedAlert(s: Snapshot): (a: MessageAlert)
    ensures a.PushNotification? <==> s.configuration.messagesNotifications && !s.ui.metadata.focused
    ensures a.PushNotification? ==> a.withSound == s.configuration.messageSounds
    ensures a == PlaySound <==> !a.PushNotification? && s.ui.currentLayout != Compose && s.configuration.messageSounds
    ensures a != NoAlert && a != PushNotification(false) ==> s.configuration.messageSounds
  {
    if s.configuration.messagesNotifications && !s.ui.metadata.focused then PushNotification(s.configuration.messageSounds)
    else if s.ui.currentLayout != Compose && s.configuration.messageSounds then PlaySound
    else NoAlert
  }

  // ===== Invariants =====

  /** Every chat is stored under its own id. */
  predicate ChatsKeyed(all: map<Uuid, Chat>)
  {
    forall k :: k in all ==> all[k].id == k
  }

  /**
   * What every step keeps: the sidebar and the favourites list each chat at
   * most once, and chats and identities are stored under their own ids.
   */
  predicate Valid(s: Snapshot)
  {
    && NoDup(s.chats.inSidebar)
    && NoDup(s.chats.favorites)
    && ChatsKeyed(s.chats.all)
    && IdentitiesKeyed(s.identities)
  }

  /** Edits that touch at most one chat's contents keep the table keyed. */
  lemma {:induction false} OnlyChatChangedKeyed(s: Snapshot, r: Snapshot, cid: Uuid)
    requires ChatsKeyed(s.chats.all) && OnlyChatChanged(s, r, cid)
    requires cid in s.chats.all ==> r.chats.all[cid].id == cid
    ensures ChatsKeyed(r.chats.all)
  {
  }

  /** Every action keeps the state valid. */
  lemma {:induction false} ActionKeepsValid(s: Snapshot, a: Action, toastKey: Uuid, pick: Option<Uuid>)
    requires Valid(s)
    requires FriendTarget(a).Some? ==> ValidPick(s.chats.all, FriendTarget(a).value, pick)
    ensures Valid(ApplyAction(s, a, toastKey, pick))
  {
    if IsFriendAction(a) {
      FriendActionKeepsValid(s, a, pick);
    } else if IsChatAction(a) {
      ChatActionKeepsValid(s, a);
    } else {
      SettingsActionKeepsValid(s, a, toastKey);
    }
  }

  lemma {:induction false} FriendActionKeepsValid(s: Snapshot, a: Action, pick: Option<Uuid>)
    requires Valid(s)
    requires FriendTarget(a).Some? ==> ValidPick(s.chats.all, FriendTarget(a).value, pick)
    ensures Valid(ApplyFriendAction(s, a, pick))
  {
    if IsRequestAction(a) {
      RequestActionKeepsValid(s, a);
    } else if a.Block? {
      var did := a.did;
      var s1 := s.(friends := s.friends.(blocked := s.friends.blocked + {did},
                                          outgoingRequests := s.friends.outgoingRequests - {did},
                                          incomingRequests := s.friends.incomingRequests - {did}));
      assert Valid(s1);
    }
  }

  lemma {:induction false} RequestActionKeepsValid(s: Snapshot, a: Action)
    requires Valid(s)
    ensures Valid(ApplyRequestAction(s, a))
  {
  }

  lemma {:induction false} ChatActionKeepsValid(s: Snapshot, a: Action)
    requires Valid(s)
    ensures Valid(ApplyChatAction(s, a))
  {
    if IsSidebarAction(a) {
      SidebarActionKeepsValid(s, a);
    } else if IsReplyAction(a) {
      ReplyActionKeepsValid(s, a);
    } else {
      DraftActionKeepsValid(s, a);
    }
  }

  lemma {:induction false} SidebarActionKeepsValid(s: Snapshot, a: Action)
    requires Valid(s)
    ensures Valid(ApplySidebarAction(s, a))
  {
  }

  lemma {:induction false} ReplyActionKeepsValid(s: Snapshot, a: Action)
    requires Valid(s)
    ensures Valid(ApplyReplyAction(s, a))
  {
  }

  /**
   * `MockSend` on a known chat appends one message from us carrying the
   * given text, exactly as an incoming message would be added.
   */
  lemma {:induction false} MockSendAppendsOwnMessage(s: Snapshot, a: Action, toastKey: Uuid, pick: Option<Uuid>)
    requires a.MockSend? && a.chatId in s.chats.all
    ensures var c, c' := s.chats.all[a.chatId], ApplyAction(s, a, toastKey, pick).chats.all[a.chatId];
            && |c'.messages| == |c.messages| + 1
            && c'.messages[..|c.messages|] == c.messages
            && c'.messages[|c.messages|].inner.sender == s.id
            && c'.messages[|c.messages|].inner.conversationId == a.chatId
            && c'.messages[|c.messages|].inner.value == a.text
            && c'.messages[|c.messages|].inner.id == a.messageId
  {
    var m := MockMessage(s.id, a.chatId, a.text, a.messageId, a.key);
    assert ApplyAction(s, a, toastKey, pick) == AddMsgToChat(s, a.chatId, m);
  }

  lemma {:induction false} DraftActionKeepsValid(s: Snapshot, a: Action)
    requires Valid(s)
    ensures Valid(ApplyDraftAction(s, a))
  {
    if a.MockSend? {
      var m := MockMessage(s.id, a.chatId, a.text, a.messageId, a.key);
      OnlyChatChangedKeyed(s, AddMsgToChat(s, a.chatId, m), a.chatId);
    }
  }

  lemma {:induction false} SettingsActionKeepsValid(s: Snapshot, a: Action, toastKey: Uuid)
    requires Valid(s)
    ensures Valid(ApplySettingsAction(s, a, toastKey))
  {
    if IsWindowAction(a) {
      assert Valid(ApplyWindowAction(s, a));
    } else {
      assert Valid(ApplyPreferenceAction(s, a, toastKey));
    }
  }

  /** Every identity event keeps the state valid. */
  lemma {:induction false} MultiPassKeepsValid(s: Snapshot, e: MultiPassEvent, pick: Option<Uuid>)
    requires Valid(s)
    requires EventFriendTarget(e).Some? ==> ValidPick(s.chats.all, EventFriendTarget(e).value, pick)
    ensures Valid(ApplyMultiPass(s, e, pick))
  {
    if e.Blocked? {
      var did := e.identity.did;
      var s1 := s.(friends := s.friends.(blocked := s.friends.blocked + {did},
                                          outgoingRequests := s.friends.outgoingRequests - {did},
                                          incomingRequests := s.friends.incomingRequests - {did}));
      assert Valid(s1);
    }
  }

  /** Every conversation event keeps the state valid. */
  lemma {:induction false} RayGunKeepsValid(s: Snapshot, e: RayGunEvent)
    requires Valid(s)
    ensures Valid(ApplyRayGun(s, e))
  {
    match e
    case ConversationCreated(chat) =>
      if chat.inner.id !in s.chats.inSidebar { ConsNoDup(s.chats.inSidebar, chat.inner.id); }
    case ConversationDeleted(cid) =>
      WithoutNoDup(s.chats.inSidebar, cid);
  }

  /** Every message event keeps the state valid. */
  lemma {:induction false} MessageEventKeepsValid(s: Snapshot, e: MessageEvent, now: Instant)
    requires Valid(s)
    ensures Valid(ApplyMessageEvent(s, e, now))
  {
    if e.Received? || e.Sent? || e.Edited? {
      NewMessageKeepsValid(s, e, now);
    } else {
      ChatEditKeepsValid(s, e, now);
    }
  }

  /** A received, sent or edited message keeps the state valid. */
  lemma {:induction false} NewMessageKeepsValid(s: Snapshot, e: MessageEvent, now: Instant)
    requires Valid(s)
    requires e.Received? || e.Sent? || e.Edited?
    ensures Valid(ApplyMessageEvent(s, e, now))
  {
    var cid, m := e.conversationId, e.message;
    if e.Received? {
      var s1 := StatusHack(s, m.inner.sender);
      OnlyChatChangedKeyed(s1, AddMsgToChat(s1, cid, m), cid);
    } else if e.Sent? {
      var s1 := AppendMessage(s, cid, m);
      OnlyChatChangedKeyed(s, s1, cid);
      var s2 := SendChatToTop(s1, cid);
      OnlyChatChangedKeyed(s2, DecrementOutgoing(s2, cid), cid);
    } else {
      var s1 := StatusHack(s, m.inner.sender);
      OnlyChatChangedKeyed(s1, EditMessage(s1, cid, m), cid);
    }
  }

  /** Deletions, reactions, typing and conversation updates keep the state valid. */
  lemma {:induction false} ChatEditKeepsValid(s: Snapshot, e: MessageEvent, now: Instant)
    requires Valid(s)
    requires !(e.Received? || e.Sent? || e.Edited?)
    ensures Valid(ApplyMessageEvent(s, e, now))
  {
    if e.Deleted? {
      OnlyChatChangedKeyed(s, DeleteMessage(s, e.conversationId, e.messageId), e.conversationId);
    } else if e.ReactionAdded? || e.ReactionRemoved? {
      OnlyChatChangedKeyed(s, UpdateMessage(s, e.raw), e.raw.conversationId);
    } else if e.TypingIndicator? {
      var s1 := StatusHack(s, e.participant);
      OnlyChatChangedKeyed(s1, MarkTyping(s1, e.conversationId, e.participant, now), e.conversationId);
    } else if e.RecipientJoined? {
      var s1 := s.(identities := s.identities[e.identity.did := e.identity]);
      OnlyChatChangedKeyed(s1, SetParticipants(s1, e.conversation), e.conversation.id);
    } else {
      OnlyChatChangedKeyed(s, SetParticipants(s, e.conversation), e.conversation.id);
      OnlyChatChangedKeyed(s, SetConversationName(s, e.conversation), e.conversation.id);
    }
  }

  /** Every backend event keeps the invariant. */
  lemma {:induction false} WarpEventKeepsValid(s: Snapshot, e: WarpEvent, now: Instant, pick: Option<Uuid>)
    requires Valid(s)
    requires e.MultiPass? && EventFriendTarget(e.mp).Some? ==> ValidPick(s.chats.all, EventFriendTarget(e.mp).value, pick)
    ensures Valid(ApplyWarpEvent(s, e, now, pick))
  {
    match e
    case MultiPass(mp) => MultiPassKeepsValid(s, mp, pick);
    case RayGun(rg) => RayGunKeepsValid(s, rg);
    case MessageEv(me) => MessageEventKeepsValid(s, me, now);
  }

  /** Start-up keeps the state valid when the backend's tables are keyed by their own ids. */
  lemma {:induction false} InitWarpKeepsValid(s: Snapshot, friends: Friends, chats: map<Uuid, Chat>, identities: map<Did, Identity>)
    requires Valid(s) && ChatsKeyed(chats) && IdentitiesKeyed(identities)
    ensures Valid(InitWarp(s, friends, chats, identities))
  {
  }

  // ===== Friendship sets =====

  /** No DID is at once a friend, an outgoing request and an incoming request (pairwise). */
  predicate RequestsExclusive(f: Friends)
  {
    && f.all * f.outgoingRequests == {}
    && f.all * f.incomingRequests == {}
    && f.outgoingRequests * f.incomingRequests == {}
  }

  /** Accepting, cancelling, blocking, unblocking and unfriending keep the three sets apart. */
  lemma {:induction false} FriendHelpersKeepExclusive(s: Snapshot, ident: Identity, did: Did, pick: Option<Uuid>)
    requires RequestsExclusive(s.friends)
    requires ValidPick(s.chats.all, did, pick)
    ensures RequestsExclusive(CompleteRequest(s, ident).friends)
    ensures RequestsExclusive(StateSpec.CancelRequest(s, did).friends)
    ensures RequestsExclusive(StateSpec.Block(s, did, pick).friends)
    ensures RequestsExclusive(StateSpec.Unblock(s, did).friends)
    ensures RequestsExclusive(StateSpec.RemoveFriend(s, did, pick).friends)
  {
  }

  /** A new outgoing request keeps the sets apart exactly when the DID is neither a friend nor an incoming request. */
  lemma {:induction false} OutgoingRequestExclusiveIff(s: Snapshot, ident: Identity)
    requires RequestsExclusive(s.friends)
    ensures RequestsExclusive(NewOutgoingRequest(s, ident).friends) <==>
              ident.did !in s.friends.all && ident.did !in s.friends.incomingRequests
  {
    var f := NewOutgoingRequest(s, ident).friends;
    if ident.did in s.friends.all { assert ident.did in f.all * f.outgoingRequests; }
    if ident.did in s.friends.incomingRequests { assert ident.did in f.outgoingRequests * f.incomingRequests; }
  }

  /** A new incoming request keeps the sets apart exactly when the DID is neither a friend nor an outgoing request. */
  lemma {:induction false} IncomingRequestExclusiveIff(s: Snapshot, ident: Identity)
    requires RequestsExclusive(s.friends)
    ensures RequestsExclusive(NewIncomingRequest(s, ident).friends) <==>
              ident.did !in s.friends.all && ident.did !in s.friends.outgoingRequests
  {
    var f := NewIncomingRequest(s, ident).friends;
    if ident.did in s.friends.all { assert ident.did in f.all * f.incomingRequests; }
    if ident.did in s.friends.outgoingRequests { assert ident.did in f.outgoingRequests * f.incomingRequests; }
  }

  /**
   * Blocking the DID of the open Direct chat, when that chat is the only
   * Direct chat with the DID, closes it and takes it out of the favourites.
   */
  lemma {:induction false} BlockClosesOnlyDirectChat(s: Snapshot, did: Did, k: Uuid, pick: Option<Uuid>)
    requires ChatsKeyed(s.chats.all)
    requires k in s.chats.all && IsDirectWith(s.chats.all[k], did) && s.chats.active == Some(k)
    requires forall j :: j in s.chats.all && j != k ==> !IsDirectWith(s.chats.all[j], did)
    requires ValidPick(s.chats.all, did, pick)
    ensures StateSpec.Block(s, did, pick).chats.active.None?
    ensures k !in StateSpec.Block(s, did, pick).chats.favorites
    ensures did in StateSpec.Block(s, did, pick).friends.blocked
    ensures StateSpec.Block(s, did, pick).identities == s.identities
  {
    assert pick == Some(k);
  }

  /**
   * With two Direct chats for the same DID, the chat `find` lands on may be
   * the one that is not open, so blocking can leave the open Direct chat open.
   */
  lemma {:induction false} BlockMayKeepOtherDirectChatOpen()
    ensures var c1 := Chat(1, {"did:a"}, Direct, None, None, [], 0, 0, map[], None, None, false);
            var c2 := c1.(id := 2);
            var chats := Chats(map[1 := c1, 2 := c2], [], [], Some(1), None);
            var ui := Ui(map[], Welcome, Metadata(false, false), None, None, false, [], None, false, false);
            var s := Snapshot("did:me", "/", chats, Friends({"did:a"}, {}, {}, {}), map[], ui,
                              Settings("", None, None), Configuration(false, false, false), true);
            ValidPick(s.chats.all, "did:a", Some(2)) &&
            StateSpec.Block(s, "did:a", Some(2)).chats.active == Some(1)
  {
  }

  // ===== Message events =====

  /**
   * Received on an existing chat: the message ends the log, the chat is first
   * in the sidebar, and it gains an unread unless it is open in Compose.
   */
  lemma {:induction false} ReceivedOnExistingChat(s: Snapshot, cid: Uuid, m: Message, now: Instant)
    requires cid in s.chats.all
    ensures var r := ApplyMessageEvent(s, Received(cid, m), now);
            && cid in r.chats.all
            && r.chats.all[cid].messages == s.chats.all[cid].messages + [m]
            && r.chats.inSidebar[0] == cid
            && r.chats.all[cid].unreads ==
               (if s.ui.currentLayout == Compose && s.chats.active == Some(cid) then s.chats.all[cid].unreads
                else s.chats.all[cid].unreads + 1)
            && m.inner.sender !in r.chats.all[cid].typingIndicator
  {
  }

  /**
   * Sent on an existing chat: the message ends the log, the unread count is
   * untouched, the chat is first in the sidebar and one fewer message is pending.
   */
  lemma {:induction false} SentOnExistingChat(s: Snapshot, cid: Uuid, m: Message, now: Instant)
    requires cid in s.chats.all
    ensures var r := ApplyMessageEvent(s, Sent(cid, m), now);
            var p := s.chats.all[cid].pendingOutgoingMessages;
            && cid in r.chats.all
            && r.chats.all[cid].messages == s.chats.all[cid].messages + [m]
            && r.chats.all[cid].unreads == s.chats.all[cid].unreads
            && r.chats.inSidebar[0] == cid
            && r.chats.all[cid].pendingOutgoingMessages == (if p > 0 then p - 1 else 0)
  {
  }

  /** A message event for a chat that is not in the table changes no chat. */
  lemma {:induction false} EventOnMissingChat(s: Snapshot, e: MessageEvent, now: Instant)
    requires !e.RecipientJoined? && EventConversation(e).Some? && EventConversation(e).value !in s.chats.all
    ensures ApplyMessageEvent(s, e, now).chats.all == s.chats.all
  {
  }

  /** Deleting is idempotent: a second Deleted event for the same message changes nothing. */
  lemma {:induction false} DeletedTwice(s: Snapshot, cid: Uuid, mid: Uuid, now: Instant)
    ensures var once := ApplyMessageEvent(s, Deleted(cid, mid), now);
            ApplyMessageEvent(once, Deleted(cid, mid), now) == once
  {
    DeleteMessageIdempotent(s, cid, mid);
  }

  lemma {:induction false} DeleteMessageIdempotent(s: Snapshot, cid: Uuid, mid: Uuid)
    ensures DeleteMessage(DeleteMessage(s, cid, mid), cid, mid) == DeleteMessage(s, cid, mid)
  {
    if cid in s.chats.all {
      var c := s.chats.all[cid];
      var c1 := c.(messages := RemoveById(c.messages, mid));
      var once := PutChat(s, cid, c1);
      assert DeleteMessage(s, cid, mid) == once;
      RemoveByIdIdempotent(c.messages, mid);
      assert c1.(messages := RemoveById(c1.messages, mid)) == c1;
      assert once.chats.all[cid] == c1;
      assert DeleteMessage(once, cid, mid) == PutChat(once, cid, c1);
      assert once.chats.all[cid := c1] == once.chats.all;
      assert once.chats.(all := once.chats.all) == once.chats;
    }
  }
}
