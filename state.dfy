/**
 * The single-writer application state (`State`): its fields change in place,
 * one helper at a time, exactly as the mutators do. Every method is proved to
 * leave the state that the matching function of StateSpec or StateEvents
 * describes, so the lemmas proved there hold of the object.
 */
module AppState {
  import opened Wrappers
  import opened Entities
  import opened SeqOps
  import opened MessageLog
  import opened MessageEvents
  import opened StateSpec
  import opened StateEvents

  /** The reactions of a reaction event rebuilt one by one, each inserted at index 0. */
  method RebuildReactions(rs: seq<Reaction>) returns (out: seq<Reaction>)
    ensures out == DedupReactions(rs)
  {
    out := [];
    var i := 0;
    while i < |rs|
      invariant 0 <= i <= |rs|
      invariant |out| == i
      invariant forall j :: 0 <= j < i ==> out[j] == rs[i - 1 - j].(users := DedupUsers(rs[i - 1 - j].users))
    {
      out := [rs[i].(users := DedupUsers(rs[i].users))] + out;
      i := i + 1;
    }
  }

  /**
   * The loop of `decrement_toasts`: every toast loses one tick (`ticked`), and
   * those with time left are collected (`remaining`).
   */
  method TickToasts(toasts: map<Uuid, ToastNotification>)
    returns (ticked: map<Uuid, ToastNotification>, remaining: map<Uuid, ToastNotification>)
    ensures ticked.Keys == toasts.Keys
    ensures forall k :: k in toasts ==> ticked[k] == DecrementTime(toasts[k])
    ensures remaining == DecrementedToasts(toasts)
  {
    ticked := toasts;
    remaining := map[];
    var todo := toasts.Keys;
    while todo != {}
      invariant todo <= toasts.Keys && ticked.Keys == toasts.Keys
      invariant forall k :: k in toasts ==> ticked[k] == if k in todo then toasts[k] else DecrementTime(toasts[k])
      invariant forall k :: k in remaining <==> k in toasts && k !in todo && DecrementTime(toasts[k]).remainingTime > 0
      invariant forall k :: k in remaining ==> remaining[k] == DecrementTime(toasts[k])
      decreases todo
    {
      var k :| k in todo;
      var t := DecrementTime(ticked[k]);
      ticked := ticked[k := t];
      if t.remainingTime > 0 {
        remaining := remaining[k := t];
      }
      todo := todo - {k};
    }
    assert remaining == DecrementedToasts(toasts);
  }

  /**
   * The loop of `init_warp` over the backend's chats: a chat already in the
   * table takes the backend's messages, type, paging flag, name and creator
   * and keeps the rest; a new one is inserted as it is.
   */
  method MergeChatTable(all0: map<Uuid, Chat>, newChats: map<Uuid, Chat>) returns (all: map<Uuid, Chat>)
    ensures all == MergeChats(all0, newChats)
  {
    ghost var done: map<Uuid, Chat> := map[];
    all := all0;
    assert MergeChats(all0, done) == all0;
    var todo := newChats.Keys;
    while todo != {}
      invariant todo <= newChats.Keys && done.Keys == newChats.Keys - todo
      invariant forall k :: k in done ==> done[k] == newChats[k]
      invariant all == MergeChats(all0, done)
      decreases todo
    {
      var k :| k in todo;
      var chat := newChats[k];
      MergeChatsStep(all0, done, k, chat);
      if k in all {
        var conv := all[k];
        conv := conv.(messages := chat.messages);
        conv := conv.(conversationType := chat.conversationType);
        conv := conv.(hasMoreMessages := chat.hasMoreMessages);
        conv := conv.(conversationName := chat.conversationName);
        conv := conv.(creator := chat.creator);
        all := all[k := conv];
      } else {
        all := all[k := chat];
      }
      todo := todo - {k};
      done := done[k := chat];
    }
    assert done == newChats;
  }

  class State {
    var id: Did
    var route: string
    var chats: Chats
    var friends: Friends
    var identities: map<Did, Identity>
    var ui: Ui
    var settings: Settings
    var configuration: Configuration
    var initialized: bool

    /** The whole state as a value. */
    function Current(): Snapshot
      reads this
    {
      Snapshot(id, route, chats, friends, identities, ui, settings, configuration, initialized)
    }

    constructor(s: Snapshot)
      ensures Current() == s
    {
      id, route, chats, friends, identities := s.id, s.route, s.chats, s.friends, s.identities;
      ui, settings, configuration, initialized := s.ui, s.settings, s.configuration, s.initialized;
    }

    // ===== Chats =====

    method AddMsgToChat(cid: Uuid, m: Message)
      modifies this
      ensures Current() == StateSpec.AddMsgToChat(old(Current()), cid, m)
    {
      if cid in chats.all {
        var chat := chats.all[cid];
        chat := chat.(typingIndicator := chat.typingIndicator - {m.inner.sender});
        chat := chat.(messages := chat.messages + [m]);
        if ui.currentLayout != Compose || chats.active != Some(cid) {
          chat := chat.(unreads := chat.unreads + 1);
        }
        chats := chats.(all := chats.all[cid := chat]);
      }
    }

    method CancelReply(cid: Uuid)
      modifies this
      ensures Current() == StateSpec.CancelReply(old(Current()), cid)
    {
      if cid in chats.all {
        chats := chats.(all := chats.all[cid := chats.all[cid].(replyingTo := None)]);
      }
    }

    method ClearActiveChat()
      modifies this
      ensures Current() == StateSpec.ClearActiveChat(old(Current()))
    {
      chats := chats.(active := None);
    }

    /**
     * `clear_typing_indicator`: walks the sidebar, pruning each listed chat's
     * typing entries, and reports whether any entry was dropped.
     */
    method ClearTypingIndicator(now: Instant) returns (needsUpdate: bool)
      modifies this
      ensures Current() == StateSpec.ClearTypingIndicator(old(Current()), now)
      ensures needsUpdate <==> AnyTypingExpired(old(Current()), now)
    {
      needsUpdate := false;
      var sidebar := chats.inSidebar;
      ghost var all0 := chats.all;
      var i := 0;
      assert sidebar[..0] == [];
      while i < |sidebar|
        invariant 0 <= i <= |sidebar|
        invariant Current() == old(Current()).(chats := chats)
        invariant chats == old(chats).(all := PruneChatsTyping(all0, sidebar[..i], now))
        invariant needsUpdate <==> ExpiredAmong(all0, sidebar[..i], now)
      {
        var cid := sidebar[i];
        PruneChatsTypingStep(all0, sidebar[..i], cid, now);
        assert sidebar[..i + 1] == sidebar[..i] + [cid];
        if cid in chats.all {
          var chat := chats.all[cid];
          var oldLen := |chat.typingIndicator|;
          var pruned := PruneTyping(chat.typingIndicator, now);
          PruneShrinksIffExpired(chat.typingIndicator, now);
          chats := chats.(all := chats.all[cid := chat.(typingIndicator := pruned)]);
          if oldLen != |pruned| {
            needsUpdate := true;
          }
        }
        i := i + 1;
      }
      assert sidebar[..i] == sidebar;
    }

    method ClearChatDraft(cid: Uuid)
      modifies this
      ensures Current() == StateSpec.ClearChatDraft(old(Current()), cid)
    {
      if cid in chats.all {
        chats := chats.(all := chats.all[cid := chats.all[cid].(draft := None)]);
      }
    }

    method ClearUnreads(cid: Uuid)
      modifies this
      ensures Current() == StateSpec.ClearUnreads(old(Current()), cid)
    {
      if cid in chats.all {
        chats := chats.(all := chats.all[cid := chats.all[cid].(unreads := 0)]);
      }
    }

    method Favorite(cid: Uuid)
      modifies this
      ensures Current() == StateSpec.Favorite(old(Current()), cid)
    {
      if cid !in chats.favorites {
        chats := chats.(favorites := chats.favorites + [cid]);
      }
    }

    method FinishedLoadingChat(cid: Uuid)
      modifies this
      ensures Current() == StateSpec.FinishedLoadingChat(old(Current()), cid)
    {
      if cid in chats.all {
        chats := chats.(all := chats.all[cid := chats.all[cid].(hasMoreMessages := false)]);
      }
    }

    /** `prepend_messages_to_chat`: pushes the batch's messages onto the front one at a time. */
    method PrependMessagesToChat(cid: Uuid, batch: seq<Message>)
      modifies this
      ensures Current() == StateSpec.PrependMessagesToChat(old(Current()), cid, batch)
    {
      if cid in chats.all {
        var chat := chats.all[cid];
        ghost var log0 := chat.messages;
        var i := 0;
        while i < |batch|
          invariant 0 <= i <= |batch|
          invariant chat == old(chats.all)[cid].(messages := PrependBatch(log0, batch[..i]))
          invariant Current() == old(Current())
        {
          PrependOneMore(log0, batch, i);
          chat := chat.(messages := [batch[i]] + chat.messages);
          i := i + 1;
        }
        assert batch[..i] == batch;
        chats := chats.(all := chats.all[cid := chat]);
        assert Current() == PutChat(old(Current()), cid, chat);
      }
    }

    /**
     * `update_message`: scans the chat's log for the first message with the
     * record's id and replaces its `inner` with the record, reactions rebuilt.
     */
    method UpdateMessage(raw: RawMessage)
      modifies this
      ensures Current() == StateSpec.UpdateMessage(old(Current()), raw)
    {
      var cid := raw.conversationId;
      if cid !in chats.all {
        return;
      }
      var conv := chats.all[cid];
      var msgs := conv.messages;
      var i := 0;
      while i < |msgs|
        invariant 0 <= i <= |msgs|
        invariant forall j :: 0 <= j < i ==> msgs[j].inner.id != raw.id
      {
        if msgs[i].inner.id == raw.id {
          var reactions := RebuildReactions(raw.reactions);
          var updated := msgs[i := msgs[i].(inner := raw.(reactions := reactions))];
          assert FirstIndexOf(msgs, raw.id) == Some(i);
          assert updated == UpdateInnerById(msgs, raw);
          chats := chats.(all := chats.all[cid := conv.(messages := updated)]);
          return;
        }
        i := i + 1;
      }
      assert conv.(messages := UpdateInnerById(msgs, raw)) == conv;
      assert chats.all[cid := conv] == chats.all;
    }

    method RemoveSidebarChat(cid: Uuid)
      modifies this
      ensures Current() == StateSpec.RemoveSidebarChat(old(Current()), cid)
    {
      chats := chats.(inSidebar := Without(chats.inSidebar, cid));
      if chats.active == Some(cid) {
        ClearActiveChat();
      }
    }

    method SetActiveChat(cid: Uuid, moveToTop: bool)
      modifies this
      ensures Current() == StateSpec.SetActiveChat(old(Current()), cid, moveToTop)
    {
      chats := chats.(active := Some(cid));
      if moveToTop {
        SendChatToTop(cid);
      } else if cid !in chats.inSidebar {
        chats := chats.(inSidebar := [cid] + chats.inSidebar);
      }
      if cid in chats.all {
        chats := chats.(all := chats.all[cid := chats.all[cid].(unreads := 0)]);
      }
    }

    method SendChatToTop(cid: Uuid)
      modifies this
      ensures Current() == StateSpec.SendChatToTop(old(Current()), cid)
    {
      chats := chats.(inSidebar := Without(chats.inSidebar, cid));
      chats := chats.(inSidebar := [cid] + chats.inSidebar);
    }

    method IncrementOutgoingMessages()
      modifies this
      ensures Current() == StateSpec.IncrementOutgoing(old(Current()))
    {
      if chats.active.Some? {
        var cid := chats.active.value;
        if cid in chats.all {
          var chat := chats.all[cid];
          chats := chats.(all := chats.all[cid := chat.(pendingOutgoingMessages := SaturatingInc(chat.pendingOutgoingMessages))]);
        }
      }
    }

    method DecrementOutgoingMessages(cid: Uuid)
      modifies this
      ensures Current() == StateSpec.DecrementOutgoing(old(Current()), cid)
    {
      if cid in chats.all {
        var chat := chats.all[cid];
        var p := if chat.pendingOutgoingMessages > 0 then chat.pendingOutgoingMessages - 1 else 0;
        chats := chats.(all := chats.all[cid := chat.(pendingOutgoingMessages := p)]);
      }
    }

    method SetChatDraft(cid: Uuid, value: string)
      modifies this
      ensures Current() == StateSpec.SetChatDraft(old(Current()), cid, value)
    {
      if cid in chats.all {
        chats := chats.(all := chats.all[cid := chats.all[cid].(draft := Some(value))]);
      }
    }

    method StartReplying(cid: Uuid, m: Message)
      modifies this
      ensures Current() == StateSpec.StartReplying(old(Current()), cid, m)
    {
      if cid in chats.all {
        chats := chats.(all := chats.all[cid := chats.all[cid].(replyingTo := Some(m.inner))]);
      }
    }

    method ToggleFavorite(cid: Uuid)
      modifies this
      ensures Current() == StateSpec.ToggleFavorite(old(Current()), cid)
    {
      if cid in chats.favorites {
        var index := IndexOf(chats.favorites, cid);
        chats := chats.(favorites := RemoveAt(chats.favorites, index));
      } else {
        chats := chats.(favorites := chats.favorites + [cid]);
      }
    }

    method Unfavorite(cid: Uuid)
      modifies this
      ensures Current() == StateSpec.Unfavorite(old(Current()), cid)
    {
      chats := chats.(favorites := Without(chats.favorites, cid));
    }

    // ===== Friends =====

    /** `block`; `pick` is the Direct chat the inner `remove_friend` settles on. */
    method Block(did: Did) returns (ghost pick: Option<Uuid>)
      modifies this
      ensures ValidPick(old(chats.all), did, pick)
      ensures Current() == StateSpec.Block(old(Current()), did, pick)
    {
      friends := friends.(blocked := friends.blocked + {did});
      friends := friends.(outgoingRequests := friends.outgoingRequests - {did});
      friends := friends.(incomingRequests := friends.incomingRequests - {did});
      pick := RemoveFriend(did);
    }

    method CompleteRequest(ident: Identity)
      modifies this
      ensures Current() == StateSpec.CompleteRequest(old(Current()), ident)
    {
      friends := friends.(outgoingRequests := friends.outgoingRequests - {ident.did});
      friends := friends.(incomingRequests := friends.incomingRequests - {ident.did});
      friends := friends.(all := friends.all + {ident.did});
      identities := identities[ident.did := ident];
    }

    method CancelRequest(did: Did)
      modifies this
      ensures Current() == StateSpec.CancelRequest(old(Current()), did)
    {
      friends := friends.(outgoingRequests := friends.outgoingRequests - {did});
      friends := friends.(incomingRequests := friends.incomingRequests - {did});
    }

    method NewIncomingRequest(ident: Identity)
      modifies this
      ensures Current() == StateSpec.NewIncomingRequest(old(Current()), ident)
    {
      friends := friends.(incomingRequests := friends.incomingRequests + {ident.did});
      identities := identities[ident.did := ident];
    }

    method NewOutgoingRequest(ident: Identity)
      modifies this
      ensures Current() == StateSpec.NewOutgoingRequest(old(Current()), ident)
    {
      friends := friends.(outgoingRequests := friends.outgoingRequests + {ident.did});
      identities := identities[ident.did := ident];
    }

    /**
     * `remove_friend`: looks for some Direct chat with the DID in the chats
     * table (the table's order is unspecified, so any one may be found) and
     * closes and unfavourites it.
     */
    method RemoveFriend(did: Did) returns (ghost pick: Option<Uuid>)
      modifies this
      ensures ValidPick(old(chats.all), did, pick)
      ensures Current() == StateSpec.RemoveFriend(old(Current()), did, pick)
    {
      friends := friends.(all := friends.all - {did});
      var allChats := chats.all;
      if k :| k in allChats && IsDirectWith(allChats[k], did) {
        pick := Some(k);
        var directChat := allChats[k];
        if chats.active == Some(directChat.id) {
          ClearActiveChat();
        }
        Unfavorite(directChat.id);
      } else {
        pick := None;
      }
    }

    method Unblock(did: Did)
      modifies this
      ensures Current() == StateSpec.Unblock(old(Current()), did)
    {
      friends := friends.(blocked := friends.blocked - {did});
    }

    // ===== Settings =====

    method SetLanguage(language: string)
      modifies this
      ensures Current() == StateSpec.SetLanguage(old(Current()), language)
    {
      settings := settings.(language := language);
    }

    method UpdateAvailable(version: string)
      modifies this
      ensures Current() == StateSpec.UpdateAvailable(old(Current()), version)
    {
      if settings.updateAvailable != Some(version) {
        settings := settings.(updateAvailable := Some(version));
      }
    }

    // ===== UI =====

    /**
     * `decrement_toasts`: every toast loses a tick in place; those with time
     * left are collected, and the collection replaces the map only when it is
     * smaller. Reports whether any toast was dropped.
     */
    method DecrementToasts() returns (removed: bool)
      modifies this
      ensures Current() == StateSpec.DecrementToasts(old(Current()))
      ensures removed <==> ToastExpires(old(ui.toasts))
    {
      var ticked, remaining := TickToasts(ui.toasts);
      DecrementShrinksIffExpires(ui.toasts);
      if |remaining| != |ticked| {
        ui := ui.(toasts := remaining);
        removed := true;
      } else {
        SubsetSameSize(remaining.Keys, ticked.Keys);
        assert ticked == remaining;
        ui := ui.(toasts := ticked);
        removed := false;
      }
    }

    method AddToast(key: Uuid, t: ToastNotification)
      modifies this
      ensures Current() == StateSpec.AddToast(old(Current()), key, t)
    {
      ui := ui.(toasts := ui.toasts[key := t]);
    }

    method DisableMedia()
      modifies this
      ensures Current() == StateSpec.DisableMedia(old(Current()))
    {
      chats := chats.(activeMedia := None);
      ui := ui.(popoutMediaPlayer := false);
      ui := ui.(inCall := false);
    }

    method RemoveToast(key: Uuid)
      modifies this
      ensures Current() == StateSpec.RemoveToast(old(Current()), key)
    {
      ui := ui.(toasts := ui.toasts - {key});
    }

    method ResetToastTimer(key: Uuid)
      modifies this
      ensures Current() == StateSpec.ResetToastTimer(old(Current()), key)
    {
      if key in ui.toasts {
        ui := ui.(toasts := ui.toasts[key := ResetTime(ui.toasts[key])]);
      }
    }

    method SetActiveMedia(cid: Uuid)
      modifies this
      ensures Current() == StateSpec.SetActiveMedia(old(Current()), cid)
    {
      chats := chats.(activeMedia := Some(cid));
      ui := ui.(inCall := true);
    }

    method SetTheme(theme: Option<string>)
      modifies this
      ensures Current() == StateSpec.SetTheme(old(Current()), theme)
    {
      ui := ui.(theme := theme);
    }

    method SetFont(font: Option<string>)
      modifies this
      ensures Current() == StateSpec.SetFont(old(Current()), font)
    {
      ui := ui.(font := font);
    }

    // ===== Identities =====

    method SetOwnIdentity(ident: Identity)
      modifies this
      ensures Current() == StateSpec.SetOwnIdentity(old(Current()), ident)
    {
      id := ident.did;
      ui := ui.(cachedUsername := Some(ident.username));
      identities := identities[ident.did := ident];
    }

    method UpdateIdentity(did: Did, ident: Identity)
      modifies this
      ensures Current() == StateSpec.UpdateIdentity(old(Current()), did, ident)
    {
      if did in identities {
        identities := identities[did := ident];
      }
    }

    method SetIdentityStatus(did: Did, status: IdentityStatus)
      modifies this
      ensures Current() == StateSpec.SetStatus(old(Current()), did, status)
    {
      if did in identities {
        identities := identities[did := identities[did].(status := status)];
      }
    }

    method UpdateIdentityStatusHack(did: Did)
      modifies this
      ensures Current() == StateSpec.StatusHack(old(Current()), did)
    {
      if did in identities && identities[did].status == Offline {
        identities := identities[did := identities[did].(status := Online)];
      }
    }

    // ===== Start-up =====

    /** `init_warp`: takes the backend's friends, chats and identities. */
    method InitWarp(newFriends: Friends, newChats: map<Uuid, Chat>, newIdentities: map<Did, Identity>)
      modifies this
      ensures Current() == StateSpec.InitWarp(old(Current()), newFriends, newChats, newIdentities)
    {
      var all := MergeChatTable(chats.all, newChats);
      friends := newFriends;
      chats := chats.(all := all);
      identities := identities + newIdentities;
      initialized := true;
    }

    // ===== Dispatch =====

    /** `mutate(action)`; `toastKey` is the key a new toast is stored under. */
    method Mutate(a: Action, toastKey: Uuid) returns (ghost pick: Option<Uuid>)
      modifies this
      ensures FriendTarget(a).Some? ==> ValidPick(old(chats.all), FriendTarget(a).value, pick)
      ensures Current() == ApplyAction(old(Current()), a, toastKey, pick)
    {
      pick := None;
      if IsFriendAction(a) {
        pick := MutateFriends(a);
      } else if IsChatAction(a) {
        MutateChats(a);
      } else {
        MutateSettings(a, toastKey);
      }
    }

    /** The friendship actions of `mutate`. */
    method MutateFriends(a: Action) returns (ghost pick: Option<Uuid>)
      modifies this
      ensures FriendTarget(a).Some? ==> ValidPick(old(chats.all), FriendTarget(a).value, pick)
      ensures Current() == ApplyFriendAction(old(Current()), a, pick)
    {
      pick := None;
      if IsRequestAction(a) {
        MutateRequests(a);
      } else {
        pick := MutateFriendList(a);
      }
    }

    method MutateRequests(a: Action)
      modifies this
      ensures Current() == ApplyRequestAction(old(Current()), a)
    {
      if a.SendRequest? {
        NewOutgoingRequest(a.identity);
      } else if a.RequestAccepted? || a.AcceptRequest? {
        CompleteRequest(a.identity);
      } else if a.CancelRequest? || a.DenyRequest? {
        CancelRequest(a.did);
      }
    }

    method MutateFriendList(a: Action) returns (ghost pick: Option<Uuid>)
      modifies this
      ensures FriendTarget(a).Some? ==> ValidPick(old(chats.all), FriendTarget(a).value, pick)
      ensures Current() == ApplyFriendListAction(old(Current()), a, pick)
    {
      pick := None;
      if a.RemoveFriend? {
        pick := RemoveFriend(a.did);
      } else if a.Block? {
        pick := Block(a.did);
      } else if a.Unblock? {
        Unblock(a.did);
      }
    }

    /** The chat actions of `mutate`. */
    method MutateChats(a: Action)
      modifies this
      ensures Current() == ApplyChatAction(old(Current()), a)
    {
      if IsSidebarAction(a) {
        MutateSidebar(a);
      } else if IsReplyAction(a) {
        MutateReplies(a);
      } else {
        MutateDrafts(a);
      }
    }

    method MutateSidebar(a: Action)
      modifies this
      ensures Current() == ApplySidebarAction(old(Current()), a)
    {
      if a.Favorite? {
        Favorite(a.chatId);
      } else if a.ToggleFavorite? {
        ToggleFavorite(a.chatId);
      } else if a.UnFavorite? {
        Unfavorite(a.chatId);
      } else if a.RemoveFromSidebar? {
        RemoveSidebarChat(a.chatId);
      } else if a.ChatWith? {
        SetActiveChat(a.chatId, a.moveToTop);
      }
    }

    method MutateReplies(a: Action)
      modifies this
      ensures Current() == ApplyReplyAction(old(Current()), a)
    {
      if a.ClearActiveChat? {
        ClearActiveChat();
      } else if a.StartReplying? {
        StartReplying(a.chatId, a.message);
      } else if a.CancelReply? {
        CancelReply(a.chatId);
      } else if a.ClearUnreads? {
        ClearUnreads(a.chatId);
      } else if a.ClearActiveUnreads? && chats.active.Some? {
        ClearUnreads(chats.active.value);
      }
    }

    method MutateDrafts(a: Action)
      modifies this
      ensures Current() == ApplyDraftAction(old(Current()), a)
    {
      if a.SetChatDraft? {
        SetChatDraft(a.chatId, a.value);
      } else if a.ClearChatDraft? {
        ClearChatDraft(a.chatId);
      } else if a.SetActiveMedia? {
        SetActiveMedia(a.chatId);
      } else if a.DisableMedia? {
        DisableMedia();
      } else if a.MockSend? {
        AddMsgToChat(a.chatId, MockMessage(id, a.chatId, a.text, a.messageId, a.key));
      }
    }

    /** The toast, settings, window and identity actions of `mutate`. */
    method MutateSettings(a: Action, toastKey: Uuid)
      modifies this
      ensures Current() == ApplySettingsAction(old(Current()), a, toastKey)
    {
      if IsWindowAction(a) {
        MutateWindow(a);
      } else {
        MutatePreferences(a, toastKey);
      }
    }

    method MutateWindow(a: Action)
      modifies this
      ensures Current() == ApplyWindowAction(old(Current()), a)
    {
      if a.AddOverlay? {
        ui := ui.(overlays := ui.overlays + [a.window]);
      } else if a.SidebarHidden? {
        ui := ui.(sidebarHidden := a.hidden);
      } else if a.Navigate? {
        route := a.to;
      } else if a.SetMeta? {
        ui := ui.(metadata := a.metadata);
      }
    }

    method MutatePreferences(a: Action, toastKey: Uuid)
      modifies this
      ensures Current() == ApplyPreferenceAction(old(Current()), a, toastKey)
    {
      if a.AddToastNotification? {
        AddToast(toastKey, a.toast);
      } else if a.DismissUpdate? {
        settings := settings.(updateDismissed := settings.updateAvailable, updateAvailable := None);
      } else if a.SetLanguage? {
        SetLanguage(a.language);
      } else if a.SetTheme? {
        SetTheme(a.theme);
      } else if a.SetFont? {
        SetFont(a.font);
      } else if a.SetId? {
        SetOwnIdentity(a.identity);
      }
    }

    /** `process_multipass_event`; reports whether a friend request raises a desktop notification. */
    method ProcessMultiPassEvent(e: MultiPassEvent) returns (notify: bool, ghost pick: Option<Uuid>)
      modifies this
      ensures EventFriendTarget(e).Some? ==> ValidPick(old(chats.all), EventFriendTarget(e).value, pick)
      ensures Current() == ApplyMultiPass(old(Current()), e, pick)
      ensures notify <==> e.FriendRequestReceived? && FriendRequestNotifies(old(Current()))
    {
      pick := None;
      notify := false;
      match e {
        case NoEvent =>
        case FriendRequestReceived(ident) =>
          NewIncomingRequest(ident);
          notify := !ui.metadata.focused && configuration.friendsNotifications;
        case FriendRequestSent(ident) => NewOutgoingRequest(ident);
        case FriendAdded(ident) => CompleteRequest(ident);
        case FriendRemoved(ident) => friends := friends.(all := friends.all - {ident.did});
        case FriendRequestCancelled(ident) => CancelRequest(ident.did);
        case FriendOnline(ident) => SetIdentityStatus(ident.did, Online);
        case FriendOffline(ident) => SetIdentityStatus(ident.did, Offline);
        case Blocked(ident) => pick := Block(ident.did);
        case Unblocked(ident) => Unblock(ident.did);
        case IdentityUpdate(ident) => UpdateIdentity(ident.did, ident);
      }
    }

    /** `process_raygun_event`. */
    method ProcessRayGunEvent(e: RayGunEvent)
      modifies this
      ensures Current() == ApplyRayGun(old(Current()), e)
    {
      match e {
        case ConversationCreated(chat) =>
          if chat.inner.id !in chats.inSidebar {
            chats := chats.(inSidebar := [chat.inner.id] + chats.inSidebar);
            identities := RegisterIdentities(identities, chat.identities);
          }
          chats := chats.(all := chats.all[chat.inner.id := chat.inner]);
        case ConversationDeleted(cid) =>
          chats := chats.(inSidebar := Without(chats.inSidebar, cid));
          chats := chats.(all := chats.all - {cid});
          if chats.active == Some(cid) {
            chats := chats.(active := None);
          }
      }
    }

    /**
     * `process_message_event`; `now` is the clock reading a typing event
     * records. Reports how a received message is announced.
     */
    method ProcessMessageEvent(e: MessageEvent, now: Instant) returns (alert: MessageAlert)
      modifies this
      ensures Current() == ApplyMessageEvent(old(Current()), e, now)
      ensures alert == (if e.Received? then ReceivedAlert(Current()) else NoAlert)
    {
      alert := NoAlert;
      match e {
        case Received(cid, m) =>
          UpdateIdentityStatusHack(m.inner.sender);
          AddMsgToChat(cid, m);
          SendChatToTop(cid);
          var notificationsEnabled := configuration.messagesNotifications;
          var shouldPlaySound := ui.currentLayout != Compose && configuration.messageSounds;
          var shouldDispatch := notificationsEnabled && !ui.metadata.focused;
          if shouldDispatch {
            alert := PushNotification(configuration.messageSounds);
          } else if shouldPlaySound {
            alert := PlaySound;
          }
        case Sent(cid, m) =>
          if cid in chats.all {
            chats := chats.(all := chats.all[cid := chats.all[cid].(messages := chats.all[cid].messages + [m])]);
          }
          SendChatToTop(cid);
          DecrementOutgoingMessages(cid);
        case Edited(cid, m) =>
          UpdateIdentityStatusHack(m.inner.sender);
          if cid in chats.all {
            var chat := chats.all[cid];
            chats := chats.(all := chats.all[cid := chat.(messages := ReplaceFirstById(chat.messages, m))]);
          }
        case Deleted(cid, mid) =>
          if cid in chats.all {
            var chat := chats.all[cid];
            chats := chats.(all := chats.all[cid := chat.(messages := RemoveById(chat.messages, mid))]);
          }
        case ReactionAdded(raw) => UpdateMessage(raw);
        case ReactionRemoved(raw) => UpdateMessage(raw);
        case TypingIndicator(cid, p) =>
          UpdateIdentityStatusHack(p);
          if cid !in chats.inSidebar {
            return;
          }
          if cid in chats.all {
            var chat := chats.all[cid];
            chats := chats.(all := chats.all[cid := chat.(typingIndicator := chat.typingIndicator[p := now])]);
          }
        case RecipientJoined(conv, ident) =>
          identities := identities[ident.did := ident];
          if conv.id in chats.all {
            chats := chats.(all := chats.all[conv.id := chats.all[conv.id].(participants := set d | d in conv.recipients)]);
          }
        case RecipientLeft(conv) =>
          if conv.id in chats.all {
            chats := chats.(all := chats.all[conv.id := chats.all[conv.id].(participants := set d | d in conv.recipients)]);
          }
        case NameUpdated(conv) =>
          if conv.id in chats.all {
            chats := chats.(all := chats.all[conv.id := chats.all[conv.id].(conversationName := conv.name)]);
          }
      }
    }

    /** `process_warp_event`; `now` is the clock reading, `pick` the Direct chat a block settles on. */
    method ProcessWarpEvent(e: WarpEvent, now: Instant) returns (ghost pick: Option<Uuid>)
      modifies this
      ensures e.MultiPass? && EventFriendTarget(e.mp).Some? ==>
                ValidPick(old(chats.all), EventFriendTarget(e.mp).value, pick)
      ensures Current() == ApplyWarpEvent(old(Current()), e, now, pick)
    {
      pick := None;
      match e {
        case MultiPass(mp) =>
          var notify;
          notify, pick := ProcessMultiPassEvent(mp);
        case RayGun(rg) => ProcessRayGunEvent(rg);
        case MessageEv(me) =>
          var alert := ProcessMessageEvent(me, now);
      }
    }
  }
}
