/**
 * The application state (`State`) as a value, and one function per mutator
 * giving the state it leaves behind. The `State` class in module AppState
 * changes its fields step by step and is proved to end in exactly these
 * states; the lemmas here and in StateEvents say what the steps guarantee.
 */
module StateSpec {
  import opened Wrappers
  import opened Entities
  import opened SeqOps
  import opened MessageLog

  /** How long a typing entry stays visible, in nanoseconds (5 s). */
  const TYPING_TIMEOUT: nat := 5_000_000_000

  /** The chats table, the sidebar order, the favourites and the active chat and call ids (`Chats`). */
  datatype Chats = Chats(
    all: map<Uuid, Chat>,
    inSidebar: seq<Uuid>,
    favorites: seq<Uuid>,
    active: Option<Uuid>,
    activeMedia: Option<Uuid>)

  /** The four friendship sets (`Friends`). */
  datatype Friends = Friends(
    all: set<Did>,
    outgoingRequests: set<Did>,
    incomingRequests: set<Did>,
    blocked: set<Did>)

  /** The main layouts; only Compose is distinguished by the state. */
  datatype Layout = Welcome | Compose | FriendsPage | SettingsPage

  /** Window metadata the state consults (`WindowMeta`). */
  datatype Metadata = Metadata(focused: bool, minimalView: bool)

  /** The UI part of the state that the modelled mutators touch. */
  datatype Ui = Ui(
    toasts: map<Uuid, ToastNotification>,
    currentLayout: Layout,
    metadata: Metadata,
    theme: Option<string>,
    font: Option<string>,
    sidebarHidden: bool,
    overlays: seq<WindowId>,
    cachedUsername: Option<string>,
    inCall: bool,
    popoutMediaPlayer: bool)

  datatype Settings = Settings(language: string, updateAvailable: Option<string>, updateDismissed: Option<string>)

  /** The notification switches the alert gating reads. */
  datatype Configuration = Configuration(messagesNotifications: bool, friendsNotifications: bool, messageSounds: bool)

  /** The whole state at one moment. */
  datatype Snapshot = Snapshot(
    id: Did,
    route: string,
    chats: Chats,
    friends: Friends,
    identities: map<Did, Identity>,
    ui: Ui,
    settings: Settings,
    configuration: Configuration,
    initialized: bool)

  // ===== Chats =====

  /** `r` differs from `s` at most in the table entry of chat `cid`, which stays present or absent. */
  predicate OnlyChatChanged(s: Snapshot, r: Snapshot, cid: Uuid)
  {
    && r == s.(chats := s.chats.(all := r.chats.all))
    && r.chats.all.Keys == s.chats.all.Keys
    && forall k :: k in s.chats.all && k != cid ==> r.chats.all[k] == s.chats.all[k]
  }

  /** A table entry replaced in place (`get_mut` + assignment). */
  function PutChat(s: Snapshot, cid: Uuid, c: Chat): Snapshot
    requires cid in s.chats.all
  {
    s.(chats := s.chats.(all := s.chats.all[cid := c]))
  }

  /**
   * `add_msg_to_chat`: on an existing chat, the sender stops typing, the
   * message goes to the back of the log, and the chat gains an unread unless
   * it is open in the Compose layout.
   */
  function AddMsgToChat(s: Snapshot, cid: Uuid, m: Message): (r: Snapshot)
    ensures OnlyChatChanged(s, r, cid)
    ensures cid in s.chats.all ==>
              var c, c' := s.chats.all[cid], r.chats.all[cid];
              && c'.messages == c.messages + [m]
              && m.inner.sender !in c'.typingIndicator
              && (forall d :: d in c'.typingIndicator <==> d in c.typingIndicator && d != m.inner.sender)
              && (forall d :: d in c'.typingIndicator ==> c'.typingIndicator[d] == c.typingIndicator[d])
              && c'.unreads == (if s.ui.currentLayout == Compose && s.chats.active == Some(cid) then c.unreads else c.unreads + 1)
              && c' == c.(messages := c'.messages, typingIndicator := c'.typingIndicator, unreads := c'.unreads)
  {
    if cid !in s.chats.all then s
    else
      var c := s.chats.all[cid];
      var counted := s.ui.currentLayout != Compose || s.chats.active != Some(cid);
      PutChat(s, cid, c.(typingIndicator := c.typingIndicator - {m.inner.sender},
                         messages := c.messages + [m],
                         unreads := if counted then c.unreads + 1 else c.unreads))
  }

  /** `cancel_reply`: the chat no longer replies to anything. */
  function CancelReply(s: Snapshot, cid: Uuid): (r: Snapshot)
    ensures OnlyChatChanged(s, r, cid)
    ensures cid in s.chats.all ==> r.chats.all[cid] == s.chats.all[cid].(replyingTo := None)
  {
    if cid in s.chats.all then PutChat(s, cid, s.chats.all[cid].(replyingTo := None)) else s
  }

  /** `start_replying`: the chat replies to the message's backend record. */
  function StartReplying(s: Snapshot, cid: Uuid, m: Message): (r: Snapshot)
    ensures OnlyChatChanged(s, r, cid)
    ensures cid in s.chats.all ==> r.chats.all[cid] == s.chats.all[cid].(replyingTo := Some(m.inner))
  {
    if cid in s.chats.all then PutChat(s, cid, s.chats.all[cid].(replyingTo := Some(m.inner))) else s
  }

  /** `clear_active_chat`: no chat is open; nothing else changes. */
  function ClearActiveChat(s: Snapshot): (r: Snapshot)
    ensures r.chats.active.None?
    ensures r == s.(chats := s.chats.(active := None))
  {
    s.(chats := s.chats.(active := None))
  }

  /** Time between two instants, zero when `earlier` is not earlier (`Instant` subtraction saturates). */
  function Elapsed(now: Instant, earlier: Instant): nat
  {
    if now >= earlier then now - earlier else 0
  }

  /** The typing entries younger than the timeout. */
  function PruneTyping(t: map<Did, Instant>, now: Instant): (r: map<Did, Instant>)
    ensures forall d :: d in r <==> d in t && Elapsed(now, t[d]) < TYPING_TIMEOUT
    ensures forall d :: d in r ==> r[d] == t[d]
  {
    map d | d in t && Elapsed(now, t[d]) < TYPING_TIMEOUT :: t[d]
  }

  /** Some typing entry has reached the timeout. */
  predicate TypingExpired(t: map<Did, Instant>, now: Instant)
  {
    exists d :: d in t && Elapsed(now, t[d]) >= TYPING_TIMEOUT
  }

  /** Equal sizes of a subset and its superset mean equal sets. */
  lemma {:induction false} SubsetSameSize<K>(a: set<K>, b: set<K>)
    requires a <= b
    ensures |a| == |b| <==> a == b
  {
    if a != b {
      var x :| x in b && x !in a;
      assert a <= b - {x};
      assert |a| <= |b - {x}|  by { SubsetSize(a, b - {x}); }
    }
  }

  lemma {:induction false} SubsetSize<K>(a: set<K>, b: set<K>)
    requires a <= b
    ensures |a| <= |b|
    decreases |a|
  {
    if a != {} {
      var x :| x in a;
      SubsetSize(a - {x}, b - {x});
    }
  }

  /** Pruning removes an entry (the map shrinks) exactly when some entry had expired. */
  lemma {:induction false} PruneShrinksIffExpired(t: map<Did, Instant>, now: Instant)
    ensures |PruneTyping(t, now)| != |t| <==> TypingExpired(t, now)
  {
    var p := PruneTyping(t, now);
    assert p.Keys <= t.Keys;
    SubsetSameSize(p.Keys, t.Keys);
    if TypingExpired(t, now) {
      var d :| d in t && Elapsed(now, t[d]) >= TYPING_TIMEOUT;
      assert d !in p.Keys;
    }
  }

  /** Pruning again at the same instant removes nothing. */
  lemma {:induction false} PruneIdempotent(t: map<Did, Instant>, now: Instant)
    ensures PruneTyping(PruneTyping(t, now), now) == PruneTyping(t, now)
    ensures !TypingExpired(PruneTyping(t, now), now)
  {
  }

  /** Chats of the table whose typing entries are pruned: those whose id is in `ids`. */
  function PruneChatsTyping(all: map<Uuid, Chat>, ids: seq<Uuid>, now: Instant): (r: map<Uuid, Chat>)
    ensures r.Keys == all.Keys
  {
    map k | k in all :: if k in ids then all[k].(typingIndicator := PruneTyping(all[k].typingIndicator, now)) else all[k]
  }

  /**
   * `clear_typing_indicator(now)`: every sidebar chat keeps only the typing
   * entries younger than the timeout, unchanged; other chats and every other
   * field stay as they were.
   */
  function ClearTypingIndicator(s: Snapshot, now: Instant): (r: Snapshot)
    ensures r == s.(chats := s.chats.(all := r.chats.all))
    ensures r.chats.all.Keys == s.chats.all.Keys
    ensures forall k :: k in s.chats.all && k !in s.chats.inSidebar ==> r.chats.all[k] == s.chats.all[k]
    ensures forall k :: k in s.chats.all && k in s.chats.inSidebar ==>
              r.chats.all[k] == s.chats.all[k].(typingIndicator := PruneTyping(s.chats.all[k].typingIndicator, now))
  {
    s.(chats := s.chats.(all := PruneChatsTyping(s.chats.all, s.chats.inSidebar, now)))
  }

  /** Some chat of the table whose id is in `ids` has an expired typing entry. */
  predicate ExpiredAmong(all: map<Uuid, Chat>, ids: seq<Uuid>, now: Instant)
  {
    exists k :: k in ids && k in all && TypingExpired(all[k].typingIndicator, now)
  }

  /** What `clear_typing_indicator` reports: some sidebar chat had an expired typing entry. */
  predicate AnyTypingExpired(s: Snapshot, now: Instant)
  {
    ExpiredAmong(s.chats.all, s.chats.inSidebar, now)
  }

  /**
   * One more sidebar id visited: its chat, as the earlier visits left it, is
   * pruned once more (a repeated id finds nothing left to prune), and an
   * expired entry is seen exactly when that chat still had one.
   */
  lemma {:induction false} PruneChatsTypingStep(all: map<Uuid, Chat>, ids: seq<Uuid>, x: Uuid, now: Instant)
    ensures var cur := PruneChatsTyping(all, ids, now);
            && PruneChatsTyping(all, ids + [x], now) ==
                 (if x in cur then cur[x := cur[x].(typingIndicator := PruneTyping(cur[x].typingIndicator, now))] else cur)
            && (ExpiredAmong(all, ids + [x], now) <==>
                 ExpiredAmong(all, ids, now) || (x in cur && TypingExpired(cur[x].typingIndicator, now)))
  {
    var cur := PruneChatsTyping(all, ids, now);
    if x in all {
      PruneIdempotent(all[x].typingIndicator, now);
      var next := cur[x := cur[x].(typingIndicator := PruneTyping(cur[x].typingIndicator, now))];
      assert PruneChatsTyping(all, ids + [x], now) == next;
    } else {
      assert PruneChatsTyping(all, ids + [x], now) == cur;
    }
  }

  /** Clearing the typing entries twice at the same instant is clearing them once, and reports no change. */
  lemma {:induction false} ClearTypingIdempotent(s: Snapshot, now: Instant)
    ensures ClearTypingIndicator(ClearTypingIndicator(s, now), now) == ClearTypingIndicator(s, now)
    ensures !AnyTypingExpired(ClearTypingIndicator(s, now), now)
  {
    var r := ClearTypingIndicator(s, now);
    forall k | k in r.chats.all
      ensures PruneChatsTyping(r.chats.all, r.chats.inSidebar, now)[k] == r.chats.all[k]
    {
      if k in r.chats.inSidebar { PruneIdempotent(s.chats.all[k].typingIndicator, now); }
    }
  }

  /** `clear_chat_draft`. */
  function ClearChatDraft(s: Snapshot, cid: Uuid): (r: Snapshot)
    ensures OnlyChatChanged(s, r, cid)
    ensures cid in s.chats.all ==> r.chats.all[cid] == s.chats.all[cid].(draft := None)
  {
    if cid in s.chats.all then PutChat(s, cid, s.chats.all[cid].(draft := None)) else s
  }

  /** `set_chat_draft`. */
  function SetChatDraft(s: Snapshot, cid: Uuid, value: string): (r: Snapshot)
    ensures OnlyChatChanged(s, r, cid)
    ensures cid in s.chats.all ==> r.chats.all[cid] == s.chats.all[cid].(draft := Some(value))
  {
    if cid in s.chats.all then PutChat(s, cid, s.chats.all[cid].(draft := Some(value))) else s
  }

  /** `clear_unreads`: the chat's unread count drops to zero. */
  function ClearUnreads(s: Snapshot, cid: Uuid): (r: Snapshot)
    ensures OnlyChatChanged(s, r, cid)
    ensures cid in s.chats.all ==> r.chats.all[cid] == s.chats.all[cid].(unreads := 0)
  {
    if cid in s.chats.all then PutChat(s, cid, s.chats.all[cid].(unreads := 0)) else s
  }

  /** Clearing unreads twice is clearing them once. */
  lemma {:induction false} ClearUnreadsIdempotent(s: Snapshot, cid: Uuid)
    ensures ClearUnreads(ClearUnreads(s, cid), cid) == ClearUnreads(s, cid)
  {
    var r := ClearUnreads(s, cid);
    if cid in s.chats.all {
      assert r.chats.all[cid := r.chats.all[cid].(unreads := 0)] == r.chats.all;
    }
  }

  /** `finished_loading_chat`: no older messages remain to load. */
  function FinishedLoadingChat(s: Snapshot, cid: Uuid): (r: Snapshot)
    ensures OnlyChatChanged(s, r, cid)
    ensures cid in s.chats.all ==> r.chats.all[cid] == s.chats.all[cid].(hasMoreMessages := false)
  {
    if cid in s.chats.all then PutChat(s, cid, s.chats.all[cid].(hasMoreMessages := false)) else s
  }

  /** `favorite`: the chat is a favourite, listed once. */
  function Favorite(s: Snapshot, cid: Uuid): (r: Snapshot)
    ensures cid in r.chats.favorites
    ensures NoDup(s.chats.favorites) ==> NoDup(r.chats.favorites)
    ensures cid in s.chats.favorites ==> r == s
    ensures cid !in s.chats.favorites ==> r.chats.favorites == s.chats.favorites + [cid]
    ensures r == s.(chats := s.chats.(favorites := r.chats.favorites))
  {
    s.(chats := s.chats.(favorites := AddIfAbsent(s.chats.favorites, cid)))
  }

  /** `unfavorite`: every occurrence of the chat leaves the favourites. */
  function Unfavorite(s: Snapshot, cid: Uuid): (r: Snapshot)
    ensures cid !in r.chats.favorites
    ensures forall k :: k in r.chats.favorites <==> k in s.chats.favorites && k != cid
    // `retain`: the other favourites keep their order and multiplicity (SeqOps.Without, WithoutAppend).
    ensures r.chats.favorites == Without(s.chats.favorites, cid)
    ensures NoDup(s.chats.favorites) ==> NoDup(r.chats.favorites)
    ensures r == s.(chats := s.chats.(favorites := r.chats.favorites))
  {
    assert NoDup(s.chats.favorites) ==> NoDup(Without(s.chats.favorites, cid)) by {
      if NoDup(s.chats.favorites) { WithoutNoDup(s.chats.favorites, cid); }
    }
    s.(chats := s.chats.(favorites := Without(s.chats.favorites, cid)))
  }

  /** `toggle_favorite`: the first occurrence is removed if there is one, otherwise the chat is appended. */
  function ToggleFavorite(s: Snapshot, cid: Uuid): (r: Snapshot)
    ensures cid in r.chats.favorites <==> cid !in s.chats.favorites || Count(s.chats.favorites, cid) > 1
    // An absent chat is appended; a present one loses its first occurrence, the rest shifting left.
    ensures r.chats.favorites == Toggle(s.chats.favorites, cid)
    ensures cid !in s.chats.favorites ==> r.chats.favorites == s.chats.favorites + [cid]
    ensures NoDup(s.chats.favorites) ==> NoDup(r.chats.favorites)
    ensures r == s.(chats := s.chats.(favorites := r.chats.favorites))
  {
    assert NoDup(s.chats.favorites) ==> NoDup(Toggle(s.chats.favorites, cid)) by {
      if NoDup(s.chats.favorites) { ToggleNoDup(s.chats.favorites, cid); }
    }
    ToggleMembership(s.chats.favorites, cid);
    s.(chats := s.chats.(favorites := Toggle(s.chats.favorites, cid)))
  }

  /** `remove_sidebar_chat`: every sidebar occurrence is removed and the chat is closed if it was open. */
  function RemoveSidebarChat(s: Snapshot, cid: Uuid): (r: Snapshot)
    ensures cid !in r.chats.inSidebar
    ensures forall k :: k in r.chats.inSidebar <==> k in s.chats.inSidebar && k != cid
    // `retain`: the other sidebar entries keep their order (SeqOps.Without, WithoutAppend).
    ensures r.chats.inSidebar == Without(s.chats.inSidebar, cid)
    ensures r.chats.active == (if s.chats.active == Some(cid) then None else s.chats.active)
    ensures NoDup(s.chats.inSidebar) ==> NoDup(r.chats.inSidebar)
    ensures r == s.(chats := s.chats.(inSidebar := r.chats.inSidebar, active := r.chats.active))
  {
    assert NoDup(s.chats.inSidebar) ==> NoDup(Without(s.chats.inSidebar, cid)) by {
      if NoDup(s.chats.inSidebar) { WithoutNoDup(s.chats.inSidebar, cid); }
    }
    var s1 := s.(chats := s.chats.(inSidebar := Without(s.chats.inSidebar, cid)));
    if s.chats.active == Some(cid) then ClearActiveChat(s1) else s1
  }

  /** `send_chat_to_top_of_sidebar`: the chat occurs once, first, ahead of the others in their old order. */
  function SendChatToTop(s: Snapshot, cid: Uuid): (r: Snapshot)
    ensures |r.chats.inSidebar| > 0 && r.chats.inSidebar[0] == cid
    ensures Count(r.chats.inSidebar, cid) == 1
    ensures r.chats.inSidebar[1..] == Without(s.chats.inSidebar, cid)
    ensures NoDup(s.chats.inSidebar) ==> NoDup(r.chats.inSidebar)
    ensures r == s.(chats := s.chats.(inSidebar := r.chats.inSidebar))
  {
    assert NoDup(s.chats.inSidebar) ==> NoDup(SendToFront(s.chats.inSidebar, cid)) by {
      if NoDup(s.chats.inSidebar) { SendToFrontNoDup(s.chats.inSidebar, cid); }
    }
    SendToFrontSpec(s.chats.inSidebar, cid);
    s.(chats := s.chats.(inSidebar := SendToFront(s.chats.inSidebar, cid)))
  }

  /**
   * `set_active_chat`: the chat becomes active; it moves to the top of the
   * sidebar when asked to, and otherwise is put in front only if missing;
   * its unreads drop to zero.
   */
  function SetActiveChat(s: Snapshot, cid: Uuid, moveToTop: bool): (r: Snapshot)
    ensures r.chats.active == Some(cid)
    ensures moveToTop ==> r.chats.inSidebar == SendToFront(s.chats.inSidebar, cid)
    ensures !moveToTop && cid in s.chats.inSidebar ==> r.chats.inSidebar == s.chats.inSidebar
    ensures !moveToTop && cid !in s.chats.inSidebar ==> r.chats.inSidebar == [cid] + s.chats.inSidebar
    ensures r.chats.all.Keys == s.chats.all.Keys
    ensures cid in s.chats.all ==> r.chats.all[cid] == s.chats.all[cid].(unreads := 0)
    ensures forall k :: k in s.chats.all && k != cid ==> r.chats.all[k] == s.chats.all[k]
    ensures NoDup(s.chats.inSidebar) ==> NoDup(r.chats.inSidebar)
    ensures r == s.(chats := s.chats.(active := r.chats.active, inSidebar := r.chats.inSidebar, all := r.chats.all))
  {
    var s1 := s.(chats := s.chats.(active := Some(cid)));
    var s2 := if moveToTop then SendChatToTop(s1, cid)
              else s1.(chats := s1.chats.(inSidebar := PushFrontIfAbsent(s1.chats.inSidebar, cid)));
    ClearUnreads(s2, cid)
  }

  /** `increment_outgoing_messages`: only the active chat's pending count rises, saturating at `PENDING_MAX`. */
  function IncrementOutgoing(s: Snapshot): (r: Snapshot)
    ensures s.chats.active.None? ==> r == s
    ensures s.chats.active.Some? ==>
              var cid := s.chats.active.value;
              OnlyChatChanged(s, r, cid) &&
              (cid in s.chats.all ==>
                 var p := s.chats.all[cid].pendingOutgoingMessages;
                 r.chats.all[cid] == s.chats.all[cid].(pendingOutgoingMessages := if p < PENDING_MAX then p + 1 else p))
  {
    match s.chats.active
    case None => s
    case Some(cid) =>
      if cid in s.chats.all then
        var c := s.chats.all[cid];
        PutChat(s, cid, c.(pendingOutgoingMessages := SaturatingInc(c.pendingOutgoingMessages)))
      else s
  }

  /** `u32::saturating_add(1)`. */
  function SaturatingInc(n: nat): (r: nat)
    ensures n < PENDING_MAX ==> r == n + 1
    ensures n >= PENDING_MAX ==> r == n
  {
    if n < PENDING_MAX then n + 1 else n
  }

  /** `decrement_outgoing_messages`: the chat's pending count falls by one, stopping at zero. */
  function DecrementOutgoing(s: Snapshot, cid: Uuid): (r: Snapshot)
    ensures OnlyChatChanged(s, r, cid)
    ensures cid in s.chats.all ==>
              var p := s.chats.all[cid].pendingOutgoingMessages;
              r.chats.all[cid] == s.chats.all[cid].(pendingOutgoingMessages := if p > 0 then p - 1 else 0)
  {
    if cid in s.chats.all then
      var c := s.chats.all[cid];
      PutChat(s, cid, c.(pendingOutgoingMessages := if c.pendingOutgoingMessages > 0 then c.pendingOutgoingMessages - 1 else 0))
    else s
  }

  /** An increment followed by a decrement leaves an unsaturated pending count as it was. */
  lemma {:induction false} IncrementThenDecrement(s: Snapshot)
    requires s.chats.active.Some? && s.chats.active.value in s.chats.all
    requires s.chats.all[s.chats.active.value].pendingOutgoingMessages < PENDING_MAX
    ensures DecrementOutgoing(IncrementOutgoing(s), s.chats.active.value) == s
  {
    var cid := s.chats.active.value;
    var r := DecrementOutgoing(IncrementOutgoing(s), cid);
    assert r.chats.all[cid] == s.chats.all[cid];
    assert r.chats.all == s.chats.all;
  }

  /** `prepend_messages_to_chat`: a newest-first batch ends up oldest first ahead of the log. */
  function PrependMessagesToChat(s: Snapshot, cid: Uuid, batch: seq<Message>): (r: Snapshot)
    ensures OnlyChatChanged(s, r, cid)
    ensures cid in s.chats.all ==>
              r.chats.all[cid] == s.chats.all[cid].(messages := PrependBatch(s.chats.all[cid].messages, batch))
  {
    if cid in s.chats.all then
      PutChat(s, cid, s.chats.all[cid].(messages := PrependBatch(s.chats.all[cid].messages, batch)))
    else s
  }

  /**
   * `update_message`: in the chat the record names, the first message with
   * the record's id takes the record, reactions de-duplicated and reversed.
   */
  function UpdateMessage(s: Snapshot, raw: RawMessage): (r: Snapshot)
    ensures OnlyChatChanged(s, r, raw.conversationId)
    ensures raw.conversationId in s.chats.all ==>
              var c := s.chats.all[raw.conversationId];
              r.chats.all[raw.conversationId] == c.(messages := UpdateInnerById(c.messages, raw))
  {
    var cid := raw.conversationId;
    if cid in s.chats.all then
      PutChat(s, cid, s.chats.all[cid].(messages := UpdateInnerById(s.chats.all[cid].messages, raw)))
    else s
  }

  // ===== Friends =====

  /** A Direct chat that includes `did`. */
  predicate IsDirectWith(c: Chat, did: Did)
  {
    c.conversationType == Direct && did in c.participants
  }

  /**
   * The choices `find` over the chats table may make: some Direct chat with
   * `did` when there is one, and none otherwise.
   */
  predicate ValidPick(all: map<Uuid, Chat>, did: Did, pick: Option<Uuid>)
  {
    match pick
    case None => forall k :: k in all ==> !IsDirectWith(all[k], did)
    case Some(k) => k in all && IsDirectWith(all[k], did)
  }

  /** A pick always exists. */
  lemma {:induction false} PickExists(all: map<Uuid, Chat>, did: Did) returns (pick: Option<Uuid>)
    ensures ValidPick(all, did, pick)
  {
    if k :| k in all && IsDirectWith(all[k], did) { pick := Some(k); } else { pick := None; }
  }

  /**
   * `remove_friend`: the DID leaves the friends; if the picked Direct chat is
   * open it is closed, and it leaves the favourites.
   */
  function RemoveFriend(s: Snapshot, did: Did, pick: Option<Uuid>): (r: Snapshot)
    requires ValidPick(s.chats.all, did, pick)
    ensures r.friends == s.friends.(all := s.friends.all - {did})
    ensures pick.None? ==> r == s.(friends := r.friends)
    ensures pick.Some? ==>
              var chatId := s.chats.all[pick.value].id;
              && r.chats.active == (if s.chats.active == Some(chatId) then None else s.chats.active)
              && r.chats.favorites == Without(s.chats.favorites, chatId)
              && r == s.(friends := r.friends, chats := s.chats.(active := r.chats.active, favorites := r.chats.favorites))
  {
    var s1 := s.(friends := s.friends.(all := s.friends.all - {did}));
    match pick
    case None => s1
    case Some(k) =>
      var chatId := s.chats.all[k].id;
      var s2 := if s1.chats.active == Some(chatId) then ClearActiveChat(s1) else s1;
      Unfavorite(s2, chatId)
  }

  /** `block`: the DID is blocked, drops out of both request sets, and is removed as a friend; its identity stays. */
  function Block(s: Snapshot, did: Did, pick: Option<Uuid>): (r: Snapshot)
    requires ValidPick(s.chats.all, did, pick)
    ensures r.friends == Friends(s.friends.all - {did}, s.friends.outgoingRequests - {did},
                                 s.friends.incomingRequests - {did}, s.friends.blocked + {did})
    ensures r.identities == s.identities
    ensures r == RemoveFriend(s.(friends := r.friends.(all := s.friends.all)), did, pick)
  {
    var s1 := s.(friends := s.friends.(blocked := s.friends.blocked + {did},
                                        outgoingRequests := s.friends.outgoingRequests - {did},
                                        incomingRequests := s.friends.incomingRequests - {did}));
    RemoveFriend(s1, did, pick)
  }

  /** `complete_request`: the DID is a friend, no longer requested either way, and its identity is stored. */
  function CompleteRequest(s: Snapshot, ident: Identity): (r: Snapshot)
    ensures r.friends == s.friends.(all := s.friends.all + {ident.did},
                                    outgoingRequests := s.friends.outgoingRequests - {ident.did},
                                    incomingRequests := s.friends.incomingRequests - {ident.did})
    ensures r.identities == s.identities[ident.did := ident]
    ensures r == s.(friends := r.friends, identities := r.identities)
  {
    s.(friends := s.friends.(outgoingRequests := s.friends.outgoingRequests - {ident.did},
                             incomingRequests := s.friends.incomingRequests - {ident.did},
                             all := s.friends.all + {ident.did}),
       identities := s.identities[ident.did := ident])
  }

  /** `cancel_request`: the DID leaves both request sets and nothing else changes. */
  function CancelRequest(s: Snapshot, did: Did): (r: Snapshot)
    ensures did !in r.friends.outgoingRequests && did !in r.friends.incomingRequests
    ensures r == s.(friends := s.friends.(outgoingRequests := r.friends.outgoingRequests,
                                          incomingRequests := r.friends.incomingRequests))
    ensures r.friends.outgoingRequests + {did} == s.friends.outgoingRequests + {did}
    ensures r.friends.incomingRequests + {did} == s.friends.incomingRequests + {did}
  {
    s.(friends := s.friends.(outgoingRequests := s.friends.outgoingRequests - {did},
                             incomingRequests := s.friends.incomingRequests - {did}))
  }

  /** `new_incoming_request`: the DID is an incoming request and its identity is stored. */
  function NewIncomingRequest(s: Snapshot, ident: Identity): (r: Snapshot)
    ensures r.friends == s.friends.(incomingRequests := s.friends.incomingRequests + {ident.did})
    ensures r.identities == s.identities[ident.did := ident]
    ensures r == s.(friends := r.friends, identities := r.identities)
  {
    s.(friends := s.friends.(incomingRequests := s.friends.incomingRequests + {ident.did}),
       identities := s.identities[ident.did := ident])
  }

  /** `new_outgoing_request`: the DID is an outgoing request and its identity is stored. */
  function NewOutgoingRequest(s: Snapshot, ident: Identity): (r: Snapshot)
    ensures r.friends == s.friends.(outgoingRequests := s.friends.outgoingRequests + {ident.did})
    ensures r.identities == s.identities[ident.did := ident]
    ensures r == s.(friends := r.friends, identities := r.identities)
  {
    s.(friends := s.friends.(outgoingRequests := s.friends.outgoingRequests + {ident.did}),
       identities := s.identities[ident.did := ident])
  }

  /** `unblock`: the DID leaves the blocked set and nothing else changes. */
  function Unblock(s: Snapshot, did: Did): (r: Snapshot)
    ensures r.friends == s.friends.(blocked := s.friends.blocked - {did})
    ensures r == s.(friends := r.friends)
  {
    s.(friends := s.friends.(blocked := s.friends.blocked - {did}))
  }

  // ===== Settings =====

  /** `set_language`. */
  function SetLanguage(s: Snapshot, language: string): (r: Snapshot)
    ensures r.settings.language == language
    ensures r.settings == s.settings.(language := language)
    ensures r == s.(settings := r.settings)
  {
    s.(settings := s.settings.(language := language))
  }

  /** `update_available`: a version differing from the announced one is announced. */
  function UpdateAvailable(s: Snapshot, version: string): (r: Snapshot)
    ensures r.settings.updateAvailable == Some(version)
    ensures r == s.(settings := s.settings.(updateAvailable := Some(version)))
  {
    if s.settings.updateAvailable != Some(version) then s.(settings := s.settings.(updateAvailable := Some(version))) else s
  }

  /** DismissUpdate: the announced version moves to `update_dismissed`, leaving none announced. */
  function DismissUpdate(s: Snapshot): (r: Snapshot)
    ensures r.settings.updateAvailable.None?
    ensures r.settings.updateDismissed == s.settings.updateAvailable
    ensures r == s.(settings := s.settings.(updateAvailable := None, updateDismissed := s.settings.updateAvailable))
  {
    s.(settings := s.settings.(updateDismissed := s.settings.updateAvailable, updateAvailable := None))
  }

  // ===== UI =====

  /** The toasts after one tick: each decremented once, those with no time left dropped. */
  function DecrementedToasts(m: map<Uuid, ToastNotification>): (r: map<Uuid, ToastNotification>)
    ensures forall id :: id in r <==> id in m && m[id].remainingTime > 1
    ensures forall id :: id in r ==> r[id] == DecrementTime(m[id]) && r[id].remainingTime > 0
  {
    map id | id in m && DecrementTime(m[id]).remainingTime > 0 :: DecrementTime(m[id])
  }

  /** Some toast has at most one tick left. */
  predicate ToastExpires(m: map<Uuid, ToastNotification>)
  {
    exists id :: id in m && m[id].remainingTime <= 1
  }

  /** The toast map shrinks over one tick exactly when some toast expires. */
  lemma {:induction false} DecrementShrinksIffExpires(m: map<Uuid, ToastNotification>)
    ensures |DecrementedToasts(m)| != |m| <==> ToastExpires(m)
  {
    var r := DecrementedToasts(m);
    assert r.Keys <= m.Keys;
    SubsetSameSize(r.Keys, m.Keys);
    if ToastExpires(m) {
      var id :| id in m && m[id].remainingTime <= 1;
      assert id !in r.Keys;
    }
  }

  /** `decrement_toasts`. */
  function DecrementToasts(s: Snapshot): (r: Snapshot)
    ensures r == s.(ui := s.ui.(toasts := DecrementedToasts(s.ui.toasts)))
    ensures |r.ui.toasts| <= |s.ui.toasts|
  {
    SubsetSize(DecrementedToasts(s.ui.toasts).Keys, s.ui.toasts.Keys);
    s.(ui := s.ui.(toasts := DecrementedToasts(s.ui.toasts)))
  }

  /** `AddToastNotification` under a fresh key. */
  function AddToast(s: Snapshot, key: Uuid, t: ToastNotification): (r: Snapshot)
    ensures key in r.ui.toasts && r.ui.toasts[key] == t
    ensures key !in s.ui.toasts ==> |r.ui.toasts| == |s.ui.toasts| + 1
    ensures r == s.(ui := s.ui.(toasts := s.ui.toasts[key := t]))
  {
    s.(ui := s.ui.(toasts := s.ui.toasts[key := t]))
  }

  /** `remove_toast`. */
  function RemoveToast(s: Snapshot, key: Uuid): (r: Snapshot)
    ensures key !in r.ui.toasts
    ensures forall k :: k in r.ui.toasts <==> k in s.ui.toasts && k != key
    ensures forall k :: k in r.ui.toasts ==> r.ui.toasts[k] == s.ui.toasts[k]
    ensures r == s.(ui := s.ui.(toasts := r.ui.toasts))
  {
    s.(ui := s.ui.(toasts := s.ui.toasts - {key}))
  }

  /** A toast's countdown restarted (`reset_time`). */
  function ResetTime(t: ToastNotification): (r: ToastNotification)
    ensures r.remainingTime == t.initialTime
    ensures r == t.(remainingTime := r.remainingTime)
  {
    t.(remainingTime := t.initialTime)
  }

  /** `reset_toast_timer`: the toast's countdown restarts. */
  function ResetToastTimer(s: Snapshot, key: Uuid): (r: Snapshot)
    ensures r.ui.toasts.Keys == s.ui.toasts.Keys
    ensures key in s.ui.toasts ==> r.ui.toasts[key] == ResetTime(s.ui.toasts[key])
    ensures forall k :: k in s.ui.toasts && k != key ==> r.ui.toasts[k] == s.ui.toasts[k]
    ensures r == s.(ui := s.ui.(toasts := r.ui.toasts))
  {
    if key in s.ui.toasts then s.(ui := s.ui.(toasts := s.ui.toasts[key := ResetTime(s.ui.toasts[key])])) else s
  }

  /** `set_active_media`: a call is running for the chat. */
  function SetActiveMedia(s: Snapshot, cid: Uuid): (r: Snapshot)
    ensures r.chats.activeMedia == Some(cid) && r.ui.inCall
    ensures r == s.(chats := s.chats.(activeMedia := Some(cid)), ui := s.ui.(inCall := true))
  {
    s.(chats := s.chats.(activeMedia := Some(cid)), ui := s.ui.(inCall := true))
  }

  /** `disable_media` (hang up): no call, no media chat, no popout player. */
  function DisableMedia(s: Snapshot): (r: Snapshot)
    ensures r.chats.activeMedia.None? && !r.ui.inCall && !r.ui.popoutMediaPlayer
    ensures r == s.(chats := s.chats.(activeMedia := None), ui := s.ui.(inCall := false, popoutMediaPlayer := false))
  {
    s.(chats := s.chats.(activeMedia := None), ui := s.ui.(popoutMediaPlayer := false, inCall := false))
  }

  /** Hanging up undoes starting a call on the media fields. */
  lemma {:induction false} HangUpAfterCall(s: Snapshot, cid: Uuid)
    requires s.chats.activeMedia.None? && !s.ui.inCall && !s.ui.popoutMediaPlayer
    ensures DisableMedia(SetActiveMedia(s, cid)) == s
  {
  }

  /** `set_theme`. */
  function SetTheme(s: Snapshot, theme: Option<string>): (r: Snapshot)
    ensures r.ui.theme == theme && r == s.(ui := s.ui.(theme := theme))
  {
    s.(ui := s.ui.(theme := theme))
  }

  /** `set_font`. */
  function SetFont(s: Snapshot, font: Option<string>): (r: Snapshot)
    ensures r.ui.font == font && r == s.(ui := s.ui.(font := font))
  {
    s.(ui := s.ui.(font := font))
  }

  // ===== Identities =====

  /** Every identity is stored under its own DID. */
  predicate IdentitiesKeyed(t: map<Did, Identity>)
  {
    forall d :: d in t ==> t[d].did == d
  }

  /** `set_own_identity`: the identity is ours, its username cached and the identity stored. */
  function SetOwnIdentity(s: Snapshot, ident: Identity): (r: Snapshot)
    ensures r.id == ident.did && r.ui.cachedUsername == Some(ident.username)
    ensures r.identities == s.identities[ident.did := ident]
    ensures r == s.(id := ident.did, ui := s.ui.(cachedUsername := Some(ident.username)), identities := r.identities)
  {
    s.(id := ident.did, ui := s.ui.(cachedUsername := Some(ident.username)), identities := s.identities[ident.did := ident])
  }

  /** `update_identity`: a stored identity is replaced; an unknown DID is ignored. */
  function UpdateIdentity(s: Snapshot, did: Did, ident: Identity): (r: Snapshot)
    ensures did in s.identities ==> r == s.(identities := s.identities[did := ident])
    ensures did !in s.identities ==> r == s
  {
    if did in s.identities then s.(identities := s.identities[did := ident]) else s
  }

  /** Set the status of a stored identity (`set_identity_status` through `get_mut`). */
  function SetStatus(s: Snapshot, did: Did, status: IdentityStatus): (r: Snapshot)
    ensures r.identities.Keys == s.identities.Keys
    ensures did in s.identities ==> r.identities[did] == s.identities[did].(status := status)
    ensures forall d :: d in s.identities && d != did ==> r.identities[d] == s.identities[d]
    ensures r == s.(identities := r.identities)
  {
    if did in s.identities then s.(identities := s.identities[did := s.identities[did].(status := status)]) else s
  }

  /** `update_identity_status_hack`: someone seen as Offline who is active again is shown Online. */
  function StatusHack(s: Snapshot, did: Did): (r: Snapshot)
    ensures r.identities.Keys == s.identities.Keys
    ensures forall d :: d in s.identities && d != did ==> r.identities[d] == s.identities[d]
    ensures did in s.identities ==>
              r.identities[did] == (if s.identities[did].status == Offline then s.identities[did].(status := Online) else s.identities[did])
    ensures r == s.(identities := r.identities)
  {
    if did in s.identities && s.identities[did].status == Offline then SetStatus(s, did, Online) else s
  }

  /** Nobody is shown Offline after the status hack. */
  lemma {:induction false} StatusHackNeverOffline(s: Snapshot, did: Did)
    requires did in s.identities
    ensures StatusHack(s, did).identities[did].status != Offline
    ensures StatusHack(StatusHack(s, did), did) == StatusHack(s, did)
  {
  }

  /**
   * `extend` with each identity under its own DID, in order: later entries
   * win; DIDs not listed keep their identity.
   */
  function RegisterIdentities(t: map<Did, Identity>, ids: seq<Identity>): (r: map<Did, Identity>)
    ensures forall d :: d in r <==> d in t || exists i :: 0 <= i < |ids| && ids[i].did == d
    ensures IdentitiesKeyed(t) ==> IdentitiesKeyed(r)
    decreases |ids|
  {
    if ids == [] then t
    else
      var rest := RegisterIdentities(t[ids[0].did := ids[0]], ids[1..]);
      assert forall i :: 1 <= i < |ids| ==> ids[1..][i - 1] == ids[i];
      rest
  }

  /** A DID that no registered identity carries keeps its stored identity. */
  lemma {:induction false} RegisterIdentitiesKeeps(t: map<Did, Identity>, ids: seq<Identity>, d: Did)
    requires d in t && forall i :: 0 <= i < |ids| ==> ids[i].did != d
    ensures RegisterIdentities(t, ids)[d] == t[d]
    decreases |ids|
  {
    if ids != [] {
      RegisterIdentitiesKeeps(t[ids[0].did := ids[0]], ids[1..], d);
    }
  }

  /** The last identity listed for a DID is the one stored under it. */
  lemma {:induction false} RegisterIdentitiesLastWins(t: map<Did, Identity>, ids: seq<Identity>, i: nat)
    requires i < |ids| && forall j :: i < j < |ids| ==> ids[j].did != ids[i].did
    ensures RegisterIdentities(t, ids)[ids[i].did] == ids[i]
    decreases |ids|
  {
    if i == 0 {
      RegisterIdentitiesKeeps(t[ids[0].did := ids[0]], ids[1..], ids[0].did);
    } else {
      assert ids[1..][i - 1] == ids[i];
      RegisterIdentitiesLastWins(t[ids[0].did := ids[0]], ids[1..], i - 1);
    }
  }

  // ===== Start-up =====

  /** What start-up takes from the backend's copy of a chat that is already known. */
  function MergeChat(local: Chat, incoming: Chat): (r: Chat)
    ensures r.messages == incoming.messages && r.conversationType == incoming.conversationType
    ensures r.hasMoreMessages == incoming.hasMoreMessages
    ensures r.conversationName == incoming.conversationName && r.creator == incoming.creator
    ensures r.unreads == local.unreads && r.draft == local.draft && r.participants == local.participants
    ensures r.typingIndicator == local.typingIndicator && r.pendingOutgoingMessages == local.pendingOutgoingMessages
    ensures r.replyingTo == local.replyingTo && r.id == local.id
  {
    local.(messages := incoming.messages, conversationType := incoming.conversationType,
           hasMoreMessages := incoming.hasMoreMessages, conversationName := incoming.conversationName,
           creator := incoming.creator)
  }

  /** The chats table after merging in the backend's chats. */
  function MergeChats(all: map<Uuid, Chat>, incoming: map<Uuid, Chat>): (r: map<Uuid, Chat>)
    ensures r.Keys == all.Keys + incoming.Keys
    ensures forall k :: k in all && k !in incoming ==> r[k] == all[k]
    ensures forall k :: k in incoming && k !in all ==> r[k] == incoming[k]
    ensures forall k :: k in incoming && k in all ==> r[k] == MergeChat(all[k], incoming[k])
  {
    map k | k in all.Keys + incoming.Keys ::
      if k in incoming then (if k in all then MergeChat(all[k], incoming[k]) else incoming[k]) else all[k]
  }

  /** Merging one more backend chat under a fresh key updates or inserts just that entry. */
  lemma {:induction false} MergeChatsStep(all: map<Uuid, Chat>, incoming: map<Uuid, Chat>, k: Uuid, c: Chat)
    requires k !in incoming
    ensures MergeChats(all, incoming[k := c]) ==
              MergeChats(all, incoming)[k := if k in all then MergeChat(all[k], c) else c]
  {
    var l := MergeChats(all, incoming[k := c]);
    var r := MergeChats(all, incoming)[k := if k in all then MergeChat(all[k], c) else c];
    assert l.Keys == r.Keys;
    forall j | j in l ensures l[j] == r[j] {
    }
  }

  /** `init_warp`: friends replaced, chats merged, identities extended, and the state marked initialized. */
  function InitWarp(s: Snapshot, friends: Friends, chats: map<Uuid, Chat>, identities: map<Did, Identity>): (r: Snapshot)
    ensures r.initialized && r.friends == friends
    ensures r.chats.all == MergeChats(s.chats.all, chats)
    ensures r.identities == s.identities + identities
    ensures r == s.(friends := friends, chats := s.chats.(all := r.chats.all), identities := r.identities, initialized := true)
  {
    s.(friends := friends, chats := s.chats.(all := MergeChats(s.chats.all, chats)),
       identities := s.identities + identities, initialized := true)
  }

  /** Merging the same backend chats twice is merging them once. */
  lemma {:induction false} MergeChatsIdempotent(all: map<Uuid, Chat>, incoming: map<Uuid, Chat>)
    ensures MergeChats(MergeChats(all, incoming), incoming) == MergeChats(all, incoming)
  {
    var once := MergeChats(all, incoming);
    var twice := MergeChats(once, incoming);
    forall k | k in twice ensures twice[k] == once[k] {
      if k in incoming && k !in all {
        assert MergeChat(incoming[k], incoming[k]) == incoming[k];
      }
    }
  }
}
