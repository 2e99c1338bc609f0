# Uplink UI core, modelled in Dafny

Uplink is a desktop chat client. Its UI keeps one application `State`: friends, chats, the sidebar, favourites, toasts, settings and identities. Each user action (`Action`) and each backend event (identity, conversation and message events) is applied to that state by a handler. This project models that state and its handlers, and proves properties about them. It also models:

- grouping a chat's messages into runs by one sender;
- translating backend message events into UI events;
- the create-group panel and the chat sidebar's derived strings;
- the file-embed card's labels and progress;
- the file preview's format choice and theme colours.

Modules and files:

- `wrappers.dfy` (`Wrappers`): `Option` and `Result`.
- `text.dfy` (`Text`): strings as character sequences. It gives the UTF-8 byte length, byte offsets at character boundaries, prefix tests, joining, decimal rendering and substring search.
- `entities.dfy` (`Entities`): chats, messages, identities, toasts, settings and the `Snapshot` of the whole state.
- `seq_ops.dfy` (`SeqOps`): the list edits the state performs on the sidebar and the favourites.
- `message_log.dfy` (`MessageLog`): a chat's message log. It covers edit, delete, prepend and the reaction rebuild of `update_message`.
- `message_event.dfy` (`MessageEvents`): `convert_message_event`, with the backend fetches as parameters.
- `state_spec.dfy` (`StateSpec`): every state helper as a function from the old snapshot to the new one.
- `state_events.dfy` (`StateEvents`):
  - `mutate` and the event handlers, as functions;
  - the state invariant, and proofs that every action and event keeps it;
  - the friendship properties.
- `state.dfy` (`AppState`): the `State` class. Its methods update the state in place. Each method's `ensures` ties the new snapshot to the matching `StateSpec`/`StateEvents` function of the old one. The loops (typing pruning, toast ticking, message prepend and update, the start-up chat merge) carry invariants against those functions.
- `state_queries.dfy` (`StateQueries`): the read-only queries, i.e. the sidebar and favourite chats, identities, searches and the active chat.
- `grouping.dfy` (`Grouping`): `group_messages`. The loop is proved against a fold over the same loop variables. The result is well grouped and carries exactly the windowed messages.
- `friend_directory.dfy` (`FriendDirectory`): `get_friends_by_first_letter`. Friends are bucketed by the lower-cased first letter, and each bucket is sorted by username, then DID.
- `create_group.dfy` (`CreateGroup`): the create-group panel (a class), its friend rows (a class), the request coroutine and the friend filter.
- `sidebar.dfy` (`Sidebar`): participant lists, joined names, the unread badge and the chat's display name.
- `file_embed.dfy` (`FileEmbed`): the extension label, the download button, the progress percentage and text, the file description and `is_image`.
- `file_preview.dfy` (`FilePreview`): `get_file_format`, the thumbnail condition and `update_theme_colors`.

Where the written specification of the system and the code disagree, the model follows the code:

- A new incoming or outgoing friend request does not keep the friend and request sets apart. `StateEvents.OutgoingRequestExclusiveIff` and `StateEvents.IncomingRequestExclusiveIff` state exactly when they stay apart.
- Toggling a favourite that is present and toggling it again moves it to the end of the favourites (`SeqOps.ToggleTwicePresent`).
- Blocking someone with two Direct chats may leave the open one open (`StateEvents.BlockMayKeepOtherDirectChatOpen`).
- Start-up (`init_warp`) does not refresh a known chat's participants.
- The upload percentage exceeds 100 when more bytes are reported than the file size.
- `is_image` compares extensions case-sensitively.
- The identity event `FriendRemoved` only removes the DID from the friends set. It does not call `remove_friend`, so the chats are untouched.

## Model

| member | source | states |
|---|---|---|
| Entities.InitToast | common/src/state/mod.rs:148-152 | a new toast's countdown starts full: remaining time equals initial time equals the given time |
| Entities.DecrementTime | common/src/state/mod.rs:1052-1056 | one tick lowers the remaining time by one, stopping at zero, and changes no other field |
| MessageLog.FirstIndexOf | common/src/state/mod.rs:815-818 | the first position whose message has the id, with no earlier match; none exactly when no message has the id |
| MessageLog.ReplaceFirstById | common/src/state/mod.rs:418-430 | an Edited message replaces exactly the first message with its id; every other position is kept; no match leaves the log as it was |
| MessageLog.RemoveById | common/src/state/mod.rs:432-438 | a Deleted id leaves the log with exactly the other messages; its length falls by the number of messages with the id, so the log shrinks exactly when some message had it |
| MessageLog.CountId | common/src/state/mod.rs:432-438 | the number of messages carrying an id, zero exactly when none does |
| MessageLog.RemoveByIdMultiset | common/src/state/mod.rs:432-438 | every surviving message keeps its multiplicity and messages with the deleted id keep none |
| MessageLog.RemoveByIdAppend | common/src/state/mod.rs:432-438 | deleting from two concatenated logs is deleting from each, so the survivors keep their order |
| MessageLog.RemoveByIdIdempotent | common/src/state/mod.rs:432-438 | removing an id twice is removing it once |
| MessageLog.Reverse | common/src/state/mod.rs:783-793 | the reversed log has the same length, position i holding the element at the mirrored position |
| MessageLog.ReverseAppend | common/src/state/mod.rs:783-793 | reversing a concatenation concatenates the reversals in swapped order |
| MessageLog.PrependBatch | common/src/state/mod.rs:783-793 | each message of a newest-first batch is pushed onto the front: the batch ends up oldest first ahead of the unchanged log |
| MessageLog.PrependOneMore | common/src/state/mod.rs:783-793 | pushing the batch's next message onto the front extends the prepended prefix by that message |
| MessageLog.PrependTwice | common/src/state/mod.rs:783-793 | prepending two batches in turn is prepending their concatenation |
| MessageLog.DedupUsers | common/src/state/mod.rs:816-819 | a reaction's reactors after the hash-set rebuild: the same DIDs, each once, no more entries than before |
| MessageLog.DedupReactions | common/src/state/mod.rs:815-821 | the rebuilt reactions: as many as before, in reverse order (each inserted at index 0), reactors de-duplicated, emoji kept |
| MessageLog.WithDedupReactions | common/src/state/mod.rs:815-822 | the stored record keeps id, conversation, sender and text, and its reactions are exactly DedupReactions of the raw ones |
| MessageLog.UpdateInnerById | common/src/state/mod.rs:804-830 | the first message with the record's id takes the rebuilt record as its backend record; reply and key, and every other message, stay; no match changes nothing |
| MessageEvents.ConvertMessageEvent | common/src/warp_runner/ui_adapter/message_event.rs:57-142 | each handled backend event kind becomes the matching UI event; the kinds that fetch a message or a conversation pass on the first fetch error; Deleted and TypingReceived need no fetch |
| MessageEvents.ConvertAnyKind | common/src/warp_runner/ui_adapter/message_event.rs:57-149 | over every backend kind: panics (`todo!()`) exactly on a kind the match does not handle, otherwise returns ConvertMessageEvent's translation |
| MessageEvents.ConvertKeepsConversation | common/src/warp_runner/ui_adapter/message_event.rs:57-149 | when each fetch answers for the conversation asked about, the translated event names the same conversation as the backend kind |
| SeqOps.Count | common/src/state/mod.rs:899-906 | the number of occurrences is at most the length and is zero exactly when the id is absent |
| SeqOps.Without | common/src/state/mod.rs:341 | `retain(x != id)`: exactly the other members remain, each with its multiplicity, the length falling by the number of occurrences |
| SeqOps.WithoutAppend | common/src/state/mod.rs:341 | removal distributes over concatenation, so the remaining members keep their order |
| SeqOps.WithoutAbsent | common/src/state/mod.rs:341 | removing an absent id changes nothing |
| SeqOps.WithoutNoDup | common/src/state/mod.rs:837-845 | removing keeps a list free of duplicates |
| SeqOps.IndexOf | common/src/state/mod.rs:899-906 | `position` finds an occurrence with none before it |
| SeqOps.RemoveAt | common/src/state/mod.rs:899-906 | `Vec::remove(i)`: one shorter, positions before `i` kept, later ones shifted left by one, and the removed element is the only one lost |
| SeqOps.Toggle | common/src/state/mod.rs:899-906 | an absent id is appended; a present one loses one occurrence and nothing else |
| SeqOps.NoDupTail | common/src/state/mod.rs:899-906 | the tail of a duplicate-free list is duplicate-free and lacks the head |
| SeqOps.RemoveFirstIsWithout | common/src/state/mod.rs:899-906 | in a duplicate-free list, removing the first occurrence removes every occurrence |
| SeqOps.RemoveFirstStep | common/src/state/mod.rs:899-906 | removing the first occurrence from a list that does not start with it keeps the head |
| SeqOps.ToggleTwiceAbsent | common/src/state/mod.rs:899-906 | toggling an absent favourite twice restores the list exactly |
| SeqOps.ToggleTwicePresent | common/src/state/mod.rs:899-906 | toggling a present favourite twice keeps the members but moves it to the end |
| SeqOps.ToggleNoDup | common/src/state/mod.rs:899-906 | toggling keeps the favourites free of duplicates |
| SeqOps.ToggleMembership | common/src/state/mod.rs:899-906 | after a toggle the id is a favourite exactly when it was absent or occurred more than once |
| SeqOps.CountAppend | common/src/state/mod.rs:899-906 | occurrences in a concatenation add up |
| SeqOps.CountSplit | common/src/state/mod.rs:899-906 | occurrences split around a position holding the id |
| SeqOps.AddIfAbsent | common/src/state/mod.rs:748-752 | `favorite` appends only an absent id: the id is present, a present id changes nothing, an absent one goes to the end, no duplicates arise |
| SeqOps.SendToFrontSpec | common/src/state/mod.rs:863-866 | after moving to the front the id occurs once, first, the others follow in their old order, and the members are the old ones plus the id |
| SeqOps.ConsNoDup | common/src/state/mod.rs:851-861 | putting an absent id in front keeps the list free of duplicates |
| SeqOps.SendToFrontNoDup | common/src/state/mod.rs:863-866 | moving to the front keeps the sidebar free of duplicates |
| SeqOps.SendToFrontIdempotent | common/src/state/mod.rs:863-866 | moving to the front twice is moving once |
| SeqOps.PushFrontIfAbsent | common/src/state/mod.rs:851-861 | without move-to-top the id is pushed to the front only when absent; no duplicates arise |
| Text.Utf8Len | ui/src/components/chat/create_group.rs:206-212 | a character takes one to four UTF-8 bytes, one exactly when it is ASCII |
| Text.ByteLenAppend | ui/src/components/chat/create_group.rs:206-212 | the byte length of a concatenation is the sum of the byte lengths |
| Text.ByteLenPrefixStrict | ui/src/components/chat/create_group.rs:206-212 | each further character adds at least one byte, so byte offsets of prefixes strictly increase |
| Text.ByteLenAtLeastLength | ui/src/components/chat/create_group.rs:206-212 | a string has at least as many bytes as characters |
| Text.ByteLenPrefixMonotone | ui/src/components/chat/create_group.rs:206-212 | a longer prefix has at least as many bytes |
| Text.CharIndexAtByte | ui/src/components/chat/create_group.rs:206-212 | `is_char_boundary`: the character index whose prefix has exactly the given byte length, or none when no prefix has it |
| Text.CharIndexUnique | ui/src/components/chat/create_group.rs:206-212 | a byte offset falls on at most one character index |
| Text.PrefixFilterAgrees | ui/src/components/chat/create_group.rs:206-212 | whenever the byte-slice prefix filter does not panic, it answers exactly whether the name starts with the prefix |
| Text.PrefixFilterAcceptsPrefix | common/src/state/mod.rs:1184-1187 | a name that starts with the prefix is accepted and never panics |
| Text.PrefixFilterPanicsMidCharacter | common/src/state/mod.rs:1184-1187 | the filter panics on name "é" with prefix "a", where the name does not start with the prefix |
| Text.FloorCharPrefix | kit/src/components/embeds/file_embed/mod.rs:73-74 | the longest whole-character prefix that fits in n bytes |
| Text.FloorCharPrefixExact | kit/src/components/embeds/file_embed/mod.rs:73-74 | when byte n is a character boundary at index k, that prefix is the first k characters |
| Text.JoinSnoc | common/src/state/mod.rs:1275-1281 | joining one more part appends the separator and the part |
| Text.DigitChar | uplink/src/components/chat/sidebar.rs:192-193 | the decimal digit character of a digit |
| Text.Decimal | uplink/src/components/chat/sidebar.rs:192-193 | `to_string` of an unsigned number: digits only, never empty, no leading zero |
| Text.DecimalRoundTrip | uplink/src/components/chat/sidebar.rs:192-193 | reading back the decimal rendering gives the number |
| Text.ContainsFrom | ui/src/layouts/file_preview.rs:201 | scanning from an index finds an occurrence exactly when one starts at or after it |
| Text.Contains | ui/src/layouts/file_preview.rs:201 | `contains` holds exactly when the text occurs somewhere |
| StateSpec.AddMsgToChat | common/src/state/mod.rs:649-660 | only the chat's entry changes: the sender stops typing, the message ends the log, and an unread is added unless the chat is open in Compose |
| StateSpec.CancelReply | common/src/state/mod.rs:682-686 | only the chat changes: it replies to nothing |
| StateSpec.StartReplying | common/src/state/mod.rs:891-895 | only the chat changes: it replies to the message's backend record |
| StateSpec.ClearActiveChat | common/src/state/mod.rs:703-705 | no chat is active and nothing else changes |
| StateSpec.PruneTyping | common/src/state/mod.rs:718-719 | exactly the typing entries younger than five seconds remain, unchanged |
| StateSpec.PruneShrinksIffExpired | common/src/state/mod.rs:717-724 | pruning shrinks the map exactly when some entry had expired |
| StateSpec.PruneIdempotent | common/src/state/mod.rs:718-719 | pruning again at the same instant removes nothing and finds nothing expired |
| StateSpec.PruneChatsTyping | common/src/state/mod.rs:708-716 | pruning the listed chats keeps the table's keys |
| StateSpec.ClearTypingIndicator | common/src/state/mod.rs:706-727 | every sidebar chat's typing map becomes PruneTyping of it (exactly its entries younger than five seconds, unchanged), nothing else of the chat changes; other chats and every other field are unchanged |
| StateSpec.PruneChatsTypingStep | common/src/state/mod.rs:708-724 | one more sidebar id visited prunes its chat once more and sees an expired entry exactly when that chat still had one |
| StateSpec.ClearTypingIdempotent | common/src/state/mod.rs:706-727 | clearing twice at one instant is clearing once, and the second pass reports nothing removed |
| StateSpec.ClearChatDraft | common/src/state/mod.rs:730-734 | only the chat changes: its draft is cleared |
| StateSpec.SetChatDraft | common/src/state/mod.rs:885-889 | only the chat changes: its draft is the value |
| StateSpec.ClearUnreads | common/src/state/mod.rs:742-746 | only the chat changes: its unread count is zero |
| StateSpec.ClearUnreadsIdempotent | common/src/state/mod.rs:742-746 | clearing unreads twice is clearing them once |
| StateSpec.FinishedLoadingChat | common/src/state/mod.rs:753-757 | only the chat changes: no older messages remain to load |
| StateSpec.Favorite | common/src/state/mod.rs:748-752 | the chat is a favourite; a favourite already listed changes nothing; an absent chat is appended after the old favourites; no duplicates arise; only the favourites change |
| StateSpec.Unfavorite | common/src/state/mod.rs:908-910 | exactly the other favourites remain, as SeqOps.Without: each with its multiplicity and in its old order; no duplicates arise; only the favourites change |
| StateSpec.ToggleFavorite | common/src/state/mod.rs:899-906 | the favourites become SeqOps.Toggle of the old ones: an absent chat is appended, a present one loses its first occurrence and the others shift left; the chat is then a favourite exactly when it was not one or was listed more than once; no duplicates arise |
| StateSpec.RemoveSidebarChat | common/src/state/mod.rs:837-845 | the chat leaves the sidebar and the others stay in their old order, as SeqOps.Without; an open chat so removed is closed; no duplicates arise |
| StateSpec.SendChatToTop | common/src/state/mod.rs:863-866 | the chat is first in the sidebar, once, followed by the other entries in their old order |
| StateSpec.SetActiveChat | common/src/state/mod.rs:851-861 | the chat is active with zero unreads; it moves to the top when asked, otherwise goes in front only when missing; other chats untouched; no duplicates arise |
| StateSpec.IncrementOutgoing | common/src/state/mod.rs:870-876 | only the active chat's pending count rises by one, saturating at the u32 maximum; no active chat changes nothing |
| StateSpec.SaturatingInc | common/src/state/mod.rs:873 | `saturating_add(1)` on a u32 counter |
| StateSpec.DecrementOutgoing | common/src/state/mod.rs:878-882 | only the chat changes: its pending count falls by one, stopping at zero |
| StateSpec.IncrementThenDecrement | common/src/state/mod.rs:870-882 | an increment then a decrement of the active chat restores an unsaturated state |
| StateSpec.PrependMessagesToChat | common/src/state/mod.rs:783-793 | only the chat changes: the newest-first batch ends up oldest first ahead of the log |
| StateSpec.UpdateMessage | common/src/state/mod.rs:804-830 | only the record's chat changes, its log edited as UpdateInnerById says |
| StateSpec.PickExists | common/src/state/mod.rs:993-1000 | `find` over the chats table can always land somewhere valid: a Direct chat with the DID when one exists, none otherwise |
| StateSpec.RemoveFriend | common/src/state/mod.rs:987-1017 | the DID leaves the friends; the found Direct chat is closed if open and leaves the favourites; with none found nothing else changes |
| StateSpec.Block | common/src/state/mod.rs:919-932 | the DID is blocked, leaves both request sets and is unfriended as RemoveFriend says; identities are kept |
| StateSpec.CompleteRequest | common/src/state/mod.rs:933-939 | the DID becomes a friend, leaves both request sets, and its identity is stored |
| StateSpec.CancelRequest | common/src/state/mod.rs:940-943 | the DID leaves both request sets and nothing else changes |
| StateSpec.NewIncomingRequest | common/src/state/mod.rs:944-947 | the DID is an incoming request and its identity is stored |
| StateSpec.NewOutgoingRequest | common/src/state/mod.rs:949-952 | the DID is an outgoing request and its identity is stored |
| StateSpec.Unblock | common/src/state/mod.rs:1018-1020 | the DID leaves the blocked set and nothing else changes |
| StateSpec.SetLanguage | common/src/state/mod.rs:1032-1034 | the language is set; the other settings and the rest of the state stay |
| StateSpec.UpdateAvailable | common/src/state/mod.rs:1036-1046 | the version is announced and nothing else changes |
| StateSpec.DismissUpdate | common/src/state/mod.rs:153-159 | the announced version moves to the dismissed one, leaving none announced |
| StateSpec.DecrementedToasts | common/src/state/mod.rs:1052-1060 | after one tick exactly the toasts with more than one tick left remain, each decremented once |
| StateSpec.DecrementShrinksIffExpires | common/src/state/mod.rs:1052-1066 | the toast map shrinks over a tick exactly when some toast expires |
| StateSpec.DecrementToasts | common/src/state/mod.rs:1052-1067 | the toasts are those of one tick, never more than before |
| StateSpec.AddToast | common/src/state/mod.rs:148-152 | the toast is stored under its key; a fresh key adds one toast |
| StateSpec.RemoveToast | common/src/state/mod.rs:1085-1087 | exactly the other toasts remain, each unchanged |
| StateSpec.ResetTime | common/src/state/mod.rs:1091-1095 | a restarted countdown is full again and nothing else about the toast changes |
| StateSpec.ResetToastTimer | common/src/state/mod.rs:1091-1095 | the toast's countdown restarts; other toasts unchanged |
| StateSpec.SetActiveMedia | common/src/state/mod.rs:1097-1100 | a call runs for the chat |
| StateSpec.DisableMedia | common/src/state/mod.rs:1069-1073 | no call, no media chat, no popout player |
| StateSpec.HangUpAfterCall | common/src/state/mod.rs:1069-1100 | hanging up after starting a call from an idle state restores it |
| StateSpec.SetTheme | common/src/state/mod.rs:1101-1103 | the theme is set and nothing else changes |
| StateSpec.SetFont | common/src/state/mod.rs:1104-1106 | the font is set and nothing else changes |
| StateSpec.SetOwnIdentity | common/src/state/mod.rs:1174-1178 | the identity is ours, its username cached, and it is stored |
| StateSpec.UpdateIdentity | common/src/state/mod.rs:1244-1250 | a stored identity is replaced; an unknown DID is ignored |
| StateSpec.SetStatus | common/src/state/mod.rs:305-313 | only the stored identity's status changes |
| StateSpec.StatusHack | common/src/state/mod.rs:1254-1260 | someone seen as Offline is shown Online; everyone else unchanged |
| StateSpec.StatusHackNeverOffline | common/src/state/mod.rs:1254-1260 | after the hack the identity is not Offline, and the hack is idempotent |
| StateSpec.RegisterIdentities | common/src/state/mod.rs:332-336 | the table gains exactly the listed DIDs and stays keyed by DID |
| StateSpec.RegisterIdentitiesKeeps | common/src/state/mod.rs:332-336 | a DID no listed identity carries keeps its identity |
| StateSpec.RegisterIdentitiesLastWins | common/src/state/mod.rs:332-336 | the last identity listed for a DID is the stored one |
| StateSpec.MergeChat | common/src/state/mod.rs:586-591 | a known chat takes the backend's messages, type, paging flag, name and creator and keeps its own unreads, draft, participants, typing, pending count and reply |
| StateSpec.MergeChats | common/src/state/mod.rs:585-595 | the table has the keys of both; unmatched entries are kept or inserted, matched ones merged |
| StateSpec.MergeChatsStep | common/src/state/mod.rs:585-595 | merging one more backend chat updates or inserts just that entry |
| StateSpec.InitWarp | common/src/state/mod.rs:578-599 | friends replaced, chats merged, identities extended, and the state marked initialized |
| StateSpec.MergeChatsIdempotent | common/src/state/mod.rs:585-595 | merging the same backend chats twice is merging them once |
| StateEvents.ApplyAction | common/src/state/mod.rs:119-250 | every modelled action leaves the configuration and the initialized flag as they were |
| StateEvents.ApplyFriendAction | common/src/state/mod.rs:160-168 | the friendship actions leave the configuration and the initialized flag as they were |
| StateEvents.ApplyRequestAction | common/src/state/mod.rs:160-165 | the request actions leave the configuration and the initialized flag as they were |
| StateEvents.ApplyFriendListAction | common/src/state/mod.rs:166-168 | removing, blocking and unblocking leave the configuration and the initialized flag as they were |
| StateEvents.ApplyChatAction | common/src/state/mod.rs:172-222 | the chat actions leave the configuration and the initialized flag as they were |
| StateEvents.ApplySidebarAction | common/src/state/mod.rs:172-212 | the favourite, sidebar and open-chat actions leave the configuration and the initialized flag as they were |
| StateEvents.ApplyReplyAction | common/src/state/mod.rs:213-220 | the reply and unread actions leave the configuration and the initialized flag as they were |
| StateEvents.ApplyDraftAction | common/src/state/mod.rs:221-243 | the draft and media actions leave the configuration and the initialized flag as they were |
| StateEvents.ApplySettingsAction | common/src/state/mod.rs:148-201 | the toast, settings, window and identity actions leave the configuration and the initialized flag as they were |
| StateEvents.ApplyWindowAction | common/src/state/mod.rs:178-186 | the window actions leave the configuration and the initialized flag as they were |
| StateEvents.ApplyPreferenceAction | common/src/state/mod.rs:148-241 | the preference actions leave the configuration and the initialized flag as they were |
| StateEvents.ApplyMultiPass | common/src/state/mod.rs:269-325 | only a block touches the chats |
| StateEvents.ConversationCreated | common/src/state/mod.rs:329-339 | the chat is (re)written in the table; a chat new to the sidebar goes to its top and its participants are registered; a known one keeps the sidebar and identities |
| StateEvents.ConversationDeleted | common/src/state/mod.rs:340-347 | the chat leaves the sidebar and the table, and is closed if it was open |
| StateEvents.ApplyRayGun | common/src/state/mod.rs:327-348 | friends, settings and configuration untouched; a created chat is stored as sent and is in the sidebar; a deleted one is in neither the table nor the sidebar and is not open |
| StateEvents.AppendMessage | common/src/state/mod.rs:398-401 | only the chat changes: a Sent message ends its log |
| StateEvents.EditMessage | common/src/state/mod.rs:418-430 | only the chat changes: the first message with the id is replaced |
| StateEvents.DeleteMessage | common/src/state/mod.rs:432-438 | only the chat changes: every message with the id disappears |
| StateEvents.MarkTyping | common/src/state/mod.rs:444-463 | outside the sidebar nothing changes; in it, the participant is typing now |
| StateEvents.SetParticipants | common/src/state/mod.rs:464-477 | only the chat changes: its participants are the backend's recipients |
| StateEvents.SetConversationName | common/src/state/mod.rs:478-482 | only the chat changes: it takes the backend's name |
| StateEvents.ApplyMessageEvent | common/src/state/mod.rs:350-484 | friends, settings, configuration, the open chat and the set of chats are untouched; a received or sent message puts its chat first in the sidebar; other events leave the sidebar as it was |
| StateEvents.ApplyWarpEvent | common/src/state/mod.rs:258-266 | configuration and the initialized flag untouched; only identity events can change friends or settings; message events never add or remove chats |
| StateEvents.ReceivedAlert | common/src/state/mod.rs:370-396 | a desktop notification exactly when message notifications are on and the window is unfocused, with sound iff message sounds are on; otherwise a sound outside Compose when sounds are on; otherwise nothing |
| StateEvents.OnlyChatChangedKeyed | common/src/state/mod.rs:649-660 | edits confined to one chat's contents keep the table keyed by chat id |
| StateEvents.ActionKeepsValid | common/src/state/mod.rs:119-250 | every action keeps the sidebar and favourites duplicate-free and the tables keyed by id |
| StateEvents.FriendActionKeepsValid | common/src/state/mod.rs:160-168 | the friendship actions keep the invariant |
| StateEvents.RequestActionKeepsValid | common/src/state/mod.rs:160-165 | the request actions keep the invariant |
| StateEvents.ChatActionKeepsValid | common/src/state/mod.rs:172-222 | the chat actions keep the invariant |
| StateEvents.SidebarActionKeepsValid | common/src/state/mod.rs:172-212 | the sidebar actions keep the invariant |
| StateEvents.ReplyActionKeepsValid | common/src/state/mod.rs:213-220 | the reply actions keep the invariant |
| StateEvents.MockSendAppendsOwnMessage | common/src/state/mod.rs:225-237 | `MockSend` on a known chat appends one message from us with the given text and keeps the older messages in place |
| StateEvents.DraftActionKeepsValid | common/src/state/mod.rs:221-243 | the draft and media actions keep the invariant |
| StateEvents.SettingsActionKeepsValid | common/src/state/mod.rs:148-241 | the settings actions keep the invariant |
| StateEvents.MultiPassKeepsValid | common/src/state/mod.rs:269-325 | every identity event keeps the invariant |
| StateEvents.RayGunKeepsValid | common/src/state/mod.rs:327-348 | every conversation event keeps the invariant |
| StateEvents.MessageEventKeepsValid | common/src/state/mod.rs:350-484 | every message event keeps the invariant |
| StateEvents.NewMessageKeepsValid | common/src/state/mod.rs:351-431 | received, sent and edited messages keep the invariant |
| StateEvents.ChatEditKeepsValid | common/src/state/mod.rs:432-483 | deletions, reactions, typing and conversation updates keep the invariant |
| StateEvents.WarpEventKeepsValid | common/src/state/mod.rs:258-267 | every backend event keeps the invariant |
| StateEvents.InitWarpKeepsValid | common/src/state/mod.rs:578-599 | start-up keeps the invariant when the backend's tables are keyed by id |
| StateEvents.FriendHelpersKeepExclusive | common/src/state/mod.rs:919-1020 | accepting, cancelling, blocking, unblocking and unfriending keep friends and both request sets pairwise apart |
| StateEvents.OutgoingRequestExclusiveIff | common/src/state/mod.rs:949-952 | a new outgoing request keeps the sets apart exactly when the DID is neither a friend nor an incoming request |
| StateEvents.IncomingRequestExclusiveIff | common/src/state/mod.rs:944-947 | a new incoming request keeps the sets apart exactly when the DID is neither a friend nor an outgoing request |
| StateEvents.BlockClosesOnlyDirectChat | common/src/state/mod.rs:919-932 | blocking the DID of the open, only Direct chat with it closes that chat and unfavourites it, blocks the DID, and keeps identities |
| StateEvents.BlockMayKeepOtherDirectChatOpen | common/src/state/mod.rs:993-1008 | with two Direct chats for one DID, `find` may land on the closed one and blocking leaves the open one open |
| StateEvents.ReceivedOnExistingChat | common/src/state/mod.rs:351-396 | a received message ends the log, the chat is first in the sidebar, and it gains an unread unless open in Compose |
| StateEvents.SentOnExistingChat | common/src/state/mod.rs:397-406 | a sent message ends the log, unreads untouched, the chat first in the sidebar, one fewer pending |
| StateEvents.EventOnMissingChat | common/src/state/mod.rs:350-484 | a message event for a chat not in the table changes no chat |
| StateEvents.DeletedTwice | common/src/state/mod.rs:432-438 | a second Deleted event for the same message changes nothing |
| StateEvents.DeleteMessageIdempotent | common/src/state/mod.rs:432-438 | deleting a message id twice is deleting it once |
| StateQueries.FilterMap | common/src/state/mod.rs:626-641 | `filter_map(get)`: no more entries than ids, exactly the entries of the ids the table has |
| StateQueries.FilterMapAllPresent | common/src/state/mod.rs:626-641 | when every id is in the table, each position maps to its entry |
| StateQueries.FilterMapAppend | common/src/state/mod.rs:626-641 | the look-up of a concatenation is the concatenation of the look-ups |
| StateQueries.ChatsOfDistinct | common/src/state/mod.rs:626-641 | a duplicate-free id list in a keyed table lists each chat once |
| StateQueries.ChatsSidebar | common/src/state/mod.rs:634-641 | the sidebar's chats are exactly the table entries of the sidebar ids |
| StateQueries.ChatsFavorites | common/src/state/mod.rs:626-633 | the favourite chats are exactly the table entries of the favourite ids |
| StateQueries.ShownChatsDistinct | common/src/state/mod.rs:626-641 | under the invariant, sidebar and favourites each show a chat at most once |
| StateQueries.SentToTopShownFirst | common/src/state/mod.rs:863-866 | a known chat sent to the top is the first shown in the sidebar |
| StateQueries.GetIdentities | common/src/state/mod.rs:1137-1142 | exactly the stored identities of the listed DIDs |
| StateQueries.GetActiveChat | common/src/state/mod.rs:759-763 | the active chat's entry, present exactly when a chat is active and in the table |
| StateQueries.ChatWithActivates | common/src/state/mod.rs:205-209 | opening a known chat makes it the active chat with zero unreads |
| StateQueries.DraftQueries | common/src/state/mod.rs:662-668 | after setting the active draft there is a draft iff the text is non-empty; after clearing there is none |
| StateQueries.IncrementStartsSend | common/src/state/mod.rs:670-675 | one more outgoing message on the active chat puts a send in progress |
| StateQueries.BlockedDirectChatUnusable | common/src/state/mod.rs:687-701 | a blocked friend's open Direct chat can no longer be used |
| StateQueries.GetChatWithFriend | common/src/state/mod.rs:772-781 | none exactly when no Direct chat includes the DID; otherwise a Direct chat of the table including it |
| StateQueries.FriendIdentities | common/src/state/mod.rs:1129-1136 | exactly the stored identities of the friends' DIDs |
| StateQueries.BlockedIdentities | common/src/state/mod.rs:1121-1128 | exactly the stored identities of the blocked DIDs |
| StateQueries.IncomingIdentities | common/src/state/mod.rs:1152-1159 | exactly the stored identities of the incoming requests' DIDs |
| StateQueries.OutgoingIdentities | common/src/state/mod.rs:1166-1173 | exactly the stored identities of the outgoing requests' DIDs |
| StateQueries.ChatParticipants | common/src/state/mod.rs:642-648 | exactly the stored identities of the chat's participants |
| StateQueries.IdentitiesOfKeyed | common/src/state/mod.rs:1121-1173 | in a keyed table, the identities found are exactly those of known DIDs of the set |
| StateQueries.BlockMovesIdentity | common/src/state/mod.rs:1121-1173 | after blocking, a known DID's identity is listed as blocked and not as friend or request |
| StateQueries.CompleteRequestListsFriend | common/src/state/mod.rs:1129-1173 | after accepting, the identity is listed as a friend and in neither request list |
| StateQueries.GetOwnIdentity | common/src/state/mod.rs:1146-1151 | our stored identity, or the default one |
| StateQueries.Username | common/src/state/mod.rs:1299-1304 | the username of our own identity |
| StateQueries.OwnIdentityRoundTrip | common/src/state/mod.rs:1146-1178 | setting our identity is read back by the getters and the cached username |
| StateQueries.JoinUsernames | common/src/state/mod.rs:1275-1281 | no identities give the empty string; one gives its username; more give the first username, ", " and the join of the rest |
| StateQueries.Usernames | common/src/state/mod.rs:1275-1281 | the usernames in order, one per identity |
| StateQueries.RemoveSelf | common/src/state/mod.rs:1287-1293 | exactly the identities other than ours remain, no more than before |
| StateQueries.RemoveSelfIdempotent | common/src/state/mod.rs:1287-1293 | removing ourselves twice is removing ourselves once |
| StateQueries.SearchIdentities | common/src/state/mod.rs:1179-1192 | every stored identity whose username starts with the prefix is found under its DID; every entry is a stored identity's, under its DID, and its name matches the prefix |
| StateQueries.GroupDisplayName | common/src/state/mod.rs:1195-1204 | for an iteration order listing each participant once, the names joined are those of exactly the participants the identity table knows, joined by ",": empty for none, the username alone for one, otherwise the first, a comma and the rest |
| StateQueries.SearchFindsEveryPrefix | common/src/state/mod.rs:1179-1192 | every stored identity is found by each prefix of its username |
| StateQueries.SearchNarrows | common/src/state/mod.rs:1179-1192 | a longer prefix only narrows the results |
| StateQueries.SearchGroupChats | common/src/state/mod.rs:1194-1243 | entries are exactly the matching Group chats under their key, shown by their name or their participants' names |
| StateQueries.SearchGroupChatsSkipsDirect | common/src/state/mod.rs:1194-1243 | a Direct chat is never found by the group search |
| AppState.RebuildReactions | common/src/state/mod.rs:814-820 | the reaction loop builds DedupReactions of the record's reactions |
| AppState.TickToasts | common/src/state/mod.rs:1053-1059 | every toast is decremented once and the survivors are exactly DecrementedToasts |
| AppState.MergeChatTable | common/src/state/mod.rs:585-595 | the loop over the backend chats yields MergeChats |
| AppState.State.constructor | common/src/state/mod.rs:115-117 | the new state is the given snapshot |
| AppState.State.AddMsgToChat | common/src/state/mod.rs:649-660 | the state ends as StateSpec.AddMsgToChat of the old state |
| AppState.State.CancelReply | common/src/state/mod.rs:682-686 | the state ends as StateSpec.CancelReply |
| AppState.State.ClearActiveChat | common/src/state/mod.rs:703-705 | the state ends as StateSpec.ClearActiveChat |
| AppState.State.ClearTypingIndicator | common/src/state/mod.rs:706-727 | the state ends as StateSpec.ClearTypingIndicator; the answer is true exactly when some sidebar chat had an expired entry |
| AppState.State.ClearChatDraft | common/src/state/mod.rs:730-734 | the state ends as StateSpec.ClearChatDraft |
| AppState.State.ClearUnreads | common/src/state/mod.rs:742-746 | the state ends as StateSpec.ClearUnreads |
| AppState.State.Favorite | common/src/state/mod.rs:748-752 | the state ends as StateSpec.Favorite |
| AppState.State.FinishedLoadingChat | common/src/state/mod.rs:753-757 | the state ends as StateSpec.FinishedLoadingChat |
| AppState.State.PrependMessagesToChat | common/src/state/mod.rs:783-793 | the push-front loop ends as StateSpec.PrependMessagesToChat |
| AppState.State.UpdateMessage | common/src/state/mod.rs:804-830 | the scan ends as StateSpec.UpdateMessage |
| AppState.State.RemoveSidebarChat | common/src/state/mod.rs:837-845 | the state ends as StateSpec.RemoveSidebarChat |
| AppState.State.SetActiveChat | common/src/state/mod.rs:851-861 | the state ends as StateSpec.SetActiveChat |
| AppState.State.SendChatToTop | common/src/state/mod.rs:863-866 | the state ends as StateSpec.SendChatToTop |
| AppState.State.IncrementOutgoingMessages | common/src/state/mod.rs:870-876 | the state ends as StateSpec.IncrementOutgoing |
| AppState.State.DecrementOutgoingMessages | common/src/state/mod.rs:878-882 | the state ends as StateSpec.DecrementOutgoing |
| AppState.State.SetChatDraft | common/src/state/mod.rs:885-889 | the state ends as StateSpec.SetChatDraft |
| AppState.State.StartReplying | common/src/state/mod.rs:891-895 | the state ends as StateSpec.StartReplying |
| AppState.State.ToggleFavorite | common/src/state/mod.rs:899-906 | the state ends as StateSpec.ToggleFavorite |
| AppState.State.Unfavorite | common/src/state/mod.rs:908-910 | the state ends as StateSpec.Unfavorite |
| AppState.State.Block | common/src/state/mod.rs:919-932 | the state ends as StateSpec.Block for a valid pick of the old chats |
| AppState.State.CompleteRequest | common/src/state/mod.rs:933-939 | the state ends as StateSpec.CompleteRequest |
| AppState.State.CancelRequest | common/src/state/mod.rs:940-943 | the state ends as StateSpec.CancelRequest |
| AppState.State.NewIncomingRequest | common/src/state/mod.rs:944-947 | the state ends as StateSpec.NewIncomingRequest |
| AppState.State.NewOutgoingRequest | common/src/state/mod.rs:949-952 | the state ends as StateSpec.NewOutgoingRequest |
| AppState.State.RemoveFriend | common/src/state/mod.rs:987-1017 | the state ends as StateSpec.RemoveFriend for a valid pick of the old chats |
| AppState.State.Unblock | common/src/state/mod.rs:1018-1020 | the state ends as StateSpec.Unblock |
| AppState.State.SetLanguage | common/src/state/mod.rs:1032-1034 | the state ends as StateSpec.SetLanguage |
| AppState.State.UpdateAvailable | common/src/state/mod.rs:1036-1046 | the state ends as StateSpec.UpdateAvailable |
| AppState.State.DecrementToasts | common/src/state/mod.rs:1052-1067 | the state ends as StateSpec.DecrementToasts; the answer is true exactly when some toast expired |
| AppState.State.AddToast | common/src/state/mod.rs:148-152 | the state ends as StateSpec.AddToast |
| AppState.State.DisableMedia | common/src/state/mod.rs:1069-1073 | the state ends as StateSpec.DisableMedia |
| AppState.State.RemoveToast | common/src/state/mod.rs:1085-1087 | the state ends as StateSpec.RemoveToast |
| AppState.State.ResetToastTimer | common/src/state/mod.rs:1091-1095 | the state ends as StateSpec.ResetToastTimer |
| AppState.State.SetActiveMedia | common/src/state/mod.rs:1097-1100 | the state ends as StateSpec.SetActiveMedia |
| AppState.State.SetTheme | common/src/state/mod.rs:1101-1103 | the state ends as StateSpec.SetTheme |
| AppState.State.SetFont | common/src/state/mod.rs:1104-1106 | the state ends as StateSpec.SetFont |
| AppState.State.SetOwnIdentity | common/src/state/mod.rs:1174-1178 | the state ends as StateSpec.SetOwnIdentity |
| AppState.State.UpdateIdentity | common/src/state/mod.rs:1244-1250 | the state ends as StateSpec.UpdateIdentity |
| AppState.State.SetIdentityStatus | common/src/state/mod.rs:305-313 | the state ends as StateSpec.SetStatus |
| AppState.State.UpdateIdentityStatusHack | common/src/state/mod.rs:1254-1260 | the state ends as StateSpec.StatusHack |
| AppState.State.InitWarp | common/src/state/mod.rs:578-599 | the state ends as StateSpec.InitWarp |
| AppState.State.Mutate | common/src/state/mod.rs:119-250 | the state ends as StateEvents.ApplyAction with a valid pick |
| AppState.State.MutateFriends | common/src/state/mod.rs:160-168 | the state ends as StateEvents.ApplyFriendAction |
| AppState.State.MutateRequests | common/src/state/mod.rs:160-165 | the state ends as StateEvents.ApplyRequestAction |
| AppState.State.MutateFriendList | common/src/state/mod.rs:166-168 | the state ends as StateEvents.ApplyFriendListAction |
| AppState.State.MutateChats | common/src/state/mod.rs:172-222 | the state ends as StateEvents.ApplyChatAction |
| AppState.State.MutateSidebar | common/src/state/mod.rs:172-212 | the state ends as StateEvents.ApplySidebarAction |
| AppState.State.MutateReplies | common/src/state/mod.rs:213-220 | the state ends as StateEvents.ApplyReplyAction |
| AppState.State.MutateDrafts | common/src/state/mod.rs:221-243 | the state ends as StateEvents.ApplyDraftAction |
| AppState.State.MutateSettings | common/src/state/mod.rs:148-241 | the state ends as StateEvents.ApplySettingsAction |
| AppState.State.MutateWindow | common/src/state/mod.rs:178-186 | the state ends as StateEvents.ApplyWindowAction |
| AppState.State.MutatePreferences | common/src/state/mod.rs:148-241 | the state ends as StateEvents.ApplyPreferenceAction |
| AppState.State.ProcessMultiPassEvent | common/src/state/mod.rs:269-325 | the state ends as StateEvents.ApplyMultiPass; a desktop notification exactly for a received request while unfocused with friend notifications on |
| AppState.State.ProcessRayGunEvent | common/src/state/mod.rs:327-348 | the state ends as StateEvents.ApplyRayGun |
| AppState.State.ProcessMessageEvent | common/src/state/mod.rs:350-484 | the state ends as StateEvents.ApplyMessageEvent; a received message is announced as ReceivedAlert says, other events not at all |
| AppState.State.ProcessWarpEvent | common/src/state/mod.rs:258-267 | the state ends as StateEvents.ApplyWarpEvent |
| Grouping.Window | common/src/state/mod.rs:1382-1385 | the last `num` messages, or all of them when there are fewer |
| Grouping.ExtendRun | common/src/state/mod.rs:1371-1373 | `clear_last` then push: sender kept, the old last message loses its last flag, the new one ends the run, earlier ones unchanged |
| Grouping.ExtendKeepsShape | common/src/state/mod.rs:1398-1408 | extending the last run with its sender's message keeps the runs well grouped |
| Grouping.NewRunKeepsShape | common/src/state/mod.rs:1409-1421 | a new run from another sender keeps the runs well grouped |
| Grouping.ExtendCarries | common/src/state/mod.rs:1398-1408 | extending carries one more message with its fetch flag |
| Grouping.NewRunCarries | common/src/state/mod.rs:1409-1421 | a new run carries one more message with its fetch flag |
| Grouping.GroupFromCorrect | common/src/state/mod.rs:1376-1426 | placing the remaining messages keeps the runs well grouped and carrying every message placed, in order |
| Grouping.GroupedCorrect | common/src/state/mod.rs:1376-1426 | the runs built from any messages are well grouped and carry exactly those messages, the first `when_to_fetch_more` flagged |
| Grouping.ExtendStep | common/src/state/mod.rs:1398-1408 | a message from the last run's sender extends that run |
| Grouping.NewRunStep | common/src/state/mod.rs:1409-1421 | a message from another sender starts a run |
| Grouping.GroupMessages | common/src/state/mod.rs:1376-1426 | the loop yields the fold GroupFrom over the window: runs of one sender each, neighbours from different senders, first and last flags at the ends, exactly the window's messages, the first `when_to_fetch_more` flagged |
| FriendDirectory.AsciiLower | common/src/state/mod.rs:961-966 | `to_ascii_lowercase` changes only 'A'..'Z' |
| FriendDirectory.StrLeTotal | common/src/state/mod.rs:975-979 | the username order is total |
| FriendDirectory.StrLeAntisymmetric | common/src/state/mod.rs:975-979 | the username order is antisymmetric |
| FriendDirectory.StrLeTransitive | common/src/state/mod.rs:975-979 | the username order is transitive |
| FriendDirectory.KeyLeTotal | common/src/state/mod.rs:975-979 | the username-then-DID comparator is total |
| FriendDirectory.KeyLeTransitive | common/src/state/mod.rs:975-979 | the comparator is transitive |
| FriendDirectory.SortedTail | common/src/state/mod.rs:975-979 | a sorted list's tail is sorted and after its head |
| FriendDirectory.SortedCons | common/src/state/mod.rs:975-979 | a head before a sorted tail makes a sorted list |
| FriendDirectory.Insert | common/src/state/mod.rs:975-979 | insertion yields a sorted permutation of the list plus the element |
| FriendDirectory.Sort | common/src/state/mod.rs:975-979 | `sort_by`: sorted and a permutation |
| FriendDirectory.BucketStep | common/src/state/mod.rs:960-971 | one more friend visited joins its own bucket only |
| FriendDirectory.PushKeepsBuckets | common/src/state/mod.rs:968-971 | pushing a friend onto its letter's bucket keeps every bucket exact |
| FriendDirectory.PushedBucket | common/src/state/mod.rs:968-971 | the receiving bucket holds exactly its letter's friends afterwards |
| FriendDirectory.FriendsByFirstLetter | common/src/state/mod.rs:953-983 | panics exactly when some friend has an empty username; otherwise one non-empty sorted bucket per letter holding exactly that letter's friends, once each |
| FriendDirectory.BucketByLetter | common/src/state/mod.rs:960-972 | the first loop panics exactly when some friend is unnamed; otherwise every friend is in its letter's bucket |
| FriendDirectory.SortedBucketsFor | common/src/state/mod.rs:974-980 | sorting every bucket of a complete bucketing gives the grouped result |
| FriendDirectory.SortBuckets | common/src/state/mod.rs:974-980 | each bucket sorted, same keys, each a permutation of the old one |
| CreateGroup.GroupNameSent | ui/src/components/chat/create_group.rs:69-77 | no name when the field holds no text or only whitespace; otherwise the field unchanged |
| CreateGroup.ListedFriends | ui/src/components/chat/create_group.rs:200-219 | exactly the friends whose username starts with the prefix, order kept, so a sorted letter stays sorted |
| CreateGroup.ListedFriendsAgrees | ui/src/components/chat/create_group.rs:206-212 | whenever the panel's byte-slice filter does not panic, its list is ListedFriends |
| CreateGroup.ListedFriendsPanics | ui/src/components/chat/create_group.rs:206-212 | a friend named "é" searched with "a" panics where the listing is empty |
| CreateGroup.SelectionAfter | ui/src/components/chat/create_group.rs:246-257 | after a box click only that friend's membership follows the box |
| CreateGroup.SelectionTwiceRestores | ui/src/components/chat/create_group.rs:246-257 | two clicks restore the selection |
| CreateGroup.FirstCancelled | ui/src/components/chat/create_group.rs:86 | the loop handles requests up to the first cancelled answer |
| CreateGroup.Delivered | ui/src/components/chat/create_group.rs:80-83 | all commands are delivered exactly when no send failed |
| CreateGroup.LastCreatedIndex | ui/src/components/chat/create_group.rs:88-95 | the last created outcome, if any, with none after it |
| CreateGroup.LastCreated | ui/src/components/chat/create_group.rs:88-95 | the chat to open is the last one created, or the earlier one when none was |
| CreateGroup.InvalidNameToast | ui/src/components/chat/create_group.rs:170-180 | the invalid-name toast: empty title, the localized text, no icon, three ticks |
| CreateGroup.CreateGroupPanel.constructor | ui/src/components/chat/create_group.rs:37-41 | a fresh panel: empty prefix, nothing selected, no chat to open, an empty name |
| CreateGroup.CreateGroupPanel.Command | ui/src/components/chat/create_group.rs:64-79 | the command's recipients are the selection and its name is GroupNameSent of the typed name |
| CreateGroup.CreateGroupPanel.OnReturn | ui/src/components/chat/create_group.rs:124-131 | an invalid text clears the name, a valid one becomes it; nothing else changes |
| CreateGroup.CreateGroupPanel.OnSearchChange | ui/src/components/chat/create_group.rs:151-153 | the prefix is the new text; nothing else changes |
| CreateGroup.CreateGroupPanel.PressCreate | ui/src/components/chat/create_group.rs:164-181 | a request is queued exactly when there is a name; otherwise the invalid-name toast is added to the state |
| CreateGroup.CreateGroupPanel.HandleRequests | ui/src/components/chat/create_group.rs:61-100 | commands sent up to the first cancelled answer; the chat to open is the last created; a cancelled answer panics |
| CreateGroup.CreateGroupPanel.OpenCreatedChat | ui/src/components/chat/create_group.rs:50-57 | a pending chat is cleared and opened at the top of the sidebar, the sidebar hidden in the minimal view; the route is taken exactly then |
| CreateGroup.FriendRow.constructor | ui/src/components/chat/create_group.rs:234 | a new row is unchecked |
| CreateGroup.FriendRow.Sync | ui/src/components/chat/create_group.rs:235-244 | a friend in the selection gets its box checked; nothing unchecks it |
| CreateGroup.FriendRow.Toggle | ui/src/components/chat/create_group.rs:246-257 | the box flips and the selection follows it for this friend only |
| Sidebar.BuildParticipants | uplink/src/components/chat/sidebar.rs:15-33 | one entry per identity, in order, with its username and picture, shown mobile and online |
| Sidebar.UsernamesSnoc | uplink/src/components/chat/sidebar.rs:35-52 | the usernames of a longer prefix grow by the next username |
| Sidebar.BuildParticipantsNames | uplink/src/components/chat/sidebar.rs:35-52 | the usernames joined by ", ", empty for no identities |
| Sidebar.Badge | uplink/src/components/chat/sidebar.rs:192-197 | empty exactly when there are no unreads; otherwise the decimal digits of the count |
| Sidebar.ChatDisplayName | uplink/src/components/chat/sidebar.rs:175-203 | more than two others: their joined names; otherwise the first one's username, or the default identity's for none |
| FileEmbed.ExtensionLabel | kit/src/components/embeds/file_embed/mod.rs:69-79 | empty exactly without an extension; a short extension after a dot; a long one cut at the last character boundary within four bytes, then "..." |
| FileEmbed.ExtensionLabelAgrees | kit/src/components/embeds/file_embed/mod.rs:69-79 | whenever the card's label does not panic, it is ExtensionLabel |
| FileEmbed.WitnessNoBoundary | kit/src/components/embeds/file_embed/mod.rs:73-74 | byte 4 of "aéééé" is not a character boundary |
| FileEmbed.WitnessCut | kit/src/components/embeds/file_embed/mod.rs:73-74 | the corrected cut of "aéééé" at 4 bytes is "aé" |
| FileEmbed.ExtensionLabelPanics | kit/src/components/embeds/file_embed/mod.rs:73-74 | the extension "aéééé" panics the card, the corrected label keeps "aé" |
| FileEmbed.ButtonIcon | kit/src/components/embeds/file_embed/mod.rs:84-88 | while a download is pending the in-progress icon, else the given icon or the down arrow |
| FileEmbed.WithDownloadButton | kit/src/components/embeds/file_embed/mod.rs:90-96 | the explicit switch when given, else whether the card is among attachments, else not |
| FileEmbed.Percent | kit/src/components/embeds/file_embed/mod.rs:110-114 | zero until both current and size are positive; at most 100 while current is at most size; 100 at completion |
| FileEmbed.PercentIsFloor | kit/src/components/embeds/file_embed/mod.rs:110-114 | the width is `current * 100 / size` rounded down: p * size <= current * 100 < (p + 1) * size |
| FileEmbed.PercentBounded | kit/src/components/embeds/file_embed/mod.rs:110-114 | current times 100 over size stays within 100 and reaches it at the full size |
| FileEmbed.PercentMonotone | kit/src/components/embeds/file_embed/mod.rs:110-114 | more bytes transferred never shrink the bar |
| FileEmbed.UploadProgress | kit/src/components/embeds/file_embed/mod.rs:99-138 | no transfer shows nothing; failed shows 0 and "Failed"; complete shows 100; a transfer with a known total shows Percent(current, total) and the formatted total, with an unknown total 0 |
| FileEmbed.FileDescription | kit/src/components/embeds/file_embed/mod.rs:144-159 | "kind - size" when both known, the size alone without a kind, else the transfer's text, else the kind, else nothing |
| FileEmbed.FailedUploadDescribed | kit/src/components/embeds/file_embed/mod.rs:126-159 | a card of unknown size whose upload failed reads "Failed" |
| FileEmbed.LastSegment | kit/src/components/embeds/file_embed/mod.rs:308-309 | the dot-free text after the last dot, or all of it |
| FileEmbed.LastSegmentAfterDot | kit/src/components/embeds/file_embed/mod.rs:308-309 | the last part of `base.ext` is `ext` when `ext` has no dot |
| FileEmbed.IsImage | kit/src/components/embeds/file_embed/mod.rs:307-325 | the name is an image exactly when it ends with "png", "jpg", "jpeg" or "svg", as the whole name or after a '.' |
| FileEmbed.ImageSuffixes | kit/src/components/embeds/file_embed/mod.rs:308-324 | the last dot-separated part is one of the four exactly when the name ends with one of them after a dot |
| FileEmbed.SegmentIsSuffix | kit/src/components/embeds/file_embed/mod.rs:308-309 | for a dot-free extension, `split('.').last()` is it exactly when the name ends with it after a dot |
| FileEmbed.DotSuffixIsLastSegment | kit/src/components/embeds/file_embed/mod.rs:308-309 | a dot-free ending after a dot is the last segment |
| FileEmbed.IsImageByExtension | kit/src/components/embeds/file_embed/mod.rs:307-325 | `base.ext` is an image exactly when `ext` is "png", "jpg", "jpeg" or "svg" |
| FilePreview.GetFileFormat | ui/src/layouts/file_preview.rs:33-53 | Image iff an image extension; Video iff not image but video; Document iff neither but a document one; Other iff in no list |
| FilePreview.ThumbnailNeedsKnownExtension | ui/src/layouts/file_preview.rs:126 | a thumbnail is shown exactly for a non-empty thumbnail of a file in one of the lists |
| FilePreview.UpdateThemeColors | ui/src/layouts/file_preview.rs:193-215 | the theme's styles followed by the background rule, variable when the styles mention "--background", black otherwise |
| FilePreview.ContainsAppendLeft | ui/src/layouts/file_preview.rs:201 | an occurrence in `a + b` that cannot start in or cover the start of `b` lies in `a` |
| FilePreview.ContainsAppendKeeps | ui/src/layouts/file_preview.rs:201 | an occurrence in `a` is one in `a + b` |
| FilePreview.VarRuleMentionsVariable | ui/src/layouts/file_preview.rs:201-213 | after the variable rule, "var(--background)" occurs |
| FilePreview.BlackRuleAddsNoVariable | ui/src/layouts/file_preview.rs:201-213 | the black rule adds no "var(--background)" to styles without "--background" |
| FilePreview.VariableMentionsName | ui/src/layouts/file_preview.rs:201 | styles mentioning "var(--background)" mention "--background" |
| FilePreview.BackgroundFollowsTheme | ui/src/layouts/file_preview.rs:193-215 | "var(--background)" occurs in the result exactly when "--background" occurs in the theme's styles |

## Left out

- Notification counters, sounds and desktop notifications: only the decision to alert is modelled (`StateEvents.ReceivedAlert`, the friend-request alert in `ProcessMultiPassEvent`), because the counters and the OS calls are I/O.
- Extensions, call pop-outs, the debug logger, and the state's bookkeeping of open file-preview windows (`AddFilePreview`, `ForgetFilePreview`, `ClearFilePreviews`): these are separate windows and plugins outside the state core. The file-preview layout's own rules are modelled in `FilePreview`.
- `ToggleMute`, `ToggleSilence`, `SetFontScale`, `Config`, `SetOverlay` and `toggle_overlay`: they only set audio, window or configuration fields that no modelled property reads.
- `AddReaction` and `RemoveReaction`: the source leaves them as `todo!`.
- State `save`, `load`, `mock` and `clear`, `Clone`/`fmt`, and the single-field getters (`did_key`, `chats`, `friends`, `has_toasts`, `is_me`, `profile_picture` and the like): these are file I/O or plain field reads.
- `resize_window` and `get_input_options`: the first is window geometry and the second builds the input widget's validation options.
- Handled as parameters:
  - file sizes formatted by `humansize`;
  - `Path::extension` and `get_file_extension`;
  - the extension lists;
  - the localized texts;
  - `get_without_me`;
  - the theme read by `State::load`;
  - the backend fetches;
  - the clock (`now`);
  - the toast key (`Uuid::new_v4`).
- Router navigation is modelled only as a flag saying whether the chat route is taken.
- The `oncreate` callback of the create-group panel is modelled as a flag saying that creation was requested.
- Dioxus `UseState` setters take effect at the next render. The model applies them immediately.
- Rendering markup (RenderMessage and every `rsx!` element) is not modelled.
- StateSpec.AddMsgToChat: a chat's unread counter is an unbounded `nat`; the `u32` overflow of `unreads += 1` is not modelled, since it needs four billion unread messages.
- StateQueries.SearchIdentities: the source returns a `Vec` in hash-map iteration order, which is unspecified; the model returns the set of entries.
- StateQueries.FriendIdentities, StateQueries.BlockedIdentities, StateQueries.IncomingIdentities, StateQueries.OutgoingIdentities, StateQueries.ChatParticipants: the source returns a `Vec` in hash-set iteration order, which is unspecified; the model returns the set of identities.
- MessageLog.DedupUsers: the hash-set rebuild's iteration order is unspecified, so the contract states the set of reactors, that each occurs once and that the list does not grow, not their order.
- StateSpec.RemoveFriend: `find` over a hash map returns an unspecified match, so the chosen Direct chat is a parameter constrained by `ValidPick`.
- StateSpec.Block: takes the same `ValidPick` parameter as RemoveFriend.
- StateQueries.SearchGroupChats: a group chat's shown name depends on the hash set's iteration order, which is the parameter `enumerate`, required only to list each participant exactly once.
- FileEmbed.Percent: `current * 100` is unbounded here; the source's `usize` overflow is not modelled.
- Entities.DecrementTime: toast time is assumed to stop at zero rather than wrap.
- StateSpec.SaturatingInc: the pending-message counter is modelled as a `u32`, saturating at its maximum.

## Findings

| source | as written | input that shows it | evidently intended | confidence | as-written member | corrected member |
|---|---|---|---|---|---|---|
| ui/src/components/chat/create_group.rs:206-212 | the friend filter slices `&name[..prefix.len()]` by bytes, which panics when the cut falls inside a multi-byte character; the searches in common/src/state/mod.rs:1184-1187 and 1207-1211 do the same | a friend named "é" with the search prefix "a" | keep exactly the names that start with the prefix, never panicking | not executed | CreateGroup.ListedFriendsAsWritten, Text.PrefixFilterAsWritten (shown by CreateGroup.ListedFriendsPanics, Text.PrefixFilterPanicsMidCharacter) | CreateGroup.ListedFriends, Text.MatchesPrefix (CreateGroup.ListedFriendsAgrees, Text.PrefixFilterAgrees, Text.PrefixFilterAcceptsPrefix) |
| kit/src/components/embeds/file_embed/mod.rs:73-74 | an extension longer than six bytes is cut with `&s[0..4]`, which panics when byte 4 is inside a character | the extension "aéééé" | shorten to at most four bytes at a character boundary, then add "..." | not executed | FileEmbed.ExtensionLabelAsWritten (shown by FileEmbed.ExtensionLabelPanics) | FileEmbed.ExtensionLabel (FileEmbed.ExtensionLabelAgrees) |
