/**
 * The read-only getters of the state container: the chats of the sidebar and
 * the favourites list, the active chat, the identity lists of the friendship
 * sets, prefix searches over identities and group chats, and the small
 * helpers for participants lists. Results the source builds by iterating a
 * hash set or hash map, whose order is unspecified, are modelled as sets.
 */
module StateQueries {
  import opened Wrappers
  import opened Entities
  import opened Text
  import opened SeqOps
  import opened StateSpec
  import opened StateEvents

  // ===== Ordered look-ups =====

  /** `ids.iter().filter_map(|id| table.get(id))`: the entries of the ids the table has, in list order. */
  function FilterMap<K, V(!new)>(ids: seq<K>, table: map<K, V>): (r: seq<V>)
    ensures |r| <= |ids|
    ensures forall v :: v in r <==> exists i :: 0 <= i < |ids| && ids[i] in table && table[ids[i]] == v
  {
    if ids == [] then []
    else
      var rest := FilterMap(ids[1..], table);
      assert forall i :: 0 < i < |ids| ==> ids[i] == ids[1..][i - 1];
      if ids[0] in table then [table[ids[0]]] + rest else rest
  }

  /** When the table has every id, the look-up keeps every position. */
  lemma {:induction false} FilterMapAllPresent<K, V(!new)>(ids: seq<K>, table: map<K, V>)
    requires forall i :: 0 <= i < |ids| ==> ids[i] in table
    ensures |FilterMap(ids, table)| == |ids|
    ensures forall i :: 0 <= i < |ids| ==> FilterMap(ids, table)[i] == table[ids[i]]
  {
    if ids != [] {
      FilterMapAllPresent(ids[1..], table);
    }
  }

  /** The look-up over a concatenation is the concatenation of the look-ups. */
  lemma {:induction false} FilterMapAppend<K, V(!new)>(a: seq<K>, b: seq<K>, table: map<K, V>)
    ensures FilterMap(a + b, table) == FilterMap(a, table) + FilterMap(b, table)
  {
    if a == [] {
      assert a + b == b;
    } else {
      assert (a + b)[0] == a[0] && (a + b)[1..] == a[1..] + b;
      FilterMapAppend(a[1..], b, table);
    }
  }

  /** No two chats of the list have the same id. */
  predicate DistinctIds(cs: seq<Chat>)
  {
    forall i, j :: 0 <= i < j < |cs| ==> cs[i].id != cs[j].id
  }

  /**
   * Looking up a duplicate-free id list in a table that files every chat
   * under its own id lists each chat once, in list order.
   */
  lemma {:induction false} ChatsOfDistinct(ids: seq<Uuid>, all: map<Uuid, Chat>)
    requires NoDup(ids) && ChatsKeyed(all)
    ensures DistinctIds(FilterMap(ids, all))
  {
    if ids != [] {
      var rest := FilterMap(ids[1..], all);
      assert NoDup(ids[1..]) by {
        forall i, j | 0 <= i < j < |ids[1..]| ensures ids[1..][i] != ids[1..][j] {
          assert ids[1..][i] == ids[i + 1] && ids[1..][j] == ids[j + 1];
        }
      }
      ChatsOfDistinct(ids[1..], all);
      assert FilterMap(ids, all) == if ids[0] in all then [all[ids[0]]] + rest else rest;
      if ids[0] in all {
        forall c | c in rest ensures c.id != ids[0] {
          var i :| 0 <= i < |ids[1..]| && ids[1..][i] in all && all[ids[1..][i]] == c;
          assert ids[1..][i] == ids[i + 1];
        }
        var r := [all[ids[0]]] + rest;
        forall i, j | 0 <= i < j < |r| ensures r[i].id != r[j].id {
          if i == 0 {
            assert r[0] == all[ids[0]];
            assert r[0].id == ids[0];
            assert r[j] == rest[j - 1];
            assert r[j] in rest;
            assert r[j].id != ids[0];
          } else {
            assert r[i] == rest[i - 1] && r[j] == rest[j - 1];
            assert rest[i - 1].id != rest[j - 1].id;
          }
        }
      }
    }
  }

  /** `chats_sidebar`. */
  function ChatsSidebar(s: Snapshot): (r: seq<Chat>)
    ensures forall c :: c in r <==> exists i :: 0 <= i < |s.chats.inSidebar| && s.chats.inSidebar[i] in s.chats.all && s.chats.all[s.chats.inSidebar[i]] == c
  {
    FilterMap(s.chats.inSidebar, s.chats.all)
  }

  /** `chats_favorites`. */
  function ChatsFavorites(s: Snapshot): (r: seq<Chat>)
    ensures forall c :: c in r <==> exists i :: 0 <= i < |s.chats.favorites| && s.chats.favorites[i] in s.chats.all && s.chats.all[s.chats.favorites[i]] == c
  {
    FilterMap(s.chats.favorites, s.chats.all)
  }

  /** Under the state invariant the sidebar and the favourites each show a chat at most once. */
  lemma {:induction false} ShownChatsDistinct(s: Snapshot)
    requires Valid(s)
    ensures DistinctIds(ChatsSidebar(s))
    ensures DistinctIds(ChatsFavorites(s))
  {
    ChatsOfDistinct(s.chats.inSidebar, s.chats.all);
    ChatsOfDistinct(s.chats.favorites, s.chats.all);
  }

  /** Sending a known chat to the top of the sidebar shows it first. */
  lemma {:induction false} SentToTopShownFirst(s: Snapshot, cid: Uuid)
    requires cid in s.chats.all
    ensures var shown := ChatsSidebar(SendChatToTop(s, cid));
            |shown| > 0 && shown[0] == s.chats.all[cid]
  {
    var r := SendChatToTop(s, cid);
    SendToFrontSpec(s.chats.inSidebar, cid);
    assert r.chats.inSidebar == [cid] + r.chats.inSidebar[1..];
    FilterMapAppend([cid], r.chats.inSidebar[1..], r.chats.all);
  }

  /** `get_identities(ids)`. */
  function GetIdentities(s: Snapshot, ids: seq<Did>): (r: seq<Identity>)
    ensures forall i :: i in r <==> exists k :: 0 <= k < |ids| && ids[k] in s.identities && s.identities[ids[k]] == i
  {
    FilterMap(ids, s.identities)
  }

  // ===== The active chat =====

  /** `get_active_chat`: the active chat's entry, when it is in the table. */
  function GetActiveChat(s: Snapshot): (r: Option<Chat>)
    ensures r.Some? <==> s.chats.active.Some? && s.chats.active.value in s.chats.all
    ensures r.Some? ==> r.value == s.chats.all[s.chats.active.value]
  {
    match s.chats.active
    case None => None
    case Some(cid) => if cid in s.chats.all then Some(s.chats.all[cid]) else None
  }

  /** `active_chat_has_draft`: the active chat has a non-empty draft. */
  predicate ActiveChatHasDraft(s: Snapshot)
  {
    var c := GetActiveChat(s);
    c.Some? && c.value.draft.Some? && c.value.draft.value != ""
  }

  /** `active_chat_send_in_progress`: messages of the active chat are still being sent. */
  predicate ActiveChatSendInProgress(s: Snapshot)
  {
    var c := GetActiveChat(s);
    c.Some? && c.value.pendingOutgoingMessages > 0
  }

  /**
   * `can_use_active_chat`: there is an active chat, and when it is a Direct
   * chat every participant is either us or a friend.
   */
  predicate CanUseActiveChat(s: Snapshot)
  {
    var c := GetActiveChat(s);
    c.Some? && (c.value.conversationType == Direct ==> forall p :: p in c.value.participants ==> p == s.id || p in s.friends.all)
  }

  /** Opening a known chat makes it the active chat, with no unreads left. */
  lemma {:induction false} ChatWithActivates(s: Snapshot, cid: Uuid, moveToTop: bool)
    requires cid in s.chats.all
    ensures GetActiveChat(SetActiveChat(s, cid, moveToTop)) == Some(s.chats.all[cid].(unreads := 0))
  {
  }

  /** Setting the active chat's draft makes it have a draft exactly when the text is not empty; clearing removes it. */
  lemma {:induction false} DraftQueries(s: Snapshot, value: string)
    requires s.chats.active.Some? && s.chats.active.value in s.chats.all
    ensures ActiveChatHasDraft(StateSpec.SetChatDraft(s, s.chats.active.value, value)) <==> value != ""
    ensures !ActiveChatHasDraft(StateSpec.ClearChatDraft(s, s.chats.active.value))
  {
  }

  /** One more outgoing message on a known active chat puts a send in progress. */
  lemma {:induction false} IncrementStartsSend(s: Snapshot)
    requires s.chats.active.Some? && s.chats.active.value in s.chats.all
    ensures ActiveChatSendInProgress(IncrementOutgoing(s))
  {
  }

  /** A blocked friend's Direct chat can no longer be used once it is the active chat. */
  lemma {:induction false} BlockedDirectChatUnusable(s: Snapshot, did: Did, pick: Option<Uuid>)
    requires ValidPick(s.chats.all, did, pick) && did != s.id
    requires var r := StateSpec.Block(s, did, pick);
             r.chats.active.Some? && r.chats.active.value in r.chats.all &&
             IsDirectWith(r.chats.all[r.chats.active.value], did)
    ensures !CanUseActiveChat(StateSpec.Block(s, did, pick))
  {
  }

  // ===== Chats with a friend =====

  /**
   * `get_chat_with_friend`: some Direct chat whose participants include the
   * DID (`find` over the table; `pick` is the one it lands on), or none when
   * there is no such chat.
   */
  function GetChatWithFriend(s: Snapshot, did: Did, pick: Option<Uuid>): (r: Option<Chat>)
    requires ValidPick(s.chats.all, did, pick)
    ensures r.None? <==> forall k :: k in s.chats.all ==> !IsDirectWith(s.chats.all[k], did)
    ensures r.Some? ==> r.value.conversationType == Direct && did in r.value.participants && r.value in s.chats.all.Values
  {
    match pick
    case None => None
    case Some(k) => Some(s.chats.all[k])
  }

  // ===== Identities =====

  /** The stored identities of a set of DIDs (`dids.iter().filter_map(|d| identities.get(d))`). */
  function IdentitiesOf(dids: set<Did>, identities: map<Did, Identity>): set<Identity>
  {
    set d | d in dids && d in identities :: identities[d]
  }

  /** With identities filed under their own DIDs, the identities found are exactly those of the known DIDs of the set. */
  lemma {:induction false} IdentitiesOfKeyed(dids: set<Did>, identities: map<Did, Identity>)
    requires IdentitiesKeyed(identities)
    ensures forall i :: i in IdentitiesOf(dids, identities) <==> i.did in dids && i.did in identities && identities[i.did] == i
  {
    forall i: Identity | i.did in dids && i.did in identities && identities[i.did] == i
      ensures i in IdentitiesOf(dids, identities)
    {
    }
  }

  /** `friend_identities`. */
  function FriendIdentities(s: Snapshot): (r: set<Identity>)
    ensures forall i :: i in r <==> exists d :: d in s.friends.all && d in s.identities && s.identities[d] == i
  {
    IdentitiesOf(s.friends.all, s.identities)
  }

  /** `blocked_fr_identities`. */
  function BlockedIdentities(s: Snapshot): (r: set<Identity>)
    ensures forall i :: i in r <==> exists d :: d in s.friends.blocked && d in s.identities && s.identities[d] == i
  {
    IdentitiesOf(s.friends.blocked, s.identities)
  }

  /** `incoming_fr_identities`. */
  function IncomingIdentities(s: Snapshot): (r: set<Identity>)
    ensures forall i :: i in r <==> exists d :: d in s.friends.incomingRequests && d in s.identities && s.identities[d] == i
  {
    IdentitiesOf(s.friends.incomingRequests, s.identities)
  }

  /** `outgoing_fr_identities`. */
  function OutgoingIdentities(s: Snapshot): (r: set<Identity>)
    ensures forall i :: i in r <==> exists d :: d in s.friends.outgoingRequests && d in s.identities && s.identities[d] == i
  {
    IdentitiesOf(s.friends.outgoingRequests, s.identities)
  }

  /** `chat_participants`: the stored identities of a chat's participants. */
  function ChatParticipants(s: Snapshot, chat: Chat): (r: set<Identity>)
    ensures forall i :: i in r <==> exists d :: d in chat.participants && d in s.identities && s.identities[d] == i
  {
    IdentitiesOf(chat.participants, s.identities)
  }

  /**
   * Blocking a known DID moves its identity to the blocked list and out of
   * the friend and both request lists.
   */
  lemma {:induction false} BlockMovesIdentity(s: Snapshot, did: Did, pick: Option<Uuid>)
    requires IdentitiesKeyed(s.identities) && did in s.identities
    requires ValidPick(s.chats.all, did, pick)
    ensures var r := StateSpec.Block(s, did, pick);
            var ident := s.identities[did];
            && ident in BlockedIdentities(r)
            && ident !in FriendIdentities(r)
            && ident !in IncomingIdentities(r)
            && ident !in OutgoingIdentities(r)
  {
    var r := StateSpec.Block(s, did, pick);
    IdentitiesOfKeyed(r.friends.all, r.identities);
    IdentitiesOfKeyed(r.friends.blocked, r.identities);
    IdentitiesOfKeyed(r.friends.incomingRequests, r.identities);
    IdentitiesOfKeyed(r.friends.outgoingRequests, r.identities);
  }

  /** Accepting a request lists the identity among the friends and in neither request list. */
  lemma {:induction false} CompleteRequestListsFriend(s: Snapshot, ident: Identity)
    requires IdentitiesKeyed(s.identities)
    ensures var r := CompleteRequest(s, ident);
            && ident in FriendIdentities(r)
            && ident !in IncomingIdentities(r)
            && ident !in OutgoingIdentities(r)
  {
    var r := CompleteRequest(s, ident);
    assert r.identities == s.identities[ident.did := ident];
    assert IdentitiesKeyed(r.identities);
    IdentitiesOfKeyed(r.friends.all, r.identities);
    IdentitiesOfKeyed(r.friends.incomingRequests, r.identities);
    IdentitiesOfKeyed(r.friends.outgoingRequests, r.identities);
  }

  /** `get_own_identity`: our stored identity, or the default one. */
  function GetOwnIdentity(s: Snapshot): (r: Identity)
    ensures s.id in s.identities ==> r == s.identities[s.id]
    ensures s.id !in s.identities ==> r == DefaultIdentity()
  {
    if s.id in s.identities then s.identities[s.id] else DefaultIdentity()
  }

  /** `username`: our stored username, or empty. */
  function Username(s: Snapshot): (r: string)
    ensures r == GetOwnIdentity(s).username
  {
    if s.id in s.identities then s.identities[s.id].username else ""
  }

  /** Setting our own identity is read back by the own-identity getters. */
  lemma {:induction false} OwnIdentityRoundTrip(s: Snapshot, ident: Identity)
    ensures GetOwnIdentity(SetOwnIdentity(s, ident)) == ident
    ensures Username(SetOwnIdentity(s, ident)) == ident.username
    ensures SetOwnIdentity(s, ident).ui.cachedUsername == Some(Username(SetOwnIdentity(s, ident)))
  {
  }

  /** `join_usernames`: the usernames joined by ", ". */
  function JoinUsernames(ids: seq<Identity>): (r: string)
    ensures ids == [] ==> r == ""
    ensures |ids| == 1 ==> r == ids[0].username
    ensures |ids| > 1 ==> r == ids[0].username + ", " + JoinUsernames(ids[1..])
    decreases |ids|
  {
    assert ids != [] ==> Usernames(ids)[1..] == Usernames(ids[1..]);
    Join(Usernames(ids), ", ")
  }

  /** The usernames of a list of identities, in order. */
  function Usernames(ids: seq<Identity>): (r: seq<string>)
    ensures |r| == |ids| && forall i :: 0 <= i < |ids| ==> r[i] == ids[i].username
  {
    if ids == [] then [] else [ids[0].username] + Usernames(ids[1..])
  }

  /** `remove_self`: the list without our own identity, order kept. */
  function RemoveSelf(s: Snapshot, ids: seq<Identity>): (r: seq<Identity>)
    ensures forall i :: i in r <==> i in ids && i.did != s.id
    ensures |r| <= |ids|
  {
    if ids == [] then []
    else if ids[0].did != s.id then [ids[0]] + RemoveSelf(s, ids[1..])
    else RemoveSelf(s, ids[1..])
  }

  /** Removing ourselves twice is removing ourselves once. */
  lemma {:induction false} RemoveSelfIdempotent(s: Snapshot, ids: seq<Identity>)
    ensures RemoveSelf(s, RemoveSelf(s, ids)) == RemoveSelf(s, ids)
  {
    if ids != [] {
      RemoveSelfIdempotent(s, ids[1..]);
      if ids[0].did != s.id {
        assert ([ids[0]] + RemoveSelf(s, ids[1..]))[1..] == RemoveSelf(s, ids[1..]);
      }
    }
  }

  // ===== Search =====

  /** What a search result points at (`identity_search_result::Identifier`). */
  datatype Identifier = DidId(did: Did) | ChatId(id: Uuid)

  /** A search result (`identity_search_result::Entry`). */
  datatype Entry = Entry(displayName: string, id: Identifier)

  /**
   * `search_identities(prefix)`: one entry per stored identity whose
   * username starts with the prefix, under the identity's DID. The source's
   * byte-slice filter is `Text.PrefixFilterAsWritten`; this model uses the
   * corrected filter `MatchesPrefix`.
   */
  function SearchIdentities(s: Snapshot, prefix: string): (r: set<Entry>)
    ensures forall e :: e in r ==> e.id.DidId? && MatchesPrefix(e.displayName, prefix)
    ensures forall e :: e in r ==>
              exists d :: d in s.identities && e == Entry(s.identities[d].username, DidId(s.identities[d].did))
    ensures forall d :: d in s.identities && MatchesPrefix(s.identities[d].username, prefix) ==>
              Entry(s.identities[d].username, DidId(s.identities[d].did)) in r
  {
    set d | d in s.identities && MatchesPrefix(s.identities[d].username, prefix) ::
      Entry(s.identities[d].username, DidId(s.identities[d].did))
  }

  /** Every stored identity is found by each prefix of its username. */
  lemma {:induction false} SearchFindsEveryPrefix(s: Snapshot, d: Did, n: nat)
    requires d in s.identities && n <= |s.identities[d].username|
    ensures Entry(s.identities[d].username, DidId(s.identities[d].did)) in
              SearchIdentities(s, s.identities[d].username[..n])
  {
  }

  /** Typing more of a prefix can only narrow the results. */
  lemma {:induction false} SearchNarrows(s: Snapshot, prefix: string, more: string)
    ensures SearchIdentities(s, prefix + more) <= SearchIdentities(s, prefix)
  {
    forall e | e in SearchIdentities(s, prefix + more) ensures e in SearchIdentities(s, prefix) {
      var d :| d in s.identities && MatchesPrefix(s.identities[d].username, prefix + more) &&
               e == Entry(s.identities[d].username, DidId(s.identities[d].did));
      assert (prefix + more)[..|prefix|] == prefix;
    }
  }

  /**
   * `enumerate` is an iteration order of hash sets: it lists exactly the
   * members of each set, each once.
   */
  ghost predicate Enumerates(enumerate: set<Did> -> seq<Did>)
  {
    forall p: set<Did> ::
      && (forall d :: d in enumerate(p) <==> d in p)
      && (forall i, j :: 0 <= i < j < |enumerate(p)| ==> enumerate(p)[i] != enumerate(p)[j])
  }

  /**
   * The name an unnamed group chat is searched by and shown under: its
   * participants' usernames joined by ",". `enumerate` is the order in which
   * the participants' hash set is iterated.
   */
  function GroupDisplayName(s: Snapshot, chat: Chat, enumerate: set<Did> -> seq<Did>): (r: string)
    requires Enumerates(enumerate)
    // The names joined are those of exactly the participants the identity table knows.
    ensures var known := FilterMap(enumerate(chat.participants), s.identities);
            forall v :: v in known <==> exists d :: d in chat.participants && d in s.identities && s.identities[d] == v
    ensures FilterMap(enumerate(chat.participants), s.identities) == [] ==> r == ""
    ensures var known := FilterMap(enumerate(chat.participants), s.identities);
            |known| == 1 ==> r == known[0].username
    ensures var known := FilterMap(enumerate(chat.participants), s.identities);
            |known| > 1 ==> r == known[0].username + "," + Join(Usernames(known[1..]), ",")
  {
    var known := FilterMap(enumerate(chat.participants), s.identities);
    assert known != [] ==> Usernames(known)[1..] == Usernames(known[1..]);
    Join(Usernames(FilterMap(enumerate(chat.participants), s.identities)), ",")
  }

  /** A group chat is found when one of its known participants' usernames, or its name, starts with the prefix. */
  predicate GroupMatches(s: Snapshot, chat: Chat, prefix: string)
  {
    || (exists p :: p in chat.participants && p in s.identities && MatchesPrefix(s.identities[p].username, prefix))
    || (chat.conversationName.Some? && MatchesPrefix(chat.conversationName.value, prefix))
  }

  /**
   * `search_group_chats(prefix)`: one entry per matching Group chat, under
   * its table key, shown by its name or else by its participants' names.
   * The filter is the corrected `MatchesPrefix`, as in SearchIdentities.
   */
  function SearchGroupChats(s: Snapshot, prefix: string, enumerate: set<Did> -> seq<Did>): (r: set<Entry>)
    requires Enumerates(enumerate)
    ensures forall e :: e in r ==>
              && e.id.ChatId? && e.id.id in s.chats.all
              && var chat := s.chats.all[e.id.id];
              && chat.conversationType == Group
              && GroupMatches(s, chat, prefix)
              && e.displayName == (if chat.conversationName.Some? then chat.conversationName.value else GroupDisplayName(s, chat, enumerate))
    ensures forall k :: k in s.chats.all && s.chats.all[k].conversationType == Group && GroupMatches(s, s.chats.all[k], prefix) ==>
              exists e :: e in r && e.id == ChatId(k)
  {
    var r := set k | k in s.chats.all && s.chats.all[k].conversationType == Group && GroupMatches(s, s.chats.all[k], prefix) ::
      Entry(if s.chats.all[k].conversationName.Some? then s.chats.all[k].conversationName.value
            else GroupDisplayName(s, s.chats.all[k], enumerate), ChatId(k));
    assert forall k :: k in s.chats.all && s.chats.all[k].conversationType == Group && GroupMatches(s, s.chats.all[k], prefix) ==>
             Entry(if s.chats.all[k].conversationName.Some? then s.chats.all[k].conversationName.value
                   else GroupDisplayName(s, s.chats.all[k], enumerate), ChatId(k)) in r;
    r
  }

  /** Direct chats are never found by the group search. */
  lemma {:induction false} SearchGroupChatsSkipsDirect(s: Snapshot, prefix: string, enumerate: set<Did> -> seq<Did>, k: Uuid)
    requires Enumerates(enumerate)
    requires k in s.chats.all && s.chats.all[k].conversationType == Direct
    ensures forall e :: e in SearchGroupChats(s, prefix, enumerate) ==> e.id != ChatId(k)
  {
  }
}
