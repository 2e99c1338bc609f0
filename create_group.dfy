/**
 * The create-group panel: the group name the panel sends, the friend list
 * filtered by the search prefix, the selection toggled one friend at a time,
 * the create button's guard, the request loop that creates the conversation
 * and the hand-over of the created chat to the application state.
 */
module CreateGroup {
  import opened Wrappers
  import opened Entities
  import opened Text
  import opened StateSpec
  import opened StateEvents
  import opened AppState
  import opened FriendDirectory

  // ===== Group name =====

  /**
   * The name put into the create command: none when the field holds no
   * text, or only whitespace, and otherwise the field unchanged.
   */
  function GroupNameSent(groupName: Option<string>): (r: Option<string>)
    ensures r.None? <==> groupName.None? || groupName.value == "" || AllWhitespace(groupName.value)
    ensures r.Some? ==> r == groupName && !AllWhitespace(r.value)
  {
    var text := if groupName.Some? then groupName.value else "";
    if text == [] || AllWhitespace(text) then None else groupName
  }

  // ===== Friend list =====

  /** One letter's friends kept when their username starts with `prefix`, in their order. */
  function ListedFriends(sortedFriends: seq<Identity>, prefix: string): (r: seq<Identity>)
    ensures forall i :: i in r <==> i in sortedFriends && MatchesPrefix(i.username, prefix)
    ensures |r| <= |sortedFriends|
    ensures Sorted(sortedFriends) ==> Sorted(r)
  {
    if sortedFriends == [] then []
    else
      var head := sortedFriends[0];
      var tail := sortedFriends[1..];
      var rest := ListedFriends(tail, prefix);
      assert sortedFriends == [head] + tail;
      assert Sorted(sortedFriends) ==> Sorted(rest) && Sorted([head] + rest) by {
        if Sorted(sortedFriends) {
          SortedTail(sortedFriends);
          SortedCons(head, rest);
        }
      }
      if MatchesPrefix(head.username, prefix) then [head] + rest else rest
  }

  /**
   * The list as the panel computes it: every friend of the letter goes
   * through the byte-slice filter, and the first slice that cuts a character
   * in two panics.
   */
  function ListedFriendsAsWritten(sortedFriends: seq<Identity>, prefix: string): Checked<seq<Identity>>
  {
    if sortedFriends == [] then Returns([])
    else match PrefixFilterAsWritten(sortedFriends[0].username, prefix)
      case Panics => Panics
      case Returns(keep) =>
        match ListedFriendsAsWritten(sortedFriends[1..], prefix)
        case Panics => Panics
        case Returns(rest) => Returns(if keep then [sortedFriends[0]] + rest else rest)
  }

  /** Whenever the panel's list does not panic, it is the prefix listing. */
  lemma {:induction false} ListedFriendsAgrees(sortedFriends: seq<Identity>, prefix: string)
    ensures ListedFriendsAsWritten(sortedFriends, prefix).Returns? ==>
              ListedFriendsAsWritten(sortedFriends, prefix).value == ListedFriends(sortedFriends, prefix)
  {
    if sortedFriends != [] {
      PrefixFilterAgrees(sortedFriends[0].username, prefix);
      ListedFriendsAgrees(sortedFriends[1..], prefix);
    }
  }

  /** The panel's list panics on a friend named "é" searched with "a", where the prefix listing is empty. */
  lemma {:induction false} ListedFriendsPanics(friend: Identity)
    requires friend.username == "\U{E9}"
    ensures ListedFriendsAsWritten([friend], "a") == Panics
    ensures ListedFriends([friend], "a") == []
  {
    PrefixFilterPanicsMidCharacter();
  }

  // ===== Selection =====

  /** The selected set after a friend's box became `checked`: only that friend's membership follows it. */
  function SelectionAfter(selected: set<Did>, did: Did, checked: bool): (r: set<Did>)
    ensures did in r <==> checked
    ensures forall d :: d != did ==> (d in r <==> d in selected)
  {
    if checked then selected + {did} else selected - {did}
  }

  /** Two clicks on a friend whose box agrees with the selection leave the selection as it was. */
  lemma {:induction false} SelectionTwiceRestores(selected: set<Did>, did: Did, checked: bool)
    requires checked <==> did in selected
    ensures SelectionAfter(SelectionAfter(selected, did, !checked), did, checked) == selected
  {
    var once := SelectionAfter(selected, did, !checked);
    var twice := SelectionAfter(once, did, checked);
    forall d ensures d in twice <==> d in selected {
      if d != did {
        assert d in once <==> d in selected;
      }
    }
  }

  // ===== Create requests =====

  /** The command the request loop sends (`RayGunCmd::CreateGroupConversation`), recipients as a set. */
  datatype CreateCommand = CreateGroupConversation(recipients: set<Did>, groupName: Option<string>)

  /** What became of one request: the command channel, the answer channel, the backend. */
  datatype CreateOutcome =
    | SendFailed          // the command channel refused the command
    | Cancelled           // the answer channel closed: `expect("command canceled")`
    | CreateFailed        // the backend answered with an error
    | Created(id: Uuid)   // the backend created the conversation

  /** How many requests are handled before the first cancelled answer. */
  function FirstCancelled(outcomes: seq<CreateOutcome>): (n: nat)
    ensures n <= |outcomes|
    ensures forall i :: 0 <= i < n ==> !outcomes[i].Cancelled?
    ensures n < |outcomes| ==> outcomes[n].Cancelled?
  {
    if outcomes == [] || outcomes[0].Cancelled? then 0 else 1 + FirstCancelled(outcomes[1..])
  }

  /** How many commands reached the command channel. */
  function Delivered(outcomes: seq<CreateOutcome>): (n: nat)
    ensures n <= |outcomes|
    ensures n == |outcomes| <==> forall i :: 0 <= i < |outcomes| ==> !outcomes[i].SendFailed?
  {
    if outcomes == [] then 0
    else
      var rest := Delivered(outcomes[..|outcomes| - 1]);
      assert forall i :: 0 <= i < |outcomes| - 1 ==> outcomes[..|outcomes| - 1][i] == outcomes[i];
      rest + if outcomes[|outcomes| - 1].SendFailed? then 0 else 1
  }

  /** The position of the last created conversation among `outcomes`, -1 when there is none. */
  function LastCreatedIndex(outcomes: seq<CreateOutcome>): (i: int)
    ensures -1 <= i < |outcomes|
    ensures i >= 0 ==> outcomes[i].Created?
    ensures forall j :: i < j < |outcomes| ==> !outcomes[j].Created?
  {
    if outcomes == [] then -1
    else if outcomes[|outcomes| - 1].Created? then |outcomes| - 1
    else
      var init := outcomes[..|outcomes| - 1];
      var i := LastCreatedIndex(init);
      assert forall j :: i < j < |init| ==> init[j] == outcomes[j];
      i
  }

  /** The chat to open after `outcomes`: the last one created, or `prior` when none was. */
  function LastCreated(outcomes: seq<CreateOutcome>, prior: Option<Uuid>): (r: Option<Uuid>)
    ensures LastCreatedIndex(outcomes) < 0 ==> r == prior
    ensures LastCreatedIndex(outcomes) >= 0 ==> r == Some(outcomes[LastCreatedIndex(outcomes)].id)
  {
    var i := LastCreatedIndex(outcomes);
    if i < 0 then prior else Some(outcomes[i].id)
  }

  /** The toast for a press with an invalid name, shown for 3 ticks. */
  function InvalidNameToast(invalidText: string): (t: ToastNotification)
    ensures t.title == "" && t.content == invalidText && t.icon.None?
    ensures t.initialTime == t.remainingTime == 3
  {
    InitToast("", invalidText, None, 3)
  }

  // ===== The panel =====

  /** The panel's own state (`use_state` hooks): search prefix, selection, chat to open, group name. */
  class CreateGroupPanel {
    var friendPrefix: string
    var selectedFriends: set<Did>
    var chatWith: Option<Uuid>
    var groupName: Option<string>

    /** A fresh panel: empty prefix, nothing selected, no chat to open, an empty name. */
    constructor()
      ensures friendPrefix == "" && selectedFriends == {} && chatWith.None? && groupName == Some("")
    {
      friendPrefix, selectedFriends, chatWith, groupName := "", {}, None, Some("");
    }

    /** The command a request sends, from the current selection and name. */
    function Command(): (c: CreateCommand)
      reads this
      ensures c.recipients == selectedFriends
      ensures c.groupName.None? <==> groupName.None? || AllWhitespace(groupName.value)
      ensures c.groupName.Some? ==> c.groupName == groupName
      ensures c.groupName == GroupNameSent(groupName)
    {
      CreateGroupConversation(selectedFriends, GroupNameSent(groupName))
    }

    /** The name field's return key: an invalid text clears the name, a valid one becomes it. */
    method OnReturn(v: string, isValid: bool)
      modifies this
      ensures groupName == if isValid then Some(v) else None
      ensures friendPrefix == old(friendPrefix) && selectedFriends == old(selectedFriends) && chatWith == old(chatWith)
    {
      if !isValid {
        groupName := None;
        return;
      }
      groupName := Some(v);
    }

    /** The search field's change: the new prefix. */
    method OnSearchChange(v: string)
      modifies this
      ensures friendPrefix == v
      ensures selectedFriends == old(selectedFriends) && chatWith == old(chatWith) && groupName == old(groupName)
    {
      friendPrefix := v;
    }

    /**
     * The create button: with a name, a request is queued (and the caller's
     * `oncreate` runs); without one, an invalid-name toast is added to the
     * state and nothing is requested.
     */
    method PressCreate(state: State, invalidText: string, toastKey: Uuid) returns (requested: bool)
      modifies state
      ensures requested <==> groupName.Some?
      ensures requested ==> state.Current() == old(state.Current())
      ensures !requested ==>
                state.Current() == ApplyAction(old(state.Current()), AddToastNotification(InvalidNameToast(invalidText)), toastKey, None)
    {
      if groupName.Some? {
        requested := true;
      } else {
        requested := false;
        ghost var pick := state.Mutate(AddToastNotification(InvalidNameToast(invalidText)), toastKey);
      }
    }

    /**
     * The request loop: each request sends the current command; a refused
     * send or a backend error is skipped, a created conversation becomes the
     * chat to open, and a cancelled answer panics and ends the loop.
     */
    method HandleRequests(outcomes: seq<CreateOutcome>) returns (sent: seq<CreateCommand>, panicked: bool)
      modifies this
      ensures var n := FirstCancelled(outcomes);
              && (panicked <==> n < |outcomes|)
              && |sent| == Delivered(outcomes[..if panicked then n + 1 else n])
              && chatWith == LastCreated(outcomes[..n], old(chatWith))
      ensures forall c :: c in sent ==> c == Command()
      ensures friendPrefix == old(friendPrefix) && selectedFriends == old(selectedFriends) && groupName == old(groupName)
    {
      sent := [];
      panicked := false;
      var i := 0;
      while i < |outcomes|
        invariant 0 <= i <= FirstCancelled(outcomes)
        invariant |sent| == Delivered(outcomes[..i])
        invariant chatWith == LastCreated(outcomes[..i], old(chatWith))
        invariant forall c :: c in sent ==> c == Command()
        invariant friendPrefix == old(friendPrefix) && selectedFriends == old(selectedFriends) && groupName == old(groupName)
      {
        var cmd := CreateGroupConversation(selectedFriends, GroupNameSent(groupName));
        var outcome := outcomes[i];
        assert outcomes[..i + 1][..i] == outcomes[..i];
        if outcome.SendFailed? {
          i := i + 1;
          continue;
        }
        sent := sent + [cmd];
        if outcome.Cancelled? {
          panicked := true;
          return;
        }
        if outcome.Created? {
          chatWith := Some(outcome.id);
        }
        i := i + 1;
      }
    }

    /**
     * The hand-over at render: a chat to open is cleared here and opened in
     * the state, moved to the top of the sidebar; in the minimal view the
     * sidebar is then hidden. Reports whether the chat route was taken.
     */
    method OpenCreatedChat(state: State) returns (navigated: bool)
      modifies this, state
      ensures navigated <==> old(chatWith).Some?
      ensures chatWith.None?
      ensures friendPrefix == old(friendPrefix) && selectedFriends == old(selectedFriends) && groupName == old(groupName)
      ensures old(chatWith).None? ==> state.Current() == old(state.Current())
      ensures old(chatWith).Some? ==>
                var shown := ApplyAction(old(state.Current()), ChatWith(old(chatWith).value, true), 0, None);
                state.Current() ==
                  if shown.ui.metadata.minimalView then ApplyAction(shown, SidebarHidden(true), 0, None) else shown
    {
      navigated := false;
      if chatWith.Some? {
        var id := chatWith.value;
        chatWith := None;
        ghost var pick := state.Mutate(ChatWith(id, true), 0);
        if state.ui.metadata.minimalView {
          pick := state.Mutate(SidebarHidden(true), 0);
        }
        navigated := true;
      }
    }
  }

  /** One friend's row: its check box and the friend it stands for. */
  class FriendRow {
    var isChecked: bool
    const friend: Identity

    /** A new row starts unchecked. */
    constructor(friend: Identity)
      ensures !isChecked && this.friend == friend
    {
      isChecked := false;
      this.friend := friend;
    }

    /** At render, a friend already in the selection gets its box checked; nothing unchecks it. */
    method Sync(panel: CreateGroupPanel)
      modifies this
      ensures isChecked == (old(isChecked) || friend.did in panel.selectedFriends)
    {
      if !isChecked && friend.did in panel.selectedFriends {
        isChecked := true;
      }
    }

    /** A click: the box flips and the selection follows it for this friend only. */
    method Toggle(panel: CreateGroupPanel)
      modifies this, panel
      ensures isChecked == !old(isChecked)
      ensures panel.selectedFriends == SelectionAfter(old(panel.selectedFriends), friend.did, isChecked)
      ensures panel.friendPrefix == old(panel.friendPrefix) && panel.chatWith == old(panel.chatWith)
      ensures panel.groupName == old(panel.groupName)
    {
      var friendDid := friend.did;
      var newValue := !isChecked;
      isChecked := newValue;
      var friends := panel.selectedFriends;
      if newValue {
        friends := friends + {friendDid};
      } else {
        friends := friends - {friendDid};
      }
      panel.selectedFriends := friends;
    }
  }
}
