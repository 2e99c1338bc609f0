/**
 * `group_messages`: the tail of a chat's message log cut into runs of
 * consecutive messages from one sender, each message flagged as first or
 * last of its run and as one whose display should trigger loading more.
 */
module Grouping {
  import opened Entities

  /** A message placed into a run (`GroupedMessage`). */
  datatype GroupedMessage = GroupedMessage(message: Message, isFirst: bool, isLast: bool, shouldFetchMore: bool)

  /** A run of messages from one sender (`MessageGroup`). */
  datatype MessageGroup = MessageGroup(sender: Did, remote: bool, messages: seq<GroupedMessage>)

  /** The runs' messages one after the other. */
  function Flatten(groups: seq<MessageGroup>): (r: seq<GroupedMessage>)
  {
    if groups == [] then [] else Flatten(groups[..|groups| - 1]) + groups[|groups| - 1].messages
  }

  lemma {:induction false} FlattenAppend(groups: seq<MessageGroup>, g: MessageGroup)
    ensures Flatten(groups + [g]) == Flatten(groups) + g.messages
  {
    assert (groups + [g])[..|groups|] == groups;
  }

  /** The messages shown: the last `num` of the log, or all of them when there are fewer. */
  function Window(input: seq<Message>, num: nat): (r: seq<Message>)
    ensures |r| == if |input| < num then |input| else num
    ensures r == input[|input| - |r|..]
  {
    var toSkip := if |input| > num then |input| - num else 0;
    input[toSkip..]
  }

  /** A run is well formed: non-empty, one sender, first and last flags exactly at its ends. */
  predicate RunShape(g: MessageGroup, myDid: Did)
  {
    && |g.messages| > 0
    && g.remote == (g.sender != myDid)
    && (forall j :: 0 <= j < |g.messages| ==>
          && g.messages[j].message.inner.sender == g.sender
          && g.messages[j].isFirst == (j == 0)
          && g.messages[j].isLast == (j == |g.messages| - 1))
  }

  /** Every run well formed and neighbouring runs from different senders. */
  predicate WellGrouped(groups: seq<MessageGroup>, myDid: Did)
  {
    && (forall k :: 0 <= k < |groups| ==> RunShape(groups[k], myDid))
    && (forall k :: 0 <= k < |groups| - 1 ==> groups[k].sender != groups[k + 1].sender)
  }

  /** The runs carry exactly `msgs` in order, the first `whenToFetchMore` of them flagged for fetching. */
  predicate Carries(groups: seq<MessageGroup>, msgs: seq<Message>, whenToFetchMore: nat)
  {
    var flat := Flatten(groups);
    && |flat| == |msgs|
    && (forall k :: 0 <= k < |flat| ==> flat[k].message == msgs[k] && flat[k].shouldFetchMore == (k < whenToFetchMore))
  }

  /** A run with its last message's last flag cleared, if it has one, and `g` appended (`clear_last` + `push`). */
  function ExtendRun(run: MessageGroup, g: GroupedMessage): (r: MessageGroup)
    ensures r.sender == run.sender && r.remote == run.remote
    ensures |r.messages| == |run.messages| + 1 && r.messages[|run.messages|] == g
    ensures forall j :: 0 <= j < |run.messages| - 1 ==> r.messages[j] == run.messages[j]
    ensures |run.messages| > 0 ==> r.messages[|run.messages| - 1] == run.messages[|run.messages| - 1].(isLast := false)
  {
    var n := |run.messages|;
    if n == 0 then run.(messages := [g])
    else run.(messages := run.messages[n - 1 := run.messages[n - 1].(isLast := false)] + [g])
  }

  /** Extending the last run with a message of its sender keeps the runs well grouped. */
  lemma {:induction false} ExtendKeepsShape(groups: seq<MessageGroup>, myDid: Did, g: GroupedMessage)
    requires WellGrouped(groups, myDid) && |groups| > 0
    requires g.message.inner.sender == groups[|groups| - 1].sender && !g.isFirst && g.isLast
    ensures WellGrouped(groups[..|groups| - 1] + [ExtendRun(groups[|groups| - 1], g)], myDid)
  {
    var last := groups[|groups| - 1];
    var last' := ExtendRun(last, g);
    assert RunShape(last, myDid);
    assert RunShape(last', myDid) by {
      forall j | 0 <= j < |last'.messages|
        ensures && last'.messages[j].message.inner.sender == last'.sender
                && last'.messages[j].isFirst == (j == 0)
                && last'.messages[j].isLast == (j == |last'.messages| - 1)
      {
        if j < |last.messages| - 1 {
          assert last'.messages[j] == last.messages[j];
        }
      }
    }
  }

  /** A new run from a sender other than the last run's keeps the runs well grouped. */
  lemma {:induction false} NewRunKeepsShape(groups: seq<MessageGroup>, myDid: Did, grp: MessageGroup)
    requires WellGrouped(groups, myDid) && RunShape(grp, myDid)
    requires |groups| > 0 ==> groups[|groups| - 1].sender != grp.sender
    ensures WellGrouped(groups + [grp], myDid)
  {
  }

  /** Extending the last run carries one more message with its fetch flag. */
  lemma {:induction false} ExtendCarries(groups: seq<MessageGroup>, msgs: seq<Message>, when: nat, g: GroupedMessage)
    requires |groups| > 0 && |groups[|groups| - 1].messages| > 0
    requires Carries(groups, msgs, when)
    requires g.shouldFetchMore == (|msgs| < when)
    ensures Carries(groups[..|groups| - 1] + [ExtendRun(groups[|groups| - 1], g)], msgs + [g.message], when)
  {
    var init := groups[..|groups| - 1];
    var last := groups[|groups| - 1];
    var last' := ExtendRun(last, g);
    assert groups == init + [last];
    FlattenAppend(init, last);
    FlattenAppend(init, last');
    var flat := Flatten(groups);
    var flat' := Flatten(init + [last']);
    var base := |Flatten(init)|;
    forall k | 0 <= k < |flat'|
      ensures flat'[k].message == (msgs + [g.message])[k] && flat'[k].shouldFetchMore == (k < when)
    {
      if k < base {
        assert flat'[k] == flat[k];
      } else if k < |flat| {
        assert flat'[k] == last'.messages[k - base] && flat[k] == last.messages[k - base];
      } else {
        assert flat'[k] == g;
      }
    }
  }

  /** A new run of one message carries one more message with its fetch flag. */
  lemma {:induction false} NewRunCarries(groups: seq<MessageGroup>, msgs: seq<Message>, when: nat, grp: MessageGroup)
    requires Carries(groups, msgs, when)
    requires |grp.messages| == 1 && grp.messages[0].shouldFetchMore == (|msgs| < when)
    ensures Carries(groups + [grp], msgs + [grp.messages[0].message], when)
  {
    FlattenAppend(groups, grp);
  }

  /** What the loop of `group_messages` keeps after the messages `seen`. */
  predicate GroupedSoFar(groups: seq<MessageGroup>, seen: seq<Message>, myDid: Did, whenToFetchMore: nat)
  {
    && WellGrouped(groups, myDid)
    && Carries(groups, seen, whenToFetchMore)
    && (|seen| > 0 <==> |groups| > 0)
    && (|seen| > 0 ==> groups[|groups| - 1].sender == seen[|seen| - 1].inner.sender)
  }

  /**
   * One turn of the loop: a message from the last run's sender extends that
   * run, any other message starts a run of its own.
   */
  function Push(groups: seq<MessageGroup>, msg: Message, fetch: bool, myDid: Did): seq<MessageGroup>
  {
    if |groups| > 0 && groups[|groups| - 1].sender == msg.inner.sender then
      groups[..|groups| - 1] + [ExtendRun(groups[|groups| - 1], GroupedMessage(msg, false, true, fetch))]
    else
      groups + [MessageGroup(msg.inner.sender, msg.inner.sender != myDid, [GroupedMessage(msg, true, true, fetch)])]
  }

  /**
   * The runs the loop ends with when it holds `groups` and the fetch counter
   * `need` with the messages from index `i` still to place.
   */
  function GroupFrom(groups: seq<MessageGroup>, msgs: seq<Message>, i: nat, need: nat, myDid: Did): seq<MessageGroup>
    requires i <= |msgs|
    decreases |msgs| - i
  {
    if i == |msgs| then groups
    else GroupFrom(Push(groups, msgs[i], need > 0, myDid), msgs, i + 1, if need > 0 then need - 1 else 0, myDid)
  }

  /** Placing the remaining messages keeps the runs well grouped and carrying every message placed. */
  lemma {:induction false} GroupFromCorrect(groups: seq<MessageGroup>, msgs: seq<Message>, i: nat, need: nat, myDid: Did, when: nat)
    requires i <= |msgs| && GroupedSoFar(groups, msgs[..i], myDid, when)
    requires need == if i < when then when - i else 0
    ensures GroupedSoFar(GroupFrom(groups, msgs, i, need, myDid), msgs, myDid, when)
    decreases |msgs| - i
  {
    if i == |msgs| {
      assert msgs[..i] == msgs;
    } else {
      var msg := msgs[i];
      var fetch := need > 0;
      assert msgs[..i + 1] == msgs[..i] + [msg];
      if |groups| > 0 && groups[|groups| - 1].sender == msg.inner.sender {
        ExtendStep(groups, msgs[..i], myDid, when, GroupedMessage(msg, false, true, fetch));
      } else {
        NewRunStep(groups, msgs[..i], myDid, when, MessageGroup(msg.inner.sender, msg.inner.sender != myDid, [GroupedMessage(msg, true, true, fetch)]));
      }
      GroupFromCorrect(Push(groups, msg, fetch, myDid), msgs, i + 1, if need > 0 then need - 1 else 0, myDid, when);
    }
  }

  /** The runs built from any messages are well grouped and carry exactly those messages. */
  lemma {:induction false} GroupedCorrect(msgs: seq<Message>, myDid: Did, when: nat)
    ensures GroupedSoFar(GroupFrom([], msgs, 0, when, myDid), msgs, myDid, when)
  {
    assert msgs[..0] == [];
    GroupFromCorrect([], msgs, 0, when, myDid, when);
  }

  /** A message from the last run's sender extends that run. */
  lemma {:induction false} ExtendStep(groups: seq<MessageGroup>, seen: seq<Message>, myDid: Did, when: nat, g: GroupedMessage)
    requires GroupedSoFar(groups, seen, myDid, when)
    requires |groups| > 0 && groups[|groups| - 1].sender == g.message.inner.sender
    requires !g.isFirst && g.isLast && g.shouldFetchMore == (|seen| < when)
    ensures GroupedSoFar(groups[..|groups| - 1] + [ExtendRun(groups[|groups| - 1], g)], seen + [g.message], myDid, when)
  {
    ExtendKeepsShape(groups, myDid, g);
    ExtendCarries(groups, seen, when, g);
  }

  /** A message from another sender starts a run of its own. */
  lemma {:induction false} NewRunStep(groups: seq<MessageGroup>, seen: seq<Message>, myDid: Did, when: nat, grp: MessageGroup)
    requires GroupedSoFar(groups, seen, myDid, when)
    requires RunShape(grp, myDid) && |grp.messages| == 1 && grp.messages[0].shouldFetchMore == (|seen| < when)
    requires |groups| > 0 ==> groups[|groups| - 1].sender != grp.sender
    ensures GroupedSoFar(groups + [grp], seen + [grp.messages[0].message], myDid, when)
  {
    NewRunKeepsShape(groups, myDid, grp);
    NewRunCarries(groups, seen, when, grp);
  }

  /**
   * `group_messages(my_did, num, when_to_fetch_more, input)`: the runs of the
   * last `num` messages. Each message joins the last run when that run has
   * the same sender, taking over its last flag, and starts a new run
   * otherwise; the fetch counter answers yes for the first
   * `when_to_fetch_more` messages.
   */
  method GroupMessages(myDid: Did, num: nat, whenToFetchMore: nat, input: seq<Message>)
    returns (groups: seq<MessageGroup>)
    ensures groups == GroupFrom([], Window(input, num), 0, whenToFetchMore, myDid)
    ensures WellGrouped(groups, myDid)
    ensures Carries(groups, Window(input, num), whenToFetchMore)
  {
    var window := Window(input, num);
    groups := [];
    var needToFetchMore := whenToFetchMore;
    var i := 0;
    while i < |window|
      invariant 0 <= i <= |window|
      invariant GroupFrom(groups, window, i, needToFetchMore, myDid) == GroupFrom([], window, 0, whenToFetchMore, myDid)
    {
      var msg := window[i];
      ghost var next := Push(groups, msg, needToFetchMore > 0, myDid);
      // the fetch counter, as the `need_more` closure keeps it
      var fetch := needToFetchMore > 0;
      needToFetchMore := if needToFetchMore > 0 then needToFetchMore - 1 else 0;
      if |groups| > 0 && groups[|groups| - 1].sender == msg.inner.sender {
        var g := GroupedMessage(msg, false, true, fetch);
        groups := groups[..|groups| - 1] + [ExtendRun(groups[|groups| - 1], g)];
      } else {
        var g := GroupedMessage(msg, true, true, fetch);
        var grp := MessageGroup(msg.inner.sender, msg.inner.sender != myDid, [g]);
        groups := groups + [grp];
      }
      assert groups == next;
      i := i + 1;
    }
    GroupedCorrect(window, myDid, whenToFetchMore);
  }
}
