/**
 * The per-chat message log (a `VecDeque<Message>`, oldest first) and the
 * reconciliation edits the state container applies to it when backend events
 * arrive: replace by id, remove by id, prepend an older batch, and rebuild a
 * message's reactions with each reactor listed once.
 */
module MessageLog {
  import opened Wrappers
  import opened Entities

  /** Position of the first message whose backend id is `id` (`iter().find`). */
  function FirstIndexOf(log: seq<Message>, id: Uuid): (r: Option<nat>)
    ensures r.Some? ==> r.value < |log| && log[r.value].inner.id == id
    ensures r.Some? ==> forall j :: 0 <= j < r.value ==> log[j].inner.id != id
    ensures r.None? <==> forall j :: 0 <= j < |log| ==> log[j].inner.id != id
  {
    if log == [] then None
    else if log[0].inner.id == id then Some(0)
    else match FirstIndexOf(log[1..], id)
      case None => None
      case Some(k) => Some(k + 1)
  }

  /**
   * An Edited event: the first message with the same id is replaced by `m`;
   * every other position keeps its message; nothing changes when no id matches.
   */
  function ReplaceFirstById(log: seq<Message>, m: Message): (r: seq<Message>)
    ensures |r| == |log|
    ensures FirstIndexOf(log, m.inner.id).None? ==> r == log
    ensures FirstIndexOf(log, m.inner.id).Some? ==>
              var i := FirstIndexOf(log, m.inner.id).value;
              r[i] == m && forall j :: 0 <= j < |log| && j != i ==> r[j] == log[j]
  {
    if log == [] then []
    else if log[0].inner.id == m.inner.id then [m] + log[1..]
    else [log[0]] + ReplaceFirstById(log[1..], m)
  }

  /** How many messages of `log` carry the id `id`. */
  function CountId(log: seq<Message>, id: Uuid): (n: nat)
    ensures n <= |log|
    ensures n == 0 <==> FirstIndexOf(log, id).None?
  {
    if log == [] then 0 else (if log[0].inner.id == id then 1 else 0) + CountId(log[1..], id)
  }

  /** A Deleted event (`retain(|msg| msg.inner.id() != id)`). */
  function RemoveById(log: seq<Message>, id: Uuid): (r: seq<Message>)
    ensures forall m :: m in r <==> m in log && m.inner.id != id
    ensures |r| == |log| - CountId(log, id)
    ensures |r| == |log| <==> FirstIndexOf(log, id).None?
  {
    if log == [] then []
    else if log[0].inner.id == id then RemoveById(log[1..], id)
    else [log[0]] + RemoveById(log[1..], id)
  }

  /** Each surviving message keeps its multiplicity; the deleted id keeps none. */
  lemma {:induction false} RemoveByIdMultiset(log: seq<Message>, id: Uuid, m: Message)
    ensures multiset(RemoveById(log, id))[m] == if m.inner.id == id then 0 else multiset(log)[m]
  {
    if log != [] {
      assert log == [log[0]] + log[1..];
      RemoveByIdMultiset(log[1..], id, m);
    }
  }

  /** Deletion distributes over concatenation, so the survivors keep their order. */
  lemma {:induction false} RemoveByIdAppend(a: seq<Message>, b: seq<Message>, id: Uuid)
    ensures RemoveById(a + b, id) == RemoveById(a, id) + RemoveById(b, id)
  {
    if a != [] {
      var ab := a + b;
      assert ab[0] == a[0] && ab[1..] == a[1..] + b;
      RemoveByIdAppend(a[1..], b, id);
      if a[0].inner.id == id {
        calc {
          RemoveById(ab, id);
          RemoveById(a[1..] + b, id);
          RemoveById(a[1..], id) + RemoveById(b, id);
          RemoveById(a, id) + RemoveById(b, id);
        }
      } else {
        calc {
          RemoveById(ab, id);
          [a[0]] + RemoveById(a[1..] + b, id);
          [a[0]] + (RemoveById(a[1..], id) + RemoveById(b, id));
          ([a[0]] + RemoveById(a[1..], id)) + RemoveById(b, id);
          RemoveById(a, id) + RemoveById(b, id);
        }
      }
    } else {
      assert a + b == b;
    }
  }

  /** Removing an id twice is the same as removing it once. */
  lemma {:induction false} RemoveByIdIdempotent(log: seq<Message>, id: Uuid)
    ensures RemoveById(RemoveById(log, id), id) == RemoveById(log, id)
  {
    if log != [] {
      RemoveByIdIdempotent(log[1..], id);
      if log[0].inner.id != id {
        var r := RemoveById(log[1..], id);
        assert ([log[0]] + r)[1..] == r;
      }
    }
  }

  /** The messages of `s` in the opposite order. */
  function Reverse(s: seq<Message>): (r: seq<Message>)
    ensures |r| == |s|
    ensures forall i :: 0 <= i < |s| ==> r[i] == s[|s| - 1 - i]
  {
    if s == [] then [] else Reverse(s[1..]) + [s[0]]
  }

  lemma {:induction false} ReverseAppend(a: seq<Message>, b: seq<Message>)
    ensures Reverse(a + b) == Reverse(b) + Reverse(a)
  {
    var l, r := Reverse(a + b), Reverse(b) + Reverse(a);
    assert |l| == |r|;
    forall i | 0 <= i < |l| ensures l[i] == r[i] {
      if i < |b| { assert r[i] == Reverse(b)[i]; } else { assert r[i] == Reverse(a)[i - |b|]; }
    }
  }

  /**
   * `prepend_messages_to_chat`: each message of a newest-first batch is pushed
   * onto the front in turn, so the batch ends up oldest first ahead of the log.
   */
  function PrependBatch(log: seq<Message>, batch: seq<Message>): (r: seq<Message>)
    ensures |r| == |batch| + |log|
    ensures r[|batch|..] == log
    ensures forall i :: 0 <= i < |batch| ==> r[i] == batch[|batch| - 1 - i]
  {
    Reverse(batch) + log
  }

  /** Pushing the batch's next message onto the front extends the prepended prefix by one. */
  lemma {:induction false} PrependOneMore(log: seq<Message>, batch: seq<Message>, i: nat)
    requires i < |batch|
    ensures [batch[i]] + PrependBatch(log, batch[..i]) == PrependBatch(log, batch[..i + 1])
  {
    assert batch[..i + 1] == batch[..i] + [batch[i]];
    ReverseAppend(batch[..i], [batch[i]]);
    assert Reverse([batch[i]]) == [batch[i]];
  }

  /** Prepending two batches one after the other is prepending them as one batch. */
  lemma {:induction false} PrependTwice(log: seq<Message>, b1: seq<Message>, b2: seq<Message>)
    ensures PrependBatch(PrependBatch(log, b1), b2) == PrependBatch(log, b1 + b2)
  {
    ReverseAppend(b1, b2);
  }

  /** No reactor occurs twice. */
  predicate DistinctDids(s: seq<Did>)
  {
    forall i, j :: 0 <= i < j < |s| ==> s[i] != s[j]
  }

  /**
   * The reactors of one reaction rebuilt through a `HashSet`: the same
   * identities, each once. The set's iteration order is unspecified; this
   * model keeps first occurrences in their original order.
   */
  function DedupUsers(users: seq<Did>): (r: seq<Did>)
    ensures DistinctDids(r)
    ensures forall u :: u in r <==> u in users
    ensures |r| <= |users|
  {
    if users == [] then []
    else
      var rest := DedupUsers(users[..|users| - 1]);
      var last := users[|users| - 1];
      assert users == users[..|users| - 1] + [last];
      if last in rest then rest else rest + [last]
  }

  /**
   * The reactions of an updated message as the state stores them: each
   * reaction's reactors de-duplicated, and the list reversed, since every
   * rebuilt reaction is inserted at index 0.
   */
  function DedupReactions(rs: seq<Reaction>): (r: seq<Reaction>)
    ensures |r| == |rs|
    ensures forall i :: 0 <= i < |rs| ==> r[i] == rs[|rs| - 1 - i].(users := DedupUsers(rs[|rs| - 1 - i].users))
    ensures forall i :: 0 <= i < |rs| ==>
              r[i].emoji == rs[|rs| - 1 - i].emoji &&
              DistinctDids(r[i].users) &&
              (forall u :: u in r[i].users <==> u in rs[|rs| - 1 - i].users)
  {
    if rs == [] then []
    else DedupReactions(rs[1..]) + [rs[0].(users := DedupUsers(rs[0].users))]
  }

  /** The backend record a reaction event stores: its reactions de-duplicated and reversed. */
  function WithDedupReactions(raw: RawMessage): (r: RawMessage)
    ensures r.id == raw.id && r.conversationId == raw.conversationId && r.sender == raw.sender
    ensures r.value == raw.value
    ensures r.reactions == DedupReactions(raw.reactions)
    ensures |r.reactions| == |raw.reactions|
  {
    raw.(reactions := DedupReactions(raw.reactions))
  }

  /**
   * A reaction event (`update_message`): the first message with the record's
   * id gets the rebuilt record as its `inner`; its reply snapshot and key, and
   * every other message, stay; nothing changes when no id matches.
   */
  function UpdateInnerById(log: seq<Message>, raw: RawMessage): (r: seq<Message>)
    ensures |r| == |log|
    ensures FirstIndexOf(log, raw.id).None? ==> r == log
    ensures FirstIndexOf(log, raw.id).Some? ==>
              var i := FirstIndexOf(log, raw.id).value;
              r[i] == log[i].(inner := WithDedupReactions(raw)) &&
              forall j :: 0 <= j < |log| && j != i ==> r[j] == log[j]
  {
    if log == [] then []
    else if log[0].inner.id == raw.id then [log[0].(inner := WithDedupReactions(raw))] + log[1..]
    else [log[0]] + UpdateInnerById(log[1..], raw)
  }
}
