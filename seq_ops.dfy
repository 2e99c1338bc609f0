/**
 * The ordered-list edits the state container applies to the sidebar order
 * and the favourites list (`retain`, `push_front`, `position` + `remove`,
 * `push`), each with the reference property it must keep.
 */
module SeqOps {
  import opened Entities

  /** Occurrences of `x` in `s`. */
  function Count(s: seq<Uuid>, x: Uuid): (n: nat)
    ensures n <= |s|
    ensures n == 0 <==> x !in s
  {
    if s == [] then 0 else (if s[0] == x then 1 else 0) + Count(s[1..], x)
  }

  /** No element occurs twice. */
  predicate NoDup(s: seq<Uuid>)
  {
    forall i, j :: 0 <= i < j < |s| ==> s[i] != s[j]
  }

  /** `s.retain(|y| y != x)`: every `x` removed, the rest kept in order. */
  function Without(s: seq<Uuid>, x: Uuid): (r: seq<Uuid>)
    ensures forall y :: y in r <==> y in s && y != x
    ensures |r| == |s| - Count(s, x)
    ensures multiset(r) == multiset(s)[x := 0]
  {
    if s == [] then []
    else
      assert s == [s[0]] + s[1..];
      if s[0] == x then Without(s[1..], x) else [s[0]] + Without(s[1..], x)
  }

  /** Removal distributes over concatenation, so the survivors keep their order. */
  lemma {:induction false} WithoutAppend(a: seq<Uuid>, b: seq<Uuid>, x: Uuid)
    ensures Without(a + b, x) == Without(a, x) + Without(b, x)
  {
    if a != [] {
      assert (a + b)[1..] == a[1..] + b;
      WithoutAppend(a[1..], b, x);
    } else {
      assert a + b == b;
    }
  }

  /** Removing an absent element changes nothing. */
  lemma {:induction false} WithoutAbsent(s: seq<Uuid>, x: Uuid)
    requires x !in s
    ensures Without(s, x) == s
  {
    if s != [] { WithoutAbsent(s[1..], x); }
  }

  /** Removing keeps a list free of duplicates. */
  lemma {:induction false} WithoutNoDup(s: seq<Uuid>, x: Uuid)
    requires NoDup(s)
    ensures NoDup(Without(s, x))
  {
    if s != [] {
      assert NoDup(s[1..]) by {
        forall i, j | 0 <= i < j < |s[1..]| ensures s[1..][i] != s[1..][j] {
          assert s[1..][i] == s[i + 1] && s[1..][j] == s[j + 1];
        }
      }
      WithoutNoDup(s[1..], x);
      var r := Without(s[1..], x);
      if s[0] != x {
        assert s[0] !in s[1..];
        forall i, j | 0 <= i < j < |[s[0]] + r| ensures ([s[0]] + r)[i] != ([s[0]] + r)[j] {
          if i == 0 { assert ([s[0]] + r)[j] in r; }
        }
      }
    }
  }

  /** Index of the first occurrence of `x` (`iter().position`). */
  function IndexOf(s: seq<Uuid>, x: Uuid): (i: nat)
    requires x in s
    ensures i < |s| && s[i] == x && x !in s[..i]
  {
    if s[0] == x then 0 else
      var k := IndexOf(s[1..], x);
      assert s[..k + 1] == [s[0]] + s[1..][..k];
      k + 1
  }

  /** `Vec::remove(i)`: the element at `i` taken out, the rest shifted left. */
  function RemoveAt(s: seq<Uuid>, i: nat): (r: seq<Uuid>)
    requires i < |s|
    ensures |r| == |s| - 1
    ensures forall j :: 0 <= j < i ==> r[j] == s[j]
    ensures forall j :: i <= j < |r| ==> r[j] == s[j + 1]
    ensures multiset(r) + multiset{s[i]} == multiset(s)
  {
    assert s == s[..i] + [s[i]] + s[i + 1..];
    s[..i] + s[i + 1..]
  }

  /**
   * `toggle_favorite`: remove the first occurrence when present, otherwise
   * append.
   */
  function Toggle(s: seq<Uuid>, x: Uuid): (r: seq<Uuid>)
    ensures x !in s ==> r == s + [x]
    ensures x in s ==> |r| + 1 == |s| && multiset(r) + multiset{x} == multiset(s)
  {
    if x in s then RemoveAt(s, IndexOf(s, x)) else s + [x]
  }

  /** The tail of a duplicate-free list is duplicate-free and lacks the head. */
  lemma {:induction false} NoDupTail(s: seq<Uuid>)
    requires NoDup(s) && s != []
    ensures NoDup(s[1..]) && s[0] !in s[1..]
  {
    forall a, b | 0 <= a < b < |s[1..]| ensures s[1..][a] != s[1..][b] {
      assert s[1..][a] == s[a + 1] && s[1..][b] == s[b + 1];
    }
    forall j | 0 <= j < |s[1..]| ensures s[1..][j] != s[0] {
      assert s[1..][j] == s[j + 1];
    }
  }

  /** In a list without duplicates, removing the first occurrence removes every occurrence. */
  lemma {:induction false} RemoveFirstIsWithout(s: seq<Uuid>, x: Uuid)
    requires NoDup(s) && x in s
    ensures RemoveAt(s, IndexOf(s, x)) == Without(s, x)
  {
    NoDupTail(s);
    if s[0] == x {
      WithoutAbsent(s[1..], x);
      assert RemoveAt(s, 0) == s[1..];
    } else {
      RemoveFirstIsWithout(s[1..], x);
      RemoveFirstStep(s, x);
    }
  }

  /** Removing the first `x` from a list that does not start with `x` keeps the head and removes from the tail. */
  lemma {:induction false} RemoveFirstStep(s: seq<Uuid>, x: Uuid)
    requires s != [] && s[0] != x && x in s[1..]
    requires RemoveAt(s[1..], IndexOf(s[1..], x)) == Without(s[1..], x)
    ensures RemoveAt(s, IndexOf(s, x)) == Without(s, x)
  {
    var t := s[1..];
    var k := IndexOf(t, x);
    assert IndexOf(s, x) == k + 1;
    assert s[..k + 1] == [s[0]] + t[..k] && s[k + 2..] == t[k + 1..];
    assert RemoveAt(s, k + 1) == [s[0]] + RemoveAt(t, k);
  }

  /** Toggling an absent id twice restores the list exactly. */
  lemma {:induction false} ToggleTwiceAbsent(s: seq<Uuid>, x: Uuid)
    requires x !in s
    ensures Toggle(Toggle(s, x), x) == s
  {
    var t := s + [x];
    assert t[..|s|] == s;
    assert IndexOf(t, x) == |s|;
  }

  /**
   * Toggling a present id twice keeps the same members but moves that id to
   * the end: toggling is not an involution on the order.
   */
  lemma {:induction false} ToggleTwicePresent(s: seq<Uuid>, x: Uuid)
    requires NoDup(s) && x in s
    ensures Toggle(Toggle(s, x), x) == Without(s, x) + [x]
  {
    RemoveFirstIsWithout(s, x);
  }

  /** Toggling keeps a list free of duplicates. */
  lemma {:induction false} ToggleNoDup(s: seq<Uuid>, x: Uuid)
    requires NoDup(s)
    ensures NoDup(Toggle(s, x))
  {
    if x in s {
      RemoveFirstIsWithout(s, x);
      WithoutNoDup(s, x);
    }
  }

  /** Removing one occurrence leaves `x` present exactly when it occurred more than once. */
  lemma {:induction false} ToggleMembership(s: seq<Uuid>, x: Uuid)
    ensures x in Toggle(s, x) <==> x !in s || Count(s, x) > 1
  {
    if x in s {
      var i := IndexOf(s, x);
      CountSplit(s, i);
      assert x !in s[..i];
      CountAppend(s[..i], s[i + 1..], x);
    }
  }

  /** Count over a concatenation. */
  lemma {:induction false} CountAppend(a: seq<Uuid>, b: seq<Uuid>, x: Uuid)
    ensures Count(a + b, x) == Count(a, x) + Count(b, x)
  {
    if a != [] {
      assert (a + b)[1..] == a[1..] + b;
      CountAppend(a[1..], b, x);
    } else {
      assert a + b == b;
    }
  }

  /** Count around position `i`. */
  lemma {:induction false} CountSplit(s: seq<Uuid>, i: nat)
    requires i < |s|
    ensures Count(s, s[i]) == Count(s[..i], s[i]) + 1 + Count(s[i + 1..], s[i])
  {
    var a, b, x := s[..i], s[i + 1..], s[i];
    assert s == a + ([x] + b);
    CountAppend(a, [x] + b, x);
    assert ([x] + b)[1..] == b;
  }

  /** `favorite`: append only when absent. */
  function AddIfAbsent(s: seq<Uuid>, x: Uuid): (r: seq<Uuid>)
    ensures x in r
    ensures NoDup(s) ==> NoDup(r)
    ensures x in s ==> r == s
    ensures x !in s ==> |r| == |s| + 1 && r[..|s|] == s
  {
    if x in s then s else s + [x]
  }

  /** `send_chat_to_top_of_sidebar`: remove every `x`, then push it to the front. */
  function SendToFront(s: seq<Uuid>, x: Uuid): seq<Uuid>
  {
    [x] + Without(s, x)
  }

  /**
   * After moving `x` to the front it occurs exactly once, at index 0, and the
   * other entries keep their original relative order.
   */
  lemma {:induction false} SendToFrontSpec(s: seq<Uuid>, x: Uuid)
    ensures |SendToFront(s, x)| > 0 && SendToFront(s, x)[0] == x
    ensures Count(SendToFront(s, x), x) == 1
    ensures SendToFront(s, x)[1..] == Without(s, x)
    ensures forall y :: y in SendToFront(s, x) <==> y in s || y == x
  {
    var r := SendToFront(s, x);
    assert r[1..] == Without(s, x);
  }

  /** Putting an absent element in front keeps a list free of duplicates. */
  lemma {:induction false} ConsNoDup(s: seq<Uuid>, x: Uuid)
    requires NoDup(s) && x !in s
    ensures NoDup([x] + s)
  {
    forall i, j | 0 <= i < j < |[x] + s| ensures ([x] + s)[i] != ([x] + s)[j] {
      if i == 0 { assert ([x] + s)[j] == s[j - 1]; }
    }
  }

  /** Moving to the front keeps a list free of duplicates. */
  lemma {:induction false} SendToFrontNoDup(s: seq<Uuid>, x: Uuid)
    requires NoDup(s)
    ensures NoDup(SendToFront(s, x))
  {
    WithoutNoDup(s, x);
    ConsNoDup(Without(s, x), x);
  }

  /** Moving to the front twice is the same as once. */
  lemma {:induction false} SendToFrontIdempotent(s: seq<Uuid>, x: Uuid)
    ensures SendToFront(SendToFront(s, x), x) == SendToFront(s, x)
  {
    var w := Without(s, x);
    assert ([x] + w)[1..] == w;
    WithoutAbsent(w, x);
  }

  /** `push_front` only when absent (`set_active_chat` without move-to-top). */
  function PushFrontIfAbsent(s: seq<Uuid>, x: Uuid): (r: seq<Uuid>)
    ensures x in r
    ensures x in s ==> r == s
    ensures x !in s ==> r == [x] + s
    ensures NoDup(s) ==> NoDup(r)
  {
    assert NoDup(s) && x !in s ==> NoDup([x] + s) by {
      if NoDup(s) && x !in s { ConsNoDup(s, x); }
    }
    if x in s then s else [x] + s
  }
}
