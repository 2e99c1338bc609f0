/**
 * `get_friends_by_first_letter`: the friends list of the friends page,
 * bucketed by the ASCII-lower-cased first character of each username, each
 * bucket sorted by username and then by DID.
 */
module FriendDirectory {
  import opened Wrappers
  import opened Entities

  /** `char::to_ascii_lowercase`: only 'A'..'Z' change. */
  function AsciiLower(c: char): (r: char)
    ensures 'A' <= c <= 'Z' ==> r as int == c as int + 32
    ensures !('A' <= c <= 'Z') ==> r == c
  {
    if 'A' <= c <= 'Z' then (c as int + 32) as char else c
  }

  /** The bucket of a non-empty username. */
  function Letter(username: string): char
    requires username != ""
  {
    AsciiLower(username[0])
  }

  /**
   * `String`'s ordering: lexicographic by character. (UTF-8 byte order and
   * code point order agree, so comparing characters is comparing bytes.)
   */
  predicate StrLe(a: string, b: string)
  {
    if a == [] then true
    else if b == [] then false
    else if a[0] != b[0] then a[0] < b[0]
    else StrLe(a[1..], b[1..])
  }

  lemma {:induction false} StrLeTotal(a: string, b: string)
    ensures StrLe(a, b) || StrLe(b, a)
  {
    if a != [] && b != [] && a[0] == b[0] {
      StrLeTotal(a[1..], b[1..]);
    }
  }

  lemma {:induction false} StrLeAntisymmetric(a: string, b: string)
    requires StrLe(a, b) && StrLe(b, a)
    ensures a == b
  {
    if a != [] && b != [] {
      StrLeAntisymmetric(a[1..], b[1..]);
      assert a == [a[0]] + a[1..] && b == [b[0]] + b[1..];
    }
  }

  lemma {:induction false} StrLeTransitive(a: string, b: string, c: string)
    requires StrLe(a, b) && StrLe(b, c)
    ensures StrLe(a, c)
  {
    if a != [] && b != [] && c != [] && a[0] == b[0] && b[0] == c[0] {
      StrLeTransitive(a[1..], b[1..], c[1..]);
    }
  }

  /** The comparator of the sort: username first, then DID. */
  predicate KeyLe(x: Identity, y: Identity)
  {
    if x.username != y.username then StrLe(x.username, y.username) else StrLe(x.did, y.did)
  }

  lemma {:induction false} KeyLeTotal(x: Identity, y: Identity)
    ensures KeyLe(x, y) || KeyLe(y, x)
  {
    StrLeTotal(x.username, y.username);
    StrLeTotal(x.did, y.did);
  }

  lemma {:induction false} KeyLeTransitive(x: Identity, y: Identity, z: Identity)
    requires KeyLe(x, y) && KeyLe(y, z)
    ensures KeyLe(x, z)
  {
    if x.username == y.username && y.username == z.username {
      StrLeTransitive(x.did, y.did, z.did);
    } else if x.username == y.username || y.username == z.username {
    } else if x.username == z.username {
      StrLeAntisymmetric(x.username, y.username);
    } else {
      StrLeTransitive(x.username, y.username, z.username);
    }
  }

  predicate Sorted(s: seq<Identity>)
  {
    forall i, j :: 0 <= i < j < |s| ==> KeyLe(s[i], s[j])
  }

  /** A sorted list's tail is sorted and sorts after its head. */
  lemma {:induction false} SortedTail(s: seq<Identity>)
    requires Sorted(s) && s != []
    ensures Sorted(s[1..]) && forall i :: i in s[1..] ==> KeyLe(s[0], i)
  {
    forall i | i in s[1..] ensures KeyLe(s[0], i) {
      var k :| 0 <= k < |s[1..]| && s[1..][k] == i;
      assert s[k + 1] == i;
    }
  }

  /** A head that sorts before every element of a sorted tail makes a sorted list. */
  lemma {:induction false} SortedCons(x: Identity, t: seq<Identity>)
    requires Sorted(t) && forall i :: i in t ==> KeyLe(x, i)
    ensures Sorted([x] + t)
  {
    forall i, j | 0 <= i < j < |[x] + t| ensures KeyLe(([x] + t)[i], ([x] + t)[j]) {
      if i == 0 {
        assert ([x] + t)[j] == t[j - 1];
        assert t[j - 1] in t;
      } else {
        assert ([x] + t)[i] == t[i - 1] && ([x] + t)[j] == t[j - 1];
      }
    }
  }

  /** `x` placed after every element that does not sort strictly after it. */
  function Insert(s: seq<Identity>, x: Identity): (r: seq<Identity>)
    requires Sorted(s)
    ensures Sorted(r)
    ensures forall y :: y in r <==> y in s || y == x
    ensures multiset(r) == multiset(s) + multiset{x}
  {
    if s == [] then [x]
    else
      var head := s[0];
      assert s == [head] + s[1..];
      SortedTail(s);
      if KeyLe(head, x) then
        var rest := Insert(s[1..], x);
        SortedCons(head, rest);
        [head] + rest
      else
        KeyLeTotal(head, x);
        assert forall i :: i in s ==> KeyLe(x, i) by {
          forall i | i in s ensures KeyLe(x, i) {
            if i != head { KeyLeTransitive(x, head, i); }
          }
        }
        SortedCons(x, s);
        [x] + s
  }

  /** `list.sort_by(username, then DID)`: the list in comparator order, same elements. */
  function Sort(s: seq<Identity>): (r: seq<Identity>)
    ensures Sorted(r)
    ensures multiset(r) == multiset(s)
  {
    if s == [] then []
    else
      assert s == s[..|s| - 1] + [s[|s| - 1]];
      Insert(Sort(s[..|s| - 1]), s[|s| - 1])
  }

  /** The DIDs among `done` whose username falls into bucket `c`. */
  ghost function Bucket(friends: map<Did, Identity>, done: set<Did>, c: char): set<Did>
    requires forall d :: d in done ==> d in friends && friends[d].username != ""
  {
    set d | d in done && Letter(friends[d].username) == c
  }

  /** The identities of those DIDs. */
  ghost function BucketIdentities(friends: map<Did, Identity>, done: set<Did>, c: char): set<Identity>
    requires forall d :: d in done ==> d in friends && friends[d].username != ""
  {
    set d | d in Bucket(friends, done, c) :: friends[d]
  }

  /** One more friend visited adds it to its own bucket only. */
  lemma {:induction false} BucketStep(friends: map<Did, Identity>, done: set<Did>, d: Did, c: char)
    requires forall e :: e in done ==> e in friends && friends[e].username != ""
    requires d in friends && friends[d].username != "" && d !in done
    ensures Letter(friends[d].username) == c ==>
              && Bucket(friends, done + {d}, c) == Bucket(friends, done, c) + {d}
              && |Bucket(friends, done + {d}, c)| == |Bucket(friends, done, c)| + 1
              && BucketIdentities(friends, done + {d}, c) == BucketIdentities(friends, done, c) + {friends[d]}
    ensures Letter(friends[d].username) != c ==>
              && Bucket(friends, done + {d}, c) == Bucket(friends, done, c)
              && BucketIdentities(friends, done + {d}, c) == BucketIdentities(friends, done, c)
  {
  }

  /** `buckets` holds exactly the friends of `done`, each under its letter, as many entries as friends. */
  ghost predicate BucketsFor(friends: map<Did, Identity>, done: set<Did>, buckets: map<char, seq<Identity>>)
  {
    && (forall d :: d in done ==> d in friends && friends[d].username != "" && Letter(friends[d].username) in buckets)
    && (forall c :: c in buckets ==>
          && |buckets[c]| > 0
          && (forall i :: i in buckets[c] <==> i in BucketIdentities(friends, done, c))
          && |buckets[c]| == |Bucket(friends, done, c)|)
    && (forall c :: c !in buckets ==> Bucket(friends, done, c) == {})
  }

  /** Pushing one more friend onto the end of its letter's bucket (`entry(..).or_insert_with(..).push(..)`). */
  lemma {:induction false} PushKeepsBuckets(friends: map<Did, Identity>, done: set<Did>, buckets: map<char, seq<Identity>>, d: Did)
    requires BucketsFor(friends, done, buckets)
    requires d in friends && d !in done && friends[d].username != ""
    ensures var c := Letter(friends[d].username);
            var list := if c in buckets then buckets[c] else [];
            BucketsFor(friends, done + {d}, buckets[c := list + [friends[d]]])
  {
    var letter := Letter(friends[d].username);
    var list := if letter in buckets then buckets[letter] else [];
    var next := buckets[letter := list + [friends[d]]];
    forall c ensures
      && (c in next ==>
            && |next[c]| > 0
            && (forall i :: i in next[c] <==> i in BucketIdentities(friends, done + {d}, c))
            && |next[c]| == |Bucket(friends, done + {d}, c)|)
      && (c !in next ==> Bucket(friends, done + {d}, c) == {})
    {
      BucketStep(friends, done, d, c);
      if c == letter {
        PushedBucket(friends, done, buckets, d, list);
      } else {
        assert c in next <==> c in buckets;
        assert c in next ==> next[c] == buckets[c];
      }
    }
  }

  /** The bucket that receives the pushed friend holds exactly its letter's friends afterwards. */
  lemma {:induction false} PushedBucket(friends: map<Did, Identity>, done: set<Did>, buckets: map<char, seq<Identity>>, d: Did, list: seq<Identity>)
    requires BucketsFor(friends, done, buckets)
    requires d in friends && d !in done && friends[d].username != ""
    requires list == if Letter(friends[d].username) in buckets then buckets[Letter(friends[d].username)] else []
    ensures var c := Letter(friends[d].username);
            && (forall i :: i in list + [friends[d]] <==> i in BucketIdentities(friends, done + {d}, c))
            && |list + [friends[d]]| == |Bucket(friends, done + {d}, c)|
  {
    var c := Letter(friends[d].username);
    BucketStep(friends, done, d, c);
    assert forall i :: i in list <==> i in BucketIdentities(friends, done, c);
    assert |list| == |Bucket(friends, done, c)|;
  }

  /**
   * `get_friends_by_first_letter(friends)`: panics (`expect`) when some friend
   * has an empty username; otherwise one sorted bucket per first letter
   * present, holding exactly the friends of that letter, as many entries as
   * there are such friends.
   */
  method FriendsByFirstLetter(friends: map<Did, Identity>) returns (r: Checked<map<char, seq<Identity>>>)
    ensures r.Panics? <==> HasUnnamedFriend(friends)
    ensures r.Returns? ==> GroupedByLetter(friends, r.value)
  {
    var buckets := BucketByLetter(friends);
    if buckets.Panics? {
      return Panics;
    }
    var sorted := SortBuckets(buckets.value);
    SortedBucketsFor(friends, buckets.value, sorted);
    return Returns(sorted);
  }

  /** The first loop of `get_friends_by_first_letter`: each friend pushed onto its letter's bucket, unsorted. */
  method BucketByLetter(friends: map<Did, Identity>) returns (r: Checked<map<char, seq<Identity>>>)
    ensures r.Panics? <==> HasUnnamedFriend(friends)
    ensures r.Returns? ==> BucketsFor(friends, friends.Keys, r.value)
  {
    var buckets: map<char, seq<Identity>> := map[];
    var todo := friends.Keys;
    ghost var done: set<Did> := {};
    while todo != {}
      invariant todo <= friends.Keys && done == friends.Keys - todo
      invariant BucketsFor(friends, done, buckets)
      decreases todo
    {
      var d :| d in todo;
      var friend := friends[d];
      if friend.username == "" {
        assert d in friends && friends[d].username == "";
        return Panics;
      }
      var firstLetter := Letter(friend.username);
      var list := if firstLetter in buckets then buckets[firstLetter] else [];
      PushKeepsBuckets(friends, done, buckets, d);
      buckets := buckets[firstLetter := list + [friend]];
      todo := todo - {d};
      done := done + {d};
    }
    assert done == friends.Keys;
    return Returns(buckets);
  }

  /** Some friend has an empty username, whose first letter the grouping cannot take. */
  predicate HasUnnamedFriend(friends: map<Did, Identity>)
  {
    exists d :: d in friends && friends[d].username == ""
  }

  /** Sorting every bucket of a complete bucketing keeps it complete and makes each bucket sorted. */
  lemma {:induction false} SortedBucketsFor(friends: map<Did, Identity>, buckets: map<char, seq<Identity>>, sorted: map<char, seq<Identity>>)
    requires BucketsFor(friends, friends.Keys, buckets)
    requires sorted.Keys == buckets.Keys
    requires forall c :: c in sorted ==> Sorted(sorted[c])
    requires forall c :: c in sorted ==> |sorted[c]| == |buckets[c]| && forall i :: i in sorted[c] <==> i in buckets[c]
    ensures !HasUnnamedFriend(friends)
    ensures GroupedByLetter(friends, sorted)
  {
  }

  /**
   * Every friend has a non-empty username and a bucket under its first
   * letter; each bucket is non-empty, sorted and holds exactly the friends of its
   * letter, once each.
   */
  ghost predicate GroupedByLetter(friends: map<Did, Identity>, groups: map<char, seq<Identity>>)
  {
    && (forall d :: d in friends ==> friends[d].username != "" && Letter(friends[d].username) in groups)
    && forall c :: c in groups ==>
         && |groups[c]| > 0
         && Sorted(groups[c])
         && (forall i :: i in groups[c] <==> i in BucketIdentities(friends, friends.Keys, c))
         && |groups[c]| == |Bucket(friends, friends.Keys, c)|
  }

  /** The loop over the buckets that sorts each one in place. */
  method SortBuckets(buckets: map<char, seq<Identity>>) returns (r: map<char, seq<Identity>>)
    ensures r.Keys == buckets.Keys
    ensures forall c :: c in r ==> Sorted(r[c]) && multiset(r[c]) == multiset(buckets[c])
    ensures forall c :: c in r ==> |r[c]| == |buckets[c]| && forall i :: i in r[c] <==> i in buckets[c]
  {
    r := buckets;
    var todo := buckets.Keys;
    while todo != {}
      invariant todo <= buckets.Keys && r.Keys == buckets.Keys
      invariant forall c :: c in r && c !in todo ==> Sorted(r[c])
      invariant forall c :: c in r ==> multiset(r[c]) == multiset(buckets[c])
      decreases todo
    {
      var c :| c in todo;
      r := r[c := Sort(r[c])];
      todo := todo - {c};
    }
    forall c | c in r
      ensures |r[c]| == |buckets[c]| && forall i :: i in r[c] <==> i in buckets[c]
    {
      assert |multiset(r[c])| == |multiset(buckets[c])|;
      forall i ensures i in r[c] <==> i in buckets[c] {
        assert i in r[c] <==> i in multiset(r[c]);
        assert i in buckets[c] <==> i in multiset(buckets[c]);
      }
    }
  }
}
