/**
 * Rust string operations the core relies on, over Dafny strings (sequences of
 * Unicode scalar values). Rust measures and slices a `str` in UTF-8 bytes, so
 * the byte length of every character is modelled explicitly; slicing at a
 * byte index that is not a character boundary panics.
 */
module Text {
  import opened Wrappers

  /** Bytes in the UTF-8 encoding of `c` (Rust `char::len_utf8`). */
  function Utf8Len(c: char): (n: nat)
    ensures 1 <= n <= 4
    ensures n == 1 <==> c as int < 0x80
  {
    if c as int < 0x80 then 1
    else if c as int < 0x800 then 2
    else if c as int < 0x10000 then 3
    else 4
  }

  /** Byte length of a string (Rust `str::len`). */
  function ByteLen(s: string): nat
  {
    if s == [] then 0 else Utf8Len(s[0]) + ByteLen(s[1..])
  }

  lemma {:induction false} ByteLenAppend(a: string, b: string)
    ensures ByteLen(a + b) == ByteLen(a) + ByteLen(b)
  {
    if a != [] {
      assert (a + b)[0] == a[0];
      assert (a + b)[1..] == a[1..] + b;
      ByteLenAppend(a[1..], b);
    } else {
      assert a + b == b;
    }
  }

  /** A longer prefix always has more bytes: byte offsets of prefixes are strictly increasing. */
  lemma {:induction false} ByteLenPrefixStrict(s: string, i: nat, j: nat)
    requires i < j <= |s|
    ensures ByteLen(s[..i]) + j - i <= ByteLen(s[..j])
  {
    assert s[..j] == s[..i] + s[i..j];
    ByteLenAppend(s[..i], s[i..j]);
    ByteLenAtLeastLength(s[i..j]);
  }

  lemma {:induction false} ByteLenAtLeastLength(s: string)
    ensures |s| <= ByteLen(s)
  {
    if s != [] { ByteLenAtLeastLength(s[1..]); }
  }

  lemma {:induction false} ByteLenPrefixMonotone(s: string, i: nat, j: nat)
    requires i <= j <= |s|
    ensures ByteLen(s[..i]) <= ByteLen(s[..j])
  {
    if i < j { ByteLenPrefixStrict(s, i, j); }
  }

  /**
   * The character index at which byte offset `n` of `s` falls on a character
   * boundary, if it does (Rust `str::is_char_boundary`).
   */
  function CharIndexAtByte(s: string, n: nat): (r: Option<nat>)
    ensures r.Some? ==> r.value <= |s| && ByteLen(s[..r.value]) == n
    ensures r.None? ==> forall k :: 0 <= k <= |s| ==> ByteLen(s[..k]) != n
  {
    if n == 0 then
      assert s[..0] == [];
      Some(0)
    else if s == [] then
      assert forall k :: 0 <= k <= |s| ==> s[..k] == [];
      None
    else if n < Utf8Len(s[0]) then
      assert forall k :: 1 <= k <= |s| ==> ByteLen(s[..k]) == Utf8Len(s[0]) + ByteLen(s[1..][..k - 1]) by {
        forall k | 1 <= k <= |s| ensures ByteLen(s[..k]) == Utf8Len(s[0]) + ByteLen(s[1..][..k - 1]) {
          assert s[..k][1..] == s[1..][..k - 1];
        }
      }
      assert s[..0] == [];
      None
    else
      var rest := CharIndexAtByte(s[1..], n - Utf8Len(s[0]));
      assert forall k :: 1 <= k <= |s| ==> ByteLen(s[..k]) == Utf8Len(s[0]) + ByteLen(s[1..][..k - 1]) by {
        forall k | 1 <= k <= |s| ensures ByteLen(s[..k]) == Utf8Len(s[0]) + ByteLen(s[1..][..k - 1]) {
          assert s[..k][1..] == s[1..][..k - 1];
        }
      }
      assert s[..0] == [];
      match rest
      case Some(k) => Some(k + 1)
      case None => None
  }

  /** A byte offset falls on at most one character index. */
  lemma {:induction false} CharIndexUnique(s: string, i: nat, j: nat)
    requires i <= |s| && j <= |s| && ByteLen(s[..i]) == ByteLen(s[..j])
    ensures i == j
  {
    if i < j { ByteLenPrefixStrict(s, i, j); }
    if j < i { ByteLenPrefixStrict(s, j, i); }
  }

  /**
   * The prefix filter as the source writes it:
   * `if name.len() < prefix.len() { false } else { &name[..prefix.len()] == prefix }`.
   * The slice panics when `prefix.len()` is not a character boundary of `name`.
   */
  function PrefixFilterAsWritten(name: string, prefix: string): Checked<bool>
  {
    if ByteLen(name) < ByteLen(prefix) then Returns(false)
    else match CharIndexAtByte(name, ByteLen(prefix))
      case None => Panics
      case Some(k) => Returns(name[..k] == prefix)
  }

  /** The corrected filter (Rust `name.starts_with(prefix)`): `prefix` is a prefix of `name`. */
  predicate MatchesPrefix(name: string, prefix: string)
  {
    prefix <= name
  }

  /** Whenever the written filter does not panic, it answers exactly "is `prefix` a prefix of `name`". */
  lemma {:induction false} PrefixFilterAgrees(name: string, prefix: string)
    ensures PrefixFilterAsWritten(name, prefix).Returns? ==>
              PrefixFilterAsWritten(name, prefix).value == MatchesPrefix(name, prefix)
  {
    if MatchesPrefix(name, prefix) {
      assert name[..|prefix|] == prefix;
      ByteLenPrefixMonotone(name, |prefix|, |name|);
      assert name[..|name|] == name;
      var r := CharIndexAtByte(name, ByteLen(prefix));
      if r.Some? { CharIndexUnique(name, r.value, |prefix|); }
    }
  }

  /** A name that really starts with the prefix is never rejected and never panics. */
  lemma {:induction false} PrefixFilterAcceptsPrefix(name: string, prefix: string)
    requires MatchesPrefix(name, prefix)
    ensures PrefixFilterAsWritten(name, prefix) == Returns(true)
  {
    assert name[..|prefix|] == prefix;
    ByteLenPrefixMonotone(name, |prefix|, |name|);
    assert name[..|name|] == name;
    var r := CharIndexAtByte(name, ByteLen(prefix));
    assert ByteLen(name[..|prefix|]) == ByteLen(prefix);
    CharIndexUnique(name, r.value, |prefix|);
  }

  /** The written filter panics on a username whose first character takes two bytes and a one-byte prefix. */
  lemma {:induction false} PrefixFilterPanicsMidCharacter()
    ensures PrefixFilterAsWritten("\U{E9}", "a") == Panics
    ensures !MatchesPrefix("\U{E9}", "a")
  {
    assert ByteLen("a") == 1;
    assert ByteLen("\U{E9}") == 2;
  }

  /** The longest prefix of whole characters of `s` that fits in `n` bytes. */
  function FloorCharPrefix(s: string, n: nat): (r: string)
    ensures r <= s && ByteLen(r) <= n
    ensures |r| < |s| ==> n < ByteLen(s[..|r| + 1])
  {
    if s == [] || n < Utf8Len(s[0]) then
      assert s != [] ==> s[..1] == [s[0]];
      []
    else
      var rest := FloorCharPrefix(s[1..], n - Utf8Len(s[0]));
      assert ([s[0]] + rest)[1..] == rest;
      assert |rest| < |s| - 1 ==> ([s[0]] + s[1..][..|rest| + 1]) == s[..|rest| + 2] && ([s[0]] + s[1..][..|rest| + 1])[1..] == s[1..][..|rest| + 1];
      [s[0]] + rest
  }

  /** Rust `str::is_char_boundary` applied to the prefix found by FloorCharPrefix. */
  lemma {:induction false} FloorCharPrefixExact(s: string, n: nat, k: nat)
    requires k <= |s| && ByteLen(s[..k]) == n
    ensures FloorCharPrefix(s, n) == s[..k]
  {
    var r := FloorCharPrefix(s, n);
    assert s[..|r|] == r;
    if |r| < k {
      ByteLenPrefixMonotone(s, |r| + 1, k);
    } else if |r| > k {
      ByteLenPrefixStrict(s, k, |r|);
    }
  }

  /** `parts.join(sep)`. */
  function Join(parts: seq<string>, sep: string): string
  {
    if parts == [] then ""
    else if |parts| == 1 then parts[0]
    else parts[0] + sep + Join(parts[1..], sep)
  }

  /** Joining one more part adds the separator and the part at the end. */
  lemma {:induction false} JoinSnoc(parts: seq<string>, x: string, sep: string)
    requires parts != []
    ensures Join(parts + [x], sep) == Join(parts, sep) + sep + x
  {
    if |parts| == 1 {
      assert (parts + [x])[1..] == [x];
    } else {
      assert (parts + [x])[1..] == parts[1..] + [x];
      JoinSnoc(parts[1..], x, sep);
    }
  }

  /** Decimal digit character of `d`. */
  function DigitChar(d: nat): (c: char)
    requires d < 10
    ensures '0' <= c <= '9' && (c as int) - ('0' as int) == d
  {
    (d + '0' as int) as char
  }

  /** `n.to_string()` for an unsigned integer: its decimal digits, most significant first. */
  function Decimal(n: nat): (s: string)
    ensures s != []
    ensures forall i :: 0 <= i < |s| ==> '0' <= s[i] <= '9'
    ensures n > 0 ==> s[0] != '0'
  {
    if n < 10 then [DigitChar(n)] else Decimal(n / 10) + [DigitChar(n % 10)]
  }

  /** The number a string of decimal digits denotes. */
  function DecimalValue(s: string): nat
    requires forall i :: 0 <= i < |s| ==> '0' <= s[i] <= '9'
  {
    if s == [] then 0
    else 10 * DecimalValue(s[..|s| - 1]) + ((s[|s| - 1] as int) - ('0' as int))
  }

  /** Reading back the decimal rendering of `n` gives `n`. */
  lemma {:induction false} DecimalRoundTrip(n: nat)
    ensures DecimalValue(Decimal(n)) == n
  {
    var s := Decimal(n);
    if n >= 10 {
      DecimalRoundTrip(n / 10);
      assert s[..|s| - 1] == Decimal(n / 10);
    }
  }

  /** Rust `char::is_whitespace`: the Unicode White_Space property. */
  predicate IsWhitespace(c: char)
  {
    || ('\U{9}' <= c <= '\U{D}')
    || c == '\U{20}'
    || c == '\U{85}'
    || c == '\U{A0}'
    || c == '\U{1680}'
    || ('\U{2000}' <= c <= '\U{200A}')
    || c == '\U{2028}'
    || c == '\U{2029}'
    || c == '\U{202F}'
    || c == '\U{205F}'
    || c == '\U{3000}'
  }

  /** `s.chars().all(char::is_whitespace)`; true of the empty string. */
  predicate AllWhitespace(s: string)
  {
    forall i :: 0 <= i < |s| ==> IsWhitespace(s[i])
  }

  /** `sub` occurs in `s` starting at character index `i`. */
  predicate OccursAt(s: string, sub: string, i: nat)
  {
    i + |sub| <= |s| && s[i..i + |sub|] == sub
  }

  /** `s.contains(sub)`, scanning every start index from `from` on. */
  function ContainsFrom(s: string, sub: string, from: nat): (b: bool)
    requires from <= |s|
    ensures b <==> exists i: nat :: from <= i && OccursAt(s, sub, i)
    decreases |s| - from
  {
    if from + |sub| > |s| then false
    else if OccursAt(s, sub, from) then true
    else ContainsFrom(s, sub, from + 1)
  }

  /** `s.contains(sub)`. */
  function Contains(s: string, sub: string): (b: bool)
    ensures b <==> exists i: nat :: OccursAt(s, sub, i)
  {
    ContainsFrom(s, sub, 0)
  }
}
