/**
 The few JavaScript string operations the service worker relies on, over
 `string` (a sequence of UTF-16 code units is modelled as a sequence of chars).
 */
module Strings {

  /** `p` occurs in `s` starting at index `i`. */
  predicate OccursAt(s: string, p: string, i: nat)
  {
    i + |p| <= |s| && s[i..i + |p|] == p
  }

  /** JavaScript's `s.startsWith(p)`. */
  predicate StartsWith(s: string, p: string)
  {
    OccursAt(s, p, 0)
  }

  /** JavaScript's `s.substring(n)` for a non-negative `n`: the characters
      from index `n` on, or the empty string once `n` passes the end. */
  function Substring(s: string, n: nat): (r: string)
    ensures n <= |s| ==> s == s[..n] + r
    ensures |s| <= n ==> r == ""
  {
    if n <= |s| then s[n..] else ""
  }

  /** JavaScript's `s.indexOf(p, from)` for a non-empty `p`: the first index
      at or after `from` where `p` occurs, or -1 when there is none. */
  function IndexFrom(s: string, p: string, from: nat): (i: int)
    ensures i == -1 || (from <= i && OccursAt(s, p, i))
    ensures forall j: nat :: from <= j && (i == -1 || j < i) ==> !OccursAt(s, p, j)
    decreases |s| - from
  {
    if |s| < from + |p| then -1
    else if OccursAt(s, p, from) then from
    else IndexFrom(s, p, from + 1)
  }

  /** JavaScript's `s.indexOf(p)`. */
  function IndexOf(s: string, p: string): (i: int)
    ensures i == -1 <==> forall j: nat :: !OccursAt(s, p, j)
    ensures i != -1 ==> 0 <= i && OccursAt(s, p, i)
    ensures i != -1 ==> forall j: nat :: j < i ==> !OccursAt(s, p, j)
  {
    IndexFrom(s, p, 0)
  }

  /** The first occurrence is unique: any occurrence with none before it is
      the one `IndexOf` reports. */
  lemma IndexOfIsFirst(s: string, p: string, i: nat)
    requires OccursAt(s, p, i)
    requires forall j: nat :: j < i ==> !OccursAt(s, p, j)
    ensures IndexOf(s, p) == i
  {
  }

  /** Occurrences inside a prefix are occurrences in the whole string. */
  lemma OccursInPrefix(s: string, n: nat, p: string, j: nat)
    requires n <= |s|
    requires OccursAt(s[..n], p, j)
    ensures OccursAt(s, p, j)
  {
  }

  /** Occurrences that end inside `a` are the same in `a + b`. */
  lemma OccursInConcat(a: string, b: string, p: string, j: nat)
    requires j + |p| <= |a|
    ensures OccursAt(a + b, p, j) <==> OccursAt(a, p, j)
  {
  }
}
