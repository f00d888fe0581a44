/**
 * The string operations of Go's `strings` package that the runtime core relies on:
 * `strings.Index` (used by `after`) and `strings.Contains` (used by every caller that
 * tells a missing resource apart from other failures).
 */
module Text {

  /** `sub` occurs in `s` starting at position `k`. */
  predicate OccursAt(s: string, sub: string, k: int)
  {
    0 <= k && k + |sub| <= |s| && s[k..k + |sub|] == sub
  }

  /** `strings.Contains(s, sub)`. */
  predicate Contains(s: string, sub: string)
  {
    exists k :: 0 <= k <= |s| - |sub| && OccursAt(s, sub, k)
  }

  /** An occurrence in `t` is an occurrence in `s + t`, |s| positions further on. */
  lemma ContainsSuffix(s: string, t: string, sub: string)
    ensures Contains(t, sub) ==> Contains(s + t, sub)
  {
    if Contains(t, sub) {
      var k :| 0 <= k <= |t| - |sub| && OccursAt(t, sub, k);
      assert (s + t)[|s| + k..|s| + k + |sub|] == t[k..k + |sub|];
      assert OccursAt(s + t, sub, |s| + k);
    }
  }

  predicate IsPrefix(p: string, s: string)
  {
    |p| <= |s| && s[..|p|] == p
  }

  /** The first occurrence of `sub` in `s` at or after `from`, or -1. */
  function IndexFrom(s: string, sub: string, from: nat): (i: int)
    requires from <= |s| + 1
    ensures i == -1 <==> forall k :: from <= k ==> !OccursAt(s, sub, k)
    ensures i != -1 ==> from <= i && OccursAt(s, sub, i)
    ensures i != -1 ==> forall k :: from <= k < i ==> !OccursAt(s, sub, k)
    decreases |s| + 1 - from
  {
    if from + |sub| > |s| then -1
    else if s[from..from + |sub|] == sub then assert OccursAt(s, sub, from); from
    else IndexFrom(s, sub, from + 1)
  }

  /** `strings.Index(s, sub)`: the position of the first occurrence of `sub`, or -1. */
  function Index(s: string, sub: string): (i: int)
    ensures i == -1 <==> !Contains(s, sub)
    ensures i != -1 ==> OccursAt(s, sub, i) && forall k :: 0 <= k < i ==> !OccursAt(s, sub, k)
  {
    IndexFrom(s, sub, 0)
  }
}
