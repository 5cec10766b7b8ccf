/** Letters of a word: case, permutations, and whether a word can be rearranged at all. */
module Letters {

  /** Upper case of one character (ASCII letters only). */
  function UpperChar(c: char): (u: char)
    ensures 'a' <= c <= 'z' ==> 'A' <= u <= 'Z' && u as int - c as int == 'A' as int - 'a' as int
    ensures !('a' <= c <= 'z') ==> u == c
  {
    if 'a' <= c <= 'z' then (c as int - 'a' as int + 'A' as int) as char else c
  }

  /**
   * Upper case of a string, as the game applies to every word and every
   * input: no lower-case letter is left, and a string without lower-case
   * letters stays as it is.
   */
  function Upper(s: string): (u: string)
    ensures |u| == |s|
    ensures forall k :: 0 <= k < |s| ==> u[k] == UpperChar(s[k])
    ensures forall k :: 0 <= k < |u| ==> !('a' <= u[k] <= 'z')
    ensures (forall k :: 0 <= k < |s| ==> !('a' <= s[k] <= 'z')) ==> u == s
  {
    seq(|s|, k requires 0 <= k < |s| => UpperChar(s[k]))
  }

  /** `a` holds the same letters as `b`, each as often. */
  predicate IsPermutation(a: string, b: string) {
    multiset(a) == multiset(b)
  }

  /** `w` has at least two different letters, so some rearrangement of it differs from it. */
  predicate HasTwoDistinct(w: string) {
    |w| > 0 && exists k :: 0 <= k < |w| && w[k] != w[0]
  }

  /** A rearrangement of a word whose letters are all equal is the word itself. */
  lemma OnlyPermutationIsItself(w: string, t: string)
    requires !HasTwoDistinct(w)
    requires IsPermutation(t, w)
    ensures t == w
  {
    assert |t| == |multiset(t)| == |multiset(w)| == |w|;
    forall k | 0 <= k < |t| ensures t[k] == w[k] {
      assert t[k] in multiset(t);
      assert t[k] in multiset(w);
      var j :| 0 <= j < |w| && w[j] == t[k];
    }
  }

  /** A word with two different letters has a rearrangement other than itself: swap them. */
  lemma SwapDiffers(w: string) returns (t: string)
    requires HasTwoDistinct(w)
    ensures IsPermutation(t, w) && t != w
  {
    var k :| 0 <= k < |w| && w[k] != w[0];
    t := w[0 := w[k]][k := w[0]];
    assert t[0] != w[0];
  }
}
