/**
 * Scrambling a word and building a hint (ScrambledWords.scramble and
 * ScrambledWords.create_hint). Both shuffle the letters again and again until
 * the result differs from the original. The shuffle is random, so the model
 * picks nondeterministically one of the outcomes with which the retry loop can
 * exit: a rearrangement of the letters that differs from the original.
 */
module Scrambler {
  import opened Letters
  import opened Settings

  /**
   * The exit condition of a shuffle-until-different loop over `w` can ever
   * become true: some shuffle of `w` differs from `w`. When it cannot, the
   * loop as written never ends.
   */
  ghost predicate ShuffleLoopCanExit(w: string) {
    exists t :: IsPermutation(t, w) && t != w
  }

  /** The loop can exit exactly when the word has two different letters. */
  lemma ShuffleLoopCanExitIff(w: string)
    ensures ShuffleLoopCanExit(w) <==> HasTwoDistinct(w)
  {
    if HasTwoDistinct(w) {
      var t := SwapDiffers(w);
    } else if ShuffleLoopCanExit(w) {
      var t :| IsPermutation(t, w) && t != w;
      OnlyPermutationIsItself(w, t);
    }
  }

  /** Scrambling a one-letter word, or the empty word of a blank line, never ends. */
  lemma ScrambleOfSingleLetterNeverEnds()
    ensures !ShuffleLoopCanExit("I") && !ShuffleLoopCanExit("")
  {
    ShuffleLoopCanExitIff("I");
    ShuffleLoopCanExitIff("");
  }

  /**
   * A hint for "GRASS" passes the caller's length test (more than 4 letters)
   * but its suffix "SS" has no other arrangement, so create_hint never ends.
   */
  lemma HintForGrassNeverEnds()
    ensures |"GRASS"| > 4
    ensures !ShuffleLoopCanExit("GRASS"[HINT_PREFIX..])
  {
    assert "GRASS"[HINT_PREFIX..] == "SS";
    ShuffleLoopCanExitIff("SS");
  }

  /**
   * `s` scrambles `word`: the same letters, and different from the word
   * whenever the word has two different letters.
   */
  predicate IsScramble(s: string, word: string) {
    IsPermutation(s, word) && (s != word <==> HasTwoDistinct(word))
  }

  /**
   * One word's scramble: a rearrangement of its letters that differs from it
   * whenever one exists; a word without two different letters, on which the
   * source's loop never ends, is returned unchanged.
   */
  method ScrambleWord(word: string) returns (s: string)
    ensures IsScramble(s, word)
  {
    s := word;
    if HasTwoDistinct(word) {
      var t := SwapDiffers(word);
      s :| IsPermutation(s, word) && s != word;
    }
  }

  /** The scrambled word list: one scramble per word, in the same order. */
  method Scramble(words: seq<string>) returns (scrambled: seq<string>)
    ensures |scrambled| == |words|
    ensures forall k :: 0 <= k < |words| ==> IsScramble(scrambled[k], words[k])
  {
    scrambled := [];
    for k := 0 to |words|
      invariant |scrambled| == k
      invariant forall j :: 0 <= j < k ==> IsScramble(scrambled[j], words[j])
    {
      var s := ScrambleWord(words[k]);
      scrambled := scrambled + [s];
    }
  }

  /** Length of the kept prefix: three letters, or the whole word if shorter. */
  function PrefixLength(word: string): (p: nat)
    ensures p <= |word| && p <= HINT_PREFIX
    ensures p < HINT_PREFIX ==> p == |word|
  {
    if |word| < HINT_PREFIX then |word| else HINT_PREFIX
  }

  /**
   * `h` is a hint for `word`: as long as the word, its first three letters
   * in place, and the rest a scramble of the word's rest.
   */
  predicate IsHint(h: string, word: string) {
    var p := PrefixLength(word);
    |h| == |word| && h[..p] == word[..p] && IsScramble(h[p..], word[p..])
  }

  /**
   * A hint: the first three letters of the word in place, the rest
   * rearranged so that it differs from the word's own rest whenever that is
   * possible; a rest without two different letters (where the source's loop
   * never ends) stays as it is.
   */
  method CreateHint(word: string) returns (h: string)
    ensures IsHint(h, word)
  {
    var p := PrefixLength(word);
    var rest := ScrambleWord(word[p..]);
    h := word[..p] + rest;
    assert |rest| == |multiset(rest)| == |multiset(word[p..])| == |word| - p;
    assert h[..p] == word[..p] && h[p..] == rest;
  }
}
