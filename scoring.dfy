/**
 * Scoring (the computation in ScrambledWords.show_score). A level time is a
 * number of tenths of a second; 0 means the level was not solved. Levels are
 * indexed from 0 here, so level i is worth (i + 1) * 10 points.
 */
module Scoring {
  import opened Settings

  /** Points for the level at index `i` solved in time `t`. */
  function LevelPoints(i: nat, t: nat): (p: nat)
    ensures p == 0 || p == (i + 1) * 10
    ensures p == 0 <==> t == 0
  {
    if t != 0 then (i + 1) * 10 else 0
  }

  /** Bonus for the level at index `i`: as much again when solved within the time limit. */
  function Bonus(i: nat, t: nat): (b: nat)
    ensures b == 0 || b == LevelPoints(i, t)
    ensures b != 0 <==> 0 < t <= TIME_LIMIT
  {
    if t != 0 && t <= TIME_LIMIT then (i + 1) * 10 else 0
  }

  /** The `points` list: one entry per level. */
  function Points(times: seq<nat>): (p: seq<nat>)
    ensures |p| == |times|
  {
    seq(|times|, i requires 0 <= i < |times| => LevelPoints(i, times[i]))
  }

  /** The `bonus` list: one entry per level. */
  function Bonuses(times: seq<nat>): (b: seq<nat>)
    ensures |b| == |times|
  {
    seq(|times|, i requires 0 <= i < |times| => Bonus(i, times[i]))
  }

  predicate AllZero(s: seq<nat>) {
    forall k :: 0 <= k < |s| ==> s[k] == 0
  }

  function Sum(s: seq<nat>): nat {
    if s == [] then 0 else Sum(s[..|s| - 1]) + s[|s| - 1]
  }

  /** The total score: all level points plus all bonuses. */
  function Total(times: seq<nat>): (r: nat)
    ensures AllZero(times) ==> r == 0
  {
    UnsolvedLevelsEarnNothing(times);
    Sum(Points(times)) + Sum(Bonuses(times))
  }

  lemma {:induction false} SumOfZeros(s: seq<nat>)
    requires AllZero(s)
    ensures Sum(s) == 0
  {
    if s != [] {
      SumOfZeros(s[..|s| - 1]);
    }
  }

  lemma UnsolvedLevelsEarnNothing(times: seq<nat>)
    ensures AllZero(times) ==> Sum(Points(times)) == 0 && Sum(Bonuses(times)) == 0
  {
    if AllZero(times) {
      SumOfZeros(Points(times));
      SumOfZeros(Bonuses(times));
    }
  }

  /** The largest total a game of `n` levels can reach: 20 points per level number. */
  function MaxTotal(n: nat): nat {
    10 * n * (n + 1)
  }

  /** A game is perfect when every level was solved within the time limit. */
  predicate Perfect(times: seq<nat>) {
    forall i :: 0 <= i < |times| ==> 0 < times[i] <= TIME_LIMIT
  }

  /** One more level adds exactly that level's points and bonus to the total. */
  lemma {:induction false} TotalSnoc(times: seq<nat>, t: nat)
    ensures Total(times + [t]) == Total(times) + LevelPoints(|times|, t) + Bonus(|times|, t)
  {
    var n := |times|;
    var ts := times + [t];
    assert Points(ts)[..n] == Points(times);
    assert Bonuses(ts)[..n] == Bonuses(times);
  }

  /** The example of three levels [3.2 s, unsolved, 8.0 s] with a 10 s limit totals 80. */
  lemma TotalExample()
    ensures Points([32, 0, 80]) == [10, 0, 30]
    ensures Bonuses([32, 0, 80]) == [10, 0, 30]
    ensures Total([32, 0, 80]) == 80
  {
    var times: seq<nat> := [32, 0, 80];
    assert Points(times) == [10, 0, 30] by {
      assert Points(times)[0] == 10 && Points(times)[1] == 0 && Points(times)[2] == 30;
    }
    assert Bonuses(times) == [10, 0, 30] by {
      assert Bonuses(times)[0] == 10 && Bonuses(times)[1] == 0 && Bonuses(times)[2] == 30;
    }
    var s: seq<nat> := [10, 0, 30];
    var s1: seq<nat>, s2: seq<nat> := [10], [10, 0];
    assert s1[..0] == [] && s2[..1] == s1 && s[..2] == s2;
    assert Sum(s1) == 10;
    assert Sum(s2) == 10;
    assert Sum(s) == 40;
  }

  /** Two levels both solved within the limit total 10 + 10 + 20 + 20 = 60. */
  lemma TwoFastLevels(a: nat, b: nat)
    requires 0 < a <= TIME_LIMIT && 0 < b <= TIME_LIMIT
    ensures Total([a, b]) == 60
  {
    TotalAtMostMax([a, b]);
  }

  /**
   * The total never exceeds 20 points per level number, and reaches that
   * bound exactly when every level was solved within the time limit.
   */
  lemma {:induction false} TotalAtMostMax(times: seq<nat>)
    ensures Total(times) <= MaxTotal(|times|)
    ensures Total(times) == MaxTotal(|times|) <==> Perfect(times)
  {
    if times == [] {
    } else {
      var n := |times| - 1;
      var init, t := times[..n], times[n];
      assert times == init + [t];
      TotalAtMostMax(init);
      TotalSnoc(init, t);
      MaxTotalStep(n);
      var earned := LevelPoints(n, t) + Bonus(n, t);
      assert earned <= 20 * (n + 1) && (earned == 20 * (n + 1) <==> 0 < t <= TIME_LIMIT);
      assert Perfect(times) <==> Perfect(init) && 0 < t <= TIME_LIMIT;
    }
  }

  lemma MaxTotalStep(n: nat)
    ensures MaxTotal(n + 1) == MaxTotal(n) + 20 * (n + 1)
  {
  }

  /**
   * An unsolved level earns nothing wherever it stands: marking level `i`
   * unsolved takes away exactly its points and bonus and nothing else.
   */
  lemma {:induction false} UnsolvedEarnsNothing(times: seq<nat>, i: nat)
    requires i < |times|
    ensures Total(times[i := 0]) == Total(times) - LevelPoints(i, times[i]) - Bonus(i, times[i])
  {
    var n := |times| - 1;
    var init, t := times[..n], times[n];
    assert times == init + [t];
    TotalSnoc(init, t);
    if i == n {
      assert times[i := 0] == init + [0];
      TotalSnoc(init, 0);
    } else {
      assert times[i := 0] == init[i := 0] + [t];
      UnsolvedEarnsNothing(init, i);
      TotalSnoc(init[i := 0], t);
    }
  }
}
