/**
 * The guessing loop of one level (ScrambledWords.challenge) as a state
 * machine over the player's inputs. A Round holds the loop's variables: the
 * remaining guesses, the game-wide hint flag and the last input. The loop runs
 * while the last input differs from the word and guesses remain.
 */
module Level {
  import opened Letters
  import opened Settings

  datatype Round = Round(guesses: int, hint: bool, input: string)

  /** The loop variables when a level starts; the input starts out empty. */
  function Start(hint: bool): (r: Round)
    ensures r.guesses == MAX_GUESSES > 0 && r.hint == hint
    ensures forall word :: !Over(word, r) <==> word != ""
  {
    Round(MAX_GUESSES, hint, "")
  }

  /** The level is over: the word was entered, or no guesses remain. */
  predicate Over(word: string, r: Round): (o: bool)
    ensures r.guesses <= 0 ==> o
    ensures r.guesses > 0 ==> (o <==> r.input == word)
  {
    r.input == word || r.guesses <= 0
  }

  /** One pass of the loop body on the player's input `typed`. */
  function Step(word: string, r: Round, typed: string): (s: Round)
    ensures s.input == Upper(typed)
    ensures r.guesses - 1 <= s.guesses <= r.guesses
    ensures s.guesses < r.guesses <==> Upper(typed) != "H" && Upper(typed) != word
    ensures s.hint ==> r.hint
  {
    var u := Upper(typed);
    if u == "H" then Round(r.guesses, r.hint && !(|word| > 4), u)
    else if u != word then Round(r.guesses - 1, r.hint, u)
    else Round(r.guesses, r.hint, u)
  }

  /** The loop variables after the loop body has run on each of `inputs` in turn. */
  function Fold(word: string, r: Round, inputs: seq<string>): (f: Round)
    ensures inputs == [] ==> f == r
    ensures inputs != [] ==> f.input == Upper(inputs[|inputs| - 1])
    decreases |inputs|
  {
    if inputs == [] then r else Fold(word, Step(word, r, inputs[0]), inputs[1..])
  }

  /** How many inputs the loop reads: it stops once the level is over or the inputs run out. */
  function Stop(word: string, r: Round, inputs: seq<string>): (n: nat)
    ensures n <= |inputs|
    decreases |inputs|
  {
    if Over(word, r) || inputs == [] then 0 else 1 + Stop(word, Step(word, r, inputs[0]), inputs[1..])
  }

  /** The loop variables when the loop stops. */
  function Final(word: string, r: Round, inputs: seq<string>): (f: Round)
    ensures Over(word, r) ==> f == r
    ensures Stop(word, r, inputs) > 0 ==> f.input == Upper(inputs[Stop(word, r, inputs) - 1])
  {
    Fold(word, r, inputs[..Stop(word, r, inputs)])
  }

  /** The inputs are enough to end the level (the player does not stop typing midway). */
  predicate Ends(word: string, r: Round, inputs: seq<string>) {
    Over(word, Final(word, r, inputs))
  }

  /** Inputs read that are neither "H" nor the word: wrong guesses. */
  function WrongGuesses(word: string, inputs: seq<string>): (n: nat)
    ensures n <= |inputs|
    decreases |inputs|
  {
    if inputs == [] then 0
    else (if Upper(inputs[0]) != "H" && Upper(inputs[0]) != word then 1 else 0) + WrongGuesses(word, inputs[1..])
  }

  /** Some input is "H" (in either case). */
  predicate HintRequested(inputs: seq<string>) {
    exists k :: 0 <= k < |inputs| && Upper(inputs[k]) == "H"
  }

  lemma {:induction false} FoldSnoc(word: string, r: Round, inputs: seq<string>, typed: string)
    ensures Fold(word, r, inputs + [typed]) == Step(word, Fold(word, r, inputs), typed)
    decreases |inputs|
  {
    if inputs != [] {
      assert (inputs + [typed])[1..] == inputs[1..] + [typed];
      FoldSnoc(word, Step(word, r, inputs[0]), inputs[1..], typed);
    }
  }

  /** Only a wrong guess costs a guess: "H" and the word itself never do. */
  lemma {:induction false} FoldGuesses(word: string, r: Round, inputs: seq<string>)
    ensures Fold(word, r, inputs).guesses == r.guesses - WrongGuesses(word, inputs)
    decreases |inputs|
  {
    if inputs != [] {
      FoldGuesses(word, Step(word, r, inputs[0]), inputs[1..]);
    }
  }

  /**
   * The hint flag is cleared exactly when it was set, the word has more than
   * 4 letters and "H" was entered; otherwise it keeps its value.
   */
  lemma {:induction false} FoldHint(word: string, r: Round, inputs: seq<string>)
    ensures Fold(word, r, inputs).hint == (r.hint && !(|word| > 4 && HintRequested(inputs)))
    decreases |inputs|
  {
    if inputs != [] {
      FoldHint(word, Step(word, r, inputs[0]), inputs[1..]);
      assert HintRequested(inputs) <==> Upper(inputs[0]) == "H" || HintRequested(inputs[1..]) by {
        if HintRequested(inputs[1..]) {
          var k :| 0 <= k < |inputs[1..]| && Upper(inputs[1..][k]) == "H";
          assert Upper(inputs[k + 1]) == "H";
        }
        if HintRequested(inputs) {
          var k :| 0 <= k < |inputs| && Upper(inputs[k]) == "H";
          if k > 0 { assert Upper(inputs[1..][k - 1]) == "H"; }
        }
      }
    }
  }

  /**
   * The loop ends exactly when the level is over: before it stops no prefix
   * of the inputs ends the level, and it stops early only at the first one
   * that does.
   */
  lemma {:induction false} StopIsFirstOver(word: string, r: Round, inputs: seq<string>)
    ensures forall j :: 0 <= j < Stop(word, r, inputs) ==> !Over(word, Fold(word, r, inputs[..j]))
    ensures Stop(word, r, inputs) < |inputs| ==> Ends(word, r, inputs)
    decreases |inputs|
  {
    if !Over(word, r) && inputs != [] {
      var r1 := Step(word, r, inputs[0]);
      StopIsFirstOver(word, r1, inputs[1..]);
      var n := Stop(word, r, inputs);
      assert inputs[..n] == [inputs[0]] + inputs[1..][..n - 1];
      forall j | 0 < j < n ensures !Over(word, Fold(word, r, inputs[..j])) {
        assert inputs[..j] == [inputs[0]] + inputs[1..][..j - 1];
        assert inputs[..j][1..] == inputs[1..][..j - 1];
      }
      assert inputs[..n][1..] == inputs[1..][..n - 1];
    }
  }

  /** While the level is not over, the loop has an input left to read. */
  lemma InputLeftWhileNotOver(word: string, r: Round, inputs: seq<string>, k: nat)
    requires Ends(word, r, inputs)
    requires k <= Stop(word, r, inputs)
    requires !Over(word, Fold(word, r, inputs[..k]))
    ensures k < |inputs|
  {
    assert inputs[..|inputs|] == inputs;
  }

  /**
   * One more pass of the loop: while the level is not over an input is left,
   * and reading it extends the fold by one step and the count of inputs read by one.
   */
  lemma Advance(word: string, r: Round, inputs: seq<string>, k: nat)
    requires Ends(word, r, inputs)
    requires k <= |inputs|
    requires Stop(word, r, inputs) == k + Stop(word, Fold(word, r, inputs[..k]), inputs[k..])
    requires !Over(word, Fold(word, r, inputs[..k]))
    ensures k < |inputs|
    ensures Fold(word, r, inputs[..k + 1]) == Step(word, Fold(word, r, inputs[..k]), inputs[k])
    ensures Stop(word, r, inputs) == k + 1 + Stop(word, Fold(word, r, inputs[..k + 1]), inputs[k + 1..])
  {
    InputLeftWhileNotOver(word, r, inputs, k);
    assert inputs[..k + 1] == inputs[..k] + [inputs[k]];
    FoldSnoc(word, r, inputs[..k], inputs[k]);
    assert inputs[k..][1..] == inputs[k + 1..];
  }

  /** The guesses never drop below 0, so a level takes at most its budget of wrong guesses. */
  lemma {:induction false} WrongGuessesWithinBudget(word: string, r: Round, inputs: seq<string>)
    requires r.guesses >= 0
    ensures Final(word, r, inputs).guesses >= 0
    ensures WrongGuesses(word, inputs[..Stop(word, r, inputs)]) <= r.guesses
    decreases |inputs|
  {
    var n := Stop(word, r, inputs);
    if !Over(word, r) && inputs != [] {
      var r1 := Step(word, r, inputs[0]);
      WrongGuessesWithinBudget(word, r1, inputs[1..]);
      assert inputs[..n][1..] == inputs[1..][..n - 1];
    }
    FoldGuesses(word, r, inputs[..n]);
  }

  /** A level that ends is either solved (the word was entered) or exhausted (exactly 0 guesses left). */
  lemma SolvedOrExhausted(word: string, r: Round, inputs: seq<string>)
    requires r.guesses >= 0
    requires Ends(word, r, inputs)
    ensures Final(word, r, inputs).input == word || Final(word, r, inputs).guesses == 0
  {
    WrongGuessesWithinBudget(word, r, inputs);
  }
}
