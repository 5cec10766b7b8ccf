/**
 * The game object (class ScrambledWords of scrambled_words.py): the words of
 * the game, their scrambles, the current level, the game-wide hint flag, the
 * level times and the score, changed in place by the game's methods.
 */
module Game {
  import opened Settings
  import opened Letters
  import opened Scrambler
  import opened Level
  import opened Scoring
  import opened Decimal
  import opened Highscores

  /** What show_highscores leaves behind. */
  datatype HighscoreOutcome =
    | Unreadable                            // a score in the file is not an integer: int() raises
    | Unchanged(list: seq<Entry>)           // no new highscore; the file is not written
    | Saved(stored: seq<StoredEntry>)       // the new list, as written to the file

  /** The highscore list read from the file's contents; a missing file is an empty list. */
  function ReadList(file: Option<seq<StoredEntry>>): (r: Option<seq<Entry>>)
    ensures file.None? ==> r == Some([])
    ensures file.Some? && r.Some? ==> |r.value| == |file.value|
  {
    if file.None? then Some([]) else LoadAll(file.value)
  }

  /** The reading part of show_highscores: no file gives the empty list. */
  method LoadScorelist(file: Option<seq<StoredEntry>>) returns (list: Option<seq<Entry>>)
    ensures list == ReadList(file)
  {
    list := Some([]);
    if file.Some? {
      list := FromStored(file.value);
    }
  }

  /**
   * The guessing loop of challenge on the level's word and its scramble
   * `puzzle`, with the game's hint flag `hint` on entry: reads inputs until
   * the word is entered or no guesses remain. Returns how many inputs were
   * read, the hint flag on exit, the puzzle shown last and whether the word
   * was entered.
   */
  method GuessingLoop(word: string, puzzle: string, hint: bool, inputs: seq<string>)
    returns (used: nat, hintLeft: bool, shown: string, solved: bool)
    requires Ends(word, Start(hint), inputs)
    ensures used == Stop(word, Start(hint), inputs)
    ensures hintLeft == Final(word, Start(hint), inputs).hint
    ensures solved <==> Final(word, Start(hint), inputs).input == word
    ensures hintLeft == hint ==> shown == puzzle
    ensures hintLeft != hint ==> IsHint(shown, word)
  {
    shown := puzzle;
    var guesses: int := MAX_GUESSES;
    var userInput := "";
    hintLeft := hint;
    used := 0;
    ghost var r0 := Start(hint);
    while userInput != word && guesses > 0
      invariant used <= |inputs|
      invariant Round(guesses, hintLeft, userInput) == Fold(word, r0, inputs[..used])
      invariant Stop(word, r0, inputs) == used + Stop(word, Round(guesses, hintLeft, userInput), inputs[used..])
      invariant hintLeft ==> hint
      invariant hintLeft == hint ==> shown == puzzle
      invariant hintLeft != hint ==> IsHint(shown, word)
      decreases |inputs| - used
    {
      Advance(word, r0, inputs, used);
      userInput := Upper(inputs[used]);
      if userInput == "H" {
        if hintLeft {
          if |word| > 4 {
            shown := CreateHint(word);
            hintLeft := false;
          }
        }
      } else if userInput != word {
        guesses := guesses - 1;
      }
      used := used + 1;
    }
    assert Stop(word, r0, inputs) == used;
    assert Final(word, r0, inputs) == Round(guesses, hintLeft, userInput);
    solved := userInput == word;
  }

  class ScrambledWords {
    var words: seq<string>
    var scrambledWords: seq<string>
    var level: nat
    var hint: bool
    var times: seq<nat>
    var score: int

    /** Every word is in upper case and has its scramble. */
    ghost predicate Valid()
      reads this
    {
      (forall k :: 0 <= k < |words| ==> Upper(words[k]) == words[k]) &&
      |scrambledWords| == |words| &&
      forall k :: 0 <= k < |words| ==> IsScramble(scrambledWords[k], words[k])
    }

    /** A new game on the given words (the words read from the word file, upper-cased). */
    constructor (words: seq<string>)
      requires forall k :: 0 <= k < |words| ==> Upper(words[k]) == words[k]
      ensures Valid()
      ensures this.words == words
      ensures level == 0 && hint && times == [] && score == 0
    {
      this.words := words;
      var scrambled := Scramble(words);
      scrambledWords := scrambled;
      level := 0;
      hint := true;
      times := [];
      score := 0;
    }

    /** Move on to the next level (the printing and the pause are left out). */
    method NextLevel()
      requires Valid()
      modifies this`level
      ensures Valid()
      ensures level == old(level) + 1
    {
      level := level + 1;
    }

    /**
     * Play the current level on the player's inputs; `elapsed` is the time in
     * tenths of a second from the start of the level to the last input. Returns
     * how many inputs were read and the puzzle shown last.
     */
    method Challenge(inputs: seq<string>, elapsed: nat) returns (used: nat, shown: string)
      requires Valid()
      requires 1 <= level <= |words|
      requires Ends(words[level - 1], Start(hint), inputs)
      modifies this`hint, this`times
      ensures Valid()
      ensures used == Stop(words[level - 1], Start(old(hint)), inputs)
      ensures hint == Final(words[level - 1], Start(old(hint)), inputs).hint
      ensures times == old(times) +
        [if Final(words[level - 1], Start(old(hint)), inputs).input == words[level - 1] then elapsed else 0]
      ensures hint == old(hint) ==> shown == scrambledWords[level - 1]
      ensures hint != old(hint) ==> IsHint(shown, words[level - 1])
    {
      var solved: bool;
      used, hint, shown, solved := GuessingLoop(words[level - 1], scrambledWords[level - 1], hint, inputs);
      times := times + [if solved then elapsed else 0];
    }

    /**
     * Compute the level points and bonuses of the game's levels and add them
     * all to the score; returns the two lists shown in the results table.
     */
    method ShowScore() returns (points: seq<nat>, bonus: seq<nat>)
      requires Valid()
      requires |times| >= LEVELS
      modifies this`score
      ensures Valid()
      ensures points == Points(times[..LEVELS]) && bonus == Bonuses(times[..LEVELS])
      ensures score == old(score) + Total(times[..LEVELS])
    {
      points, bonus := [], [];
      for i := 0 to LEVELS
        invariant |points| == i && |bonus| == i
        invariant forall j :: 0 <= j < i ==> points[j] == LevelPoints(j, times[j])
        invariant forall j :: 0 <= j < i ==> bonus[j] == Bonus(j, times[j])
      {
        if times[i] != 0 {
          points := points + [(i + 1) * 10];
          if times[i] <= TIME_LIMIT {
            bonus := bonus + [(i + 1) * 10];
          } else {
            bonus := bonus + [0];
          }
        } else {
          points := points + [0];
          bonus := bonus + [0];
        }
      }
      assert points == Points(times[..LEVELS]);
      assert bonus == Bonuses(times[..LEVELS]);
      for j := 0 to |points|
        invariant score == old(score) + Sum(points[..j])
      {
        assert points[..j + 1][..j] == points[..j];
        score := score + points[j];
      }
      assert points[..|points|] == points;
      ghost var afterPoints := score;
      for j := 0 to |bonus|
        invariant score == afterPoints + Sum(bonus[..j])
      {
        assert bonus[..j + 1][..j] == bonus[..j];
        score := score + bonus[j];
      }
      assert bonus[..|bonus|] == bonus;
    }

    /**
     * Add the game's score under the name `player` to `scorelist` and return
     * the new list as it is written to the highscore file. The name prompt
     * repeats until the name is not empty.
     */
    method AddHighscore(scorelist: seq<Entry>, player: string) returns (stored: seq<StoredEntry>)
      requires player != ""
      ensures stored == StoreAll(Ranking(scorelist, score, player))
    {
      var ranked := UpdateList(scorelist, score, player);
      stored := ToStored(ranked);
    }

    /**
     * The highscore step after a game: read the list from the file's contents
     * (None: there is no file, which means an empty list), and add the score
     * when it qualifies.
     */
    method ShowHighscores(file: Option<seq<StoredEntry>>, player: string) returns (outcome: HighscoreOutcome)
      requires player != ""
      ensures ReadList(file).None? ==> outcome == Unreadable
      ensures ReadList(file).Some? && Qualifies(score, ReadList(file).value) ==>
        outcome == Saved(StoreAll(Ranking(ReadList(file).value, score, player)))
      ensures ReadList(file).Some? && !Qualifies(score, ReadList(file).value) ==>
        outcome == Unchanged(ReadList(file).value)
    {
      var loaded := LoadScorelist(file);
      if loaded.None? {
        return Unreadable;
      }
      var scorelist := loaded.value;
      assert scorelist == ReadList(file).value;
      if score != 0 {
        if |scorelist| < CAPACITY || score >= scorelist[|scorelist| - 1].score {
          var stored := AddHighscore(scorelist, player);
          assert Qualifies(score, scorelist);
          return Saved(stored);
        }
      }
      assert !Qualifies(score, scorelist);
      outcome := Unchanged(scorelist);
    }
  }
}
