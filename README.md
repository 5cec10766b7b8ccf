# Scrambled Words — a Dafny model of the game rules

Scrambled Words is a console word-guessing game (`scrambled_words.py`, class
`ScrambledWords`). Each level shows one word with its letters scrambled. The
player has a fixed number of wrong guesses per level and may ask for one hint
per game. A hint keeps the first three letters in place and shuffles the rest.
Solved levels earn points, and a level solved fast also earns a bonus. At the
end the score may enter a highscore list of at most ten entries, kept in a file.

This project models the rules of that game and proves properties of them:

- `Settings` — the options at the bottom of the source file (6 levels, 2 wrong guesses, a 10 s bonus
  limit), and names for two literals of the code: `CAPACITY`, the list size 10 written out in
  `show_highscores` and `add_highscore`, and `HINT_PREFIX`, the 3 letters `create_hint` keeps.
- `Letters` — upper case, permutations of a word, and "has two different letters".
- `Scrambler` — `scramble` and `create_hint`. The random shuffle becomes a nondeterministic pick of
  one of the outcomes the retry loop can exit with.
- `Level` — the guessing loop of `challenge` as a state machine over the player's inputs:
  one step per input, the fold over a sequence of inputs, and the point where the loop stops.
- `Scoring` — level points, bonuses and the total of `show_score`.
- `Decimal` — `str` and `int` on scores.
- `Highscores` — Python's order on `[score, name]` pairs, the descending sort, the qualification
  test, the list update of `add_highscore`, and the integer/text conversion loops.
- `Game` — the guessing loop of `challenge` as a method over the level's word, and the class
  `ScrambledWords` with its fields `words`, `scrambledWords`, `level`, `hint`, `times` and `score`,
  and the methods that change them.

Level times are natural numbers counted in tenths of a second, so the 10 s limit is 100.
A time of 0 means "not solved". A level solved in under 0.05 s also rounds to 0 and then
counts as unsolved, just as in the source. The player's inputs for a level are a sequence of
strings. The elapsed time of a level is a parameter.

Two behaviours of the code that a reader might expect otherwise:

- The highscore list is sorted by the whole `[score, name]` pair, descending (scrambled_words.py:236).
  Ties on the score are therefore ordered by name, also descending. The ranking is not by score alone
  with ties left open.
- A word that cannot be rearranged is not detected by the code. The code loops forever
  (see Findings).

## Model

| member | source | states |
|---|---|---|
| `Letters.Upper` | scrambled_words.py:94 | same length, no lower-case letter left, and a string that had none (such as an upper-cased word) is unchanged, so comparing the raised input with the word ignores case |
| `Scrambler.ShuffleLoopCanExitIff` | scrambled_words.py:57-60 | the shuffle-until-different loop over a word can ever exit if and only if the word has two different letters |
| `Scrambler.ScrambleOfSingleLetterNeverEnds` | scrambled_words.py:55-60 | as written, scrambling "I" or the empty word of a blank line can never leave the loop |
| `Scrambler.HintForGrassNeverEnds` | scrambled_words.py:133-137 | "GRASS" passes the caller's more-than-4-letters test, yet no shuffle of its rest "SS" differs, so `create_hint` never returns |
| `Scrambler.ScrambleWord` | scrambled_words.py:56-60 | the result is a permutation of the word, and differs from it exactly when the word has two different letters |
| `Scrambler.Scramble` | scrambled_words.py:52-62 | one result per word, in order, and each is a scramble of its word (same letters; different wherever possible) |
| `Scrambler.PrefixLength` | scrambled_words.py:134-135 | the kept prefix is 3 letters, or the whole word when it is shorter |
| `Scrambler.CreateHint` | scrambled_words.py:127-140 | same length as the word, the first 3 letters in place, and the rest a permutation of the word's rest that differs from it whenever possible |
| `Game.ScrambledWords.constructor` | scrambled_words.py:24-35 | given words in upper case (as `get_words` leaves them at line 49), the game keeps them, every word has its scramble; level 0, hint available, no times, score 0 |
| `Game.ScrambledWords.NextLevel` | scrambled_words.py:64-66 | the level counter goes up by one and the game stays valid |
| `Game.GuessingLoop` | scrambled_words.py:77-113 | the loop reads inputs exactly up to the point where the level is over; the hint flag and "word entered" are those of the state machine at that point; the puzzle shown is the scramble, or a hint of the word once the hint was used |
| `Game.ScrambledWords.Challenge` | scrambled_words.py:70-124 | reads inputs exactly up to the point where the loop stops; the hint flag ends as the state machine leaves it; exactly one time is appended (the elapsed time if the word was entered, else 0); the puzzle shown is the level's scramble, or a hint if one was used; the words stay upper case and each keeps its scramble |
| `Level.Start` | scrambled_words.py:80-89 | a level starts with the full budget of guesses (2), the game's hint flag and an empty input, so it is over at once only for an empty word |
| `Level.Over` | scrambled_words.py:90 | the negated loop condition: with no guesses left the level is over; with guesses left it is over exactly when the last input is the word |
| `Level.Fold` | scrambled_words.py:90-107 | the loop body run on each input in turn: no inputs leave the variables as they were, and afterwards the input is the last one raised |
| `Level.Final` | scrambled_words.py:90-113 | the variables when the loop exits: a level already over reads nothing, and otherwise the input is the last one read, raised |
| `Level.Step` | scrambled_words.py:94-107 | the input is the raised text; a guess is lost exactly when that text is neither "H" nor the word, and then exactly one; the hint flag can be cleared but never set |
| `Level.Stop` | scrambled_words.py:90 | the loop reads at most the inputs it is given |
| `Level.WrongGuesses` | scrambled_words.py:106-107 | each input is at most one wrong guess |
| `Level.Advance` | scrambled_words.py:90-107 | while the level is not over an input is left, and one more pass extends the fold by one step and the count of inputs read by one |
| `Level.FoldGuesses` | scrambled_words.py:96-107 | guesses left = guesses at the start minus the inputs that are neither "H" nor the word, so "H" and the word never cost a guess |
| `Level.FoldHint` | scrambled_words.py:96-105 | the hint flag is cleared exactly when it was set, the word has more than 4 letters and "H" was entered; otherwise it is unchanged |
| `Level.StopIsFirstOver` | scrambled_words.py:89-90 | no input before the stopping point ends the level, and reading stops before the inputs run out only once the word was entered or no guesses remain |
| `Level.WrongGuessesWithinBudget` | scrambled_words.py:80-107 | the guess counter never goes below 0, so a level allows at most its budget of wrong guesses |
| `Level.SolvedOrExhausted` | scrambled_words.py:90-123 | a level that ends was either solved or left with exactly 0 guesses |
| `Level.InputLeftWhileNotOver` | scrambled_words.py:90-94 | while the level is not over, an input remains to be read |
| `Level.FoldSnoc` | scrambled_words.py:90-107 | running the loop body on one more input extends the fold by one step |
| `Scoring.LevelPoints` | scrambled_words.py:153-163 | a level earns 0 exactly when it was not solved (time 0), and otherwise 10 times its number |
| `Scoring.Bonus` | scrambled_words.py:153-163 | the bonus is not 0 exactly when the level was solved within the time limit, and then equals the level points |
| `Scoring.Points` | scrambled_words.py:152-163 | one point entry per level |
| `Scoring.Bonuses` | scrambled_words.py:152-163 | one bonus entry per level |
| `Scoring.Total` | scrambled_words.py:175-178 | the score added is the sum of the points plus the sum of the bonuses; a game with no solved level adds 0 |
| `Scoring.UnsolvedLevelsEarnNothing` | scrambled_words.py:153-178 | when no level was solved, both the points and the bonuses sum to 0 |
| `Scoring.TotalSnoc` | scrambled_words.py:152-178 | one more level adds exactly its points plus its bonus to the total |
| `Scoring.TotalExample` | scrambled_words.py:149-178 | times [3.2 s, unsolved, 8.0 s] give points [10, 0, 30], bonus [10, 0, 30] and total 80 |
| `Scoring.TwoFastLevels` | scrambled_words.py:149-178 | two levels both solved within the limit total 60 |
| `Scoring.TotalAtMostMax` | scrambled_words.py:152-163 | the total is at most 10·n·(n+1) for n levels, and reaches it exactly when every level was solved within the limit |
| `Scoring.UnsolvedEarnsNothing` | scrambled_words.py:153-163 | marking any level unsolved removes exactly its points and bonus, at whatever position it stands |
| `Game.ScrambledWords.ShowScore` | scrambled_words.py:142-179 | the points and bonus lists are those of the level times, and the score grows by their total; the game stays valid |
| `Highscores.QualifiesIffBeatsSome` | scrambled_words.py:204-205 | on a descending list, a score qualifies if and only if it is not 0 and there is room or it reaches some entry's score |
| `Highscores.Qualifies` | scrambled_words.py:204-205 | 0 never qualifies, even for an empty list; with fewer than 10 entries every other score qualifies |
| `Highscores.Kept` | scrambled_words.py:232-233 | popping while there are 10 or more entries leaves the first 9 of a long list, or the whole of a short one |
| `Highscores.DroppedAreLowest` | scrambled_words.py:232-233 | on a descending list, every popped entry ranks at or below every kept one |
| `Highscores.NameAtMost` | scrambled_words.py:236 | Python's `<=` on names: a prefix comes first, and otherwise the first letters are in order |
| `Highscores.Above` | scrambled_words.py:236 | `[a.score, a.name] >= [b.score, b.name]`: a higher score ranks above whatever the names, and an entry above another never has a lower score |
| `Highscores.Insert` | scrambled_words.py:236 | inserting into a descending list keeps it descending and adds exactly the new entry |
| `Highscores.SortDesc` | scrambled_words.py:236 | the result is sorted descending on `[score, name]` and is a permutation of the input |
| `Highscores.SortedUnique` | scrambled_words.py:236 | two descending permutations of the same entries are equal, so any sort gives the same list |
| `Highscores.Ranking` | scrambled_words.py:232-236 | the new list is sorted descending, holds the kept entries plus the new one (as a multiset), has at most 10 entries and contains the new entry |
| `Highscores.UpdateList` | scrambled_words.py:232-236 | popping, appending and sorting step by step gives the ranking above |
| `Decimal.NatToString` | scrambled_words.py:243 | a non-empty string of digits with no leading zero |
| `Decimal.ShowInt` | scrambled_words.py:243 | a non-empty text of digits, led by '-' exactly when the number is negative |
| `Decimal.ParseInt` | scrambled_words.py:199 | a number is read exactly from digits with an optional sign, and without '-' it is not negative |
| `Decimal.IntRoundTrip` | scrambled_words.py:199 | `int(str(n)) == n` for every integer |
| `Highscores.LoadStoreRoundTrip` | scrambled_words.py:240-244 | converting scores to text and back gives the same list in the same order |
| `Highscores.StoreAll` | scrambled_words.py:240-244 | the list as written: one stored entry per entry, in order, with the same names |
| `Highscores.LoadAll` | scrambled_words.py:196-200 | the list as read: one entry per stored entry, in order, with the same names; it fails only when some score text is not an integer |
| `Highscores.ToStored` | scrambled_words.py:240-244 | each entry's score is replaced by its decimal text, in order |
| `Highscores.FromStored` | scrambled_words.py:196-200 | each score text is read back as an integer, in order; one unreadable score fails the whole load |
| `Game.ReadList` | scrambled_words.py:190-202 | a missing file is the empty list; a readable file gives one entry per stored entry |
| `Game.LoadScorelist` | scrambled_words.py:190-202 | a missing file gives the empty list; otherwise the converted file contents |
| `Game.ScrambledWords.AddHighscore` | scrambled_words.py:218-252 | the list returned and written is the ranking of the game's score under the player's name, as text |
| `Game.ScrambledWords.ShowHighscores` | scrambled_words.py:181-206 | an unreadable file is an error; a qualifying score produces the written new ranking; otherwise the list stays as read |

## Left out

- Reading the word file in `get_words`, and the JSON load and dump of the highscore file: these are file I/O.
  The words are the constructor's parameter. The file's contents are a parameter of `ShowHighscores`.
- In `get_words`, a missing word file leaves `lines` unbound. This is an I/O defect and is not reproduced.
- Console output, the results table and highscore display, the instructions, and the pauses (`time.sleep`).
- The prompt that repeats until the name is non-empty: it becomes the requirement `player != ""`.
- `time.time` and `round(..., 1)`: the elapsed time of a level is a natural-number parameter in tenths.
- `random.choice` (the synonym pick in `get_words`, the praise message): not modelled.
- `random.shuffle`: each retry loop becomes one nondeterministic pick among the results that end the loop.
  The model does not capture the number of retries or the distribution.
- The orchestration in `play` and `main` (level loop, scoring and highscore calls). Their sequencing is only
  printing and calls. The check `LEVELS > len(self.words)` corresponds to the requirement `level <= |words|`
  in `Challenge`, and `ShowScore` requires at least `LEVELS` times.
- Game.GuessingLoop: requires that the inputs are enough to end the level (`Ends`). Inputs that run out
  before the level is over would make `input` at scrambled_words.py:94 raise EOFError; that path is not modelled.
- Game.ScrambledWords.Challenge: requires that the inputs are enough to end the level. A console that
  closes mid-level would raise an error from `input`, which is not modelled.
- Letters.Upper: raises only the ASCII letters `a`–`z`. Python's `upper` covers all of Unicode and can change
  a string's length.
- Decimal.ParseInt: accepts an optional sign followed by digits. Python's `int` also accepts surrounding
  white space, digit-group underscores and non-ASCII Unicode decimal digits (such as Arabic-Indic
  digits), and takes integers that are already numbers.
- Highscores.UpdateList: works on a sequence value. The source pops the caller's list in place, but the
  caller replaces its list with the result anyway.
- Game.ScrambledWords.ShowHighscores: after a new highscore the source keeps the list with text scores for
  display. The model returns that text list as `Saved`.
- A `reset` of the game: this revision of the source has none; its test only checks that the level starts at 0.

## Findings

| source | as written | input that shows it | evidently intended | confidence | as-written member | corrected member |
|---|---|---|---|---|---|---|
| scrambled_words.py:57-60 | `scramble` shuffles until the result differs from the word | a one-letter word such as "I", or the empty word from a blank line of the word file: no shuffle differs, so the loop never ends | a word that cannot be rearranged is left as it is | high; not executed | `Scrambler.ScrambleOfSingleLetterNeverEnds` | `Scrambler.ScrambleWord` |
| scrambled_words.py:133-137 | `create_hint` shuffles the letters after the third until they differ; `challenge` calls it for every word of more than 4 letters | "GRASS": the rest "SS" has no other arrangement, so the hint request never returns | a rest that cannot be rearranged is left as it is | high; not executed | `Scrambler.HintForGrassNeverEnds` | `Scrambler.CreateHint` |
