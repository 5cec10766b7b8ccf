/**
 * The game's options (the constants at the bottom of scrambled_words.py:
 * LEVELS, MAX_GUESSES, TIME_LIMIT), and names for two literals of the code:
 * the list capacity 10 of show_highscores and add_highscore, and the 3 kept
 * letters of create_hint.
 */
module Settings {
  /** Number of levels per game; must not exceed the number of words. */
  const LEVELS: nat := 6

  /** Wrong guesses allowed per level. */
  const MAX_GUESSES: nat := 2

  /** Bonus time limit, 10 seconds, in tenths of a second (level times are kept in tenths). */
  const TIME_LIMIT: nat := 100

  /** Highscore list capacity: the literal 10 of show_highscores and add_highscore. */
  const CAPACITY: nat := 10

  /** A word keeps this many leading letters when a hint is shown: the literal 3 of create_hint. */
  const HINT_PREFIX: nat := 3
}
