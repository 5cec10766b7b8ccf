/**
 * The highscore list: the qualification test of ScrambledWords.show_highscores,
 * the list update of ScrambledWords.add_highscore, and the conversion of
 * scores between integers and the text kept in the highscore file.
 */
module Highscores {
  import opened Settings
  import opened Decimal

  /** One highscore entry as the game compares it: the pair [score, player]. */
  datatype Entry = Entry(score: int, name: string)

  /** One entry as the highscore file holds it: the score as text. */
  datatype StoredEntry = StoredEntry(points: string, name: string)

  // ---------------------------------------------------------------
  // Python's ordering of strings (by code point, a prefix first) and of pairs

  /** `a <= b` in Python's string order. */
  predicate NameAtMost(a: string, b: string): (r: bool)
    ensures a <= b ==> r
    ensures r && a != [] ==> b != [] && a[0] <= b[0]
    decreases |a|
  {
    a == [] || (b != [] && (a[0] < b[0] || (a[0] == b[0] && NameAtMost(a[1..], b[1..]))))
  }

  lemma {:induction false} NameTotal(a: string, b: string)
    ensures NameAtMost(a, b) || NameAtMost(b, a)
    decreases |a|
  {
    if a != [] && b != [] && a[0] == b[0] {
      NameTotal(a[1..], b[1..]);
    }
  }

  lemma {:induction false} NameReflexive(a: string)
    ensures NameAtMost(a, a)
    decreases |a|
  {
    if a != [] {
      NameReflexive(a[1..]);
    }
  }

  lemma {:induction false} NameTransitive(a: string, b: string, c: string)
    requires NameAtMost(a, b) && NameAtMost(b, c)
    ensures NameAtMost(a, c)
    decreases |a|
  {
    if a != [] && a[0] == b[0] && b[0] == c[0] {
      NameTransitive(a[1..], b[1..], c[1..]);
    }
  }

  lemma {:induction false} NameAntisymmetric(a: string, b: string)
    requires NameAtMost(a, b) && NameAtMost(b, a)
    ensures a == b
    decreases |a|
  {
    if a != [] {
      NameAntisymmetric(a[1..], b[1..]);
      assert a == [a[0]] + a[1..] && b == [b[0]] + b[1..];
    }
  }

  /** `a` ranks at or above `b`: [a.score, a.name] >= [b.score, b.name]. */
  predicate Above(a: Entry, b: Entry): (r: bool)
    ensures r ==> a.score >= b.score
    ensures a.score != b.score ==> (r <==> a.score > b.score)
  {
    a.score > b.score || (a.score == b.score && NameAtMost(b.name, a.name))
  }

  lemma AboveTotal(a: Entry, b: Entry)
    ensures Above(a, b) || Above(b, a)
  {
    NameTotal(a.name, b.name);
  }

  lemma AboveTransitive(a: Entry, b: Entry, c: Entry)
    requires Above(a, b) && Above(b, c)
    ensures Above(a, c)
  {
    if a.score == b.score == c.score {
      NameTransitive(c.name, b.name, a.name);
    }
  }

  lemma AboveAntisymmetric(a: Entry, b: Entry)
    requires Above(a, b) && Above(b, a)
    ensures a == b
  {
    NameAntisymmetric(a.name, b.name);
  }

  // ---------------------------------------------------------------
  // sorted(..., reverse=True)

  /** Every entry ranks at or above every later one. */
  predicate SortedDesc(s: seq<Entry>) {
    forall i, j :: 0 <= i < j < |s| ==> Above(s[i], s[j])
  }

  /** `x` put into its place in the descending list `s`. */
  function Insert(x: Entry, s: seq<Entry>): (r: seq<Entry>)
    requires SortedDesc(s)
    ensures SortedDesc(r)
    ensures multiset(r) == multiset(s) + multiset{x}
  {
    if s == [] then [x]
    else if Above(x, s[0]) then
      InsertFirst(x, s);
      [x] + s
    else
      var tail := Insert(x, s[1..]);
      InsertLater(x, s, tail);
      [s[0]] + tail
  }

  /** An entry at or above the head of a descending list may go in front of it. */
  lemma InsertFirst(x: Entry, s: seq<Entry>)
    requires SortedDesc(s) && s != [] && Above(x, s[0])
    ensures SortedDesc([x] + s)
  {
    forall j | 0 <= j < |s| ensures Above(x, s[j]) {
      if j > 0 { AboveTransitive(x, s[0], s[j]); }
    }
  }

  /** Below the head, the head stays in front of the rest with `x` inserted. */
  lemma InsertLater(x: Entry, s: seq<Entry>, tail: seq<Entry>)
    requires SortedDesc(s) && s != [] && !Above(x, s[0])
    requires SortedDesc(tail) && multiset(tail) == multiset(s[1..]) + multiset{x}
    ensures SortedDesc([s[0]] + tail)
    ensures multiset([s[0]] + tail) == multiset(s) + multiset{x}
  {
    AboveTotal(x, s[0]);
    assert s == [s[0]] + s[1..];
    forall j | 0 <= j < |tail| ensures Above(s[0], tail[j]) {
      assert tail[j] in multiset(tail);
      if tail[j] != x {
        assert tail[j] in multiset(s[1..]);
        var k :| 0 <= k < |s[1..]| && s[1..][k] == tail[j];
        assert s[k + 1] == tail[j];
      }
    }
    var r := [s[0]] + tail;
    forall i, j | 0 <= i < j < |r| ensures Above(r[i], r[j]) {
      if i > 0 { assert r[i] == tail[i - 1] && r[j] == tail[j - 1]; }
    }
  }

  /** The entries of `s` in descending order. */
  function SortDesc(s: seq<Entry>): (r: seq<Entry>)
    ensures SortedDesc(r)
    ensures multiset(r) == multiset(s)
  {
    if s == [] then []
    else
      assert s == [s[0]] + s[1..];
      Insert(s[0], SortDesc(s[1..]))
  }

  /** The first entry of a descending list ranks at or above every entry of it. */
  lemma HeadAboveAll(a: seq<Entry>, x: Entry)
    requires SortedDesc(a) && x in multiset(a)
    ensures Above(a[0], x)
  {
    var i :| 0 <= i < |a| && a[i] == x;
    if i == 0 { NameReflexive(x.name); }
  }

  lemma SortedTail(a: seq<Entry>)
    requires SortedDesc(a) && a != []
    ensures SortedDesc(a[1..])
    ensures multiset(a[1..]) == multiset(a) - multiset{a[0]}
  {
    assert a == [a[0]] + a[1..];
  }

  /**
   * There is only one descending arrangement of a collection of entries, so
   * any sort yields what SortDesc yields.
   */
  lemma {:induction false} SortedUnique(a: seq<Entry>, b: seq<Entry>)
    requires SortedDesc(a) && SortedDesc(b)
    requires multiset(a) == multiset(b)
    ensures a == b
  {
    assert |a| == |multiset(a)| == |multiset(b)| == |b|;
    if a != [] {
      assert a[0] in multiset(a) && b[0] in multiset(b);
      HeadAboveAll(b, a[0]);
      HeadAboveAll(a, b[0]);
      AboveAntisymmetric(a[0], b[0]);
      SortedTail(a);
      SortedTail(b);
      SortedUnique(a[1..], b[1..]);
      assert a == [a[0]] + a[1..] && b == [b[0]] + b[1..];
    }
  }

  // ---------------------------------------------------------------
  // Qualification and update

  /**
   * A score enters the list when it is not 0 and either the list has room
   * or the score is at least that of the last (lowest) entry.
   */
  predicate Qualifies(score: int, list: seq<Entry>): (q: bool)
    ensures q ==> score != 0
    ensures |list| < CAPACITY ==> (q <==> score != 0)
  {
    score != 0 && (|list| < CAPACITY || score >= list[|list| - 1].score)
  }

  /**
   * On a descending list, qualifying means: not 0, and room in the list or a
   * score at least as high as some entry's.
   */
  lemma QualifiesIffBeatsSome(score: int, list: seq<Entry>)
    requires SortedDesc(list)
    ensures Qualifies(score, list) <==>
      score != 0 && (|list| < CAPACITY || exists j :: 0 <= j < |list| && score >= list[j].score)
  {
    if score != 0 && |list| >= CAPACITY && (exists j :: 0 <= j < |list| && score >= list[j].score) {
      var j :| 0 <= j < |list| && score >= list[j].score;
      if j < |list| - 1 { assert Above(list[j], list[|list| - 1]); }
    }
  }

  /** What is left after popping from the end while the list has 10 or more entries. */
  function Kept(list: seq<Entry>): (r: seq<Entry>)
    ensures |r| == if |list| >= CAPACITY then CAPACITY - 1 else |list|
    ensures r == list[..|r|]
  {
    if |list| >= CAPACITY then list[..CAPACITY - 1] else list
  }

  /** On a descending list, each popped entry ranks at or below every kept one. */
  lemma DroppedAreLowest(list: seq<Entry>, i: nat, j: nat)
    requires SortedDesc(list)
    requires i < |Kept(list)| <= j < |list|
    ensures Above(Kept(list)[i], list[j])
  {
  }

  /**
   * The new list: the kept entries and the new one, in descending order, at
   * most 10 of them.
   */
  function Ranking(list: seq<Entry>, score: int, player: string): (r: seq<Entry>)
    ensures SortedDesc(r)
    ensures multiset(r) == multiset(Kept(list)) + multiset{Entry(score, player)}
    ensures |r| <= CAPACITY
    ensures Entry(score, player) in r
  {
    var r := SortDesc(Kept(list) + [Entry(score, player)]);
    assert |r| == |multiset(r)| == |Kept(list)| + 1;
    assert Entry(score, player) in multiset(r);
    r
  }

  /** Popping, appending and the sort, step by step as add_highscore does them. */
  method UpdateList(scorelist: seq<Entry>, score: int, player: string) returns (ranked: seq<Entry>)
    ensures ranked == Ranking(scorelist, score, player)
  {
    var list := scorelist;
    while |list| >= CAPACITY
      invariant list == scorelist[..|list|]
      invariant |scorelist| >= CAPACITY ==> |list| >= CAPACITY - 1
      invariant |scorelist| < CAPACITY ==> list == scorelist
    {
      list := list[..|list| - 1];
    }
    assert list == Kept(scorelist);
    list := list + [Entry(score, player)];
    ranked := SortDesc(list);
  }

  // ---------------------------------------------------------------
  // Scores as text

  function StoreEntry(e: Entry): StoredEntry {
    StoredEntry(ShowInt(e.score), e.name)
  }

  function LoadEntry(s: StoredEntry): Option<Entry> {
    match ParseInt(s.points)
    case Some(n) => Some(Entry(n, s.name))
    case None => None
  }

  /** The list as written to the highscore file. */
  function StoreAll(list: seq<Entry>): (s: seq<StoredEntry>)
    ensures |s| == |list|
    ensures forall k :: 0 <= k < |list| ==> s[k].name == list[k].name
  {
    seq(|list|, k requires 0 <= k < |list| => StoreEntry(list[k]))
  }

  /** The list as read from the highscore file; None when some score is not an integer. */
  function LoadAll(s: seq<StoredEntry>): (r: Option<seq<Entry>>)
    ensures r.Some? ==> |r.value| == |s|
    ensures r.Some? ==> forall k :: 0 <= k < |s| ==> r.value[k].name == s[k].name
    ensures r.None? ==> exists k :: 0 <= k < |s| && ParseInt(s[k].points).None?
  {
    if forall k :: 0 <= k < |s| ==> LoadEntry(s[k]).Some? then
      Some(seq(|s|, k requires 0 <= k < |s| => LoadEntry(s[k]).value))
    else None
  }

  /** Writing a list and reading it back gives the same entries in the same order. */
  lemma LoadStoreRoundTrip(list: seq<Entry>)
    ensures LoadAll(StoreAll(list)) == Some(list)
  {
    var s := StoreAll(list);
    forall k | 0 <= k < |list| ensures LoadEntry(s[k]) == Some(list[k]) {
      IntRoundTrip(list[k].score);
    }
    assert LoadAll(s).value == list;
  }

  /** The conversion loop of add_highscore: each score to text. */
  method ToStored(list: seq<Entry>) returns (stored: seq<StoredEntry>)
    ensures stored == StoreAll(list)
  {
    stored := [];
    for k := 0 to |list|
      invariant stored == StoreAll(list[..k])
    {
      stored := stored + [StoredEntry(ShowInt(list[k].score), list[k].name)];
    }
    assert list[..|list|] == list;
  }

  /** The conversion loop of show_highscores: each score text to an integer. */
  method FromStored(stored: seq<StoredEntry>) returns (list: Option<seq<Entry>>)
    ensures list == LoadAll(stored)
  {
    var acc: seq<Entry> := [];
    for k := 0 to |stored|
      invariant |acc| == k
      invariant forall j :: 0 <= j < k ==> LoadEntry(stored[j]) == Some(acc[j])
    {
      match ParseInt(stored[k].points)
      case None =>
        assert LoadEntry(stored[k]).None?;
        return None;
      case Some(n) =>
        acc := acc + [Entry(n, stored[k].name)];
    }
    list := Some(acc);
    assert LoadAll(stored).value == acc;
  }
}
