/** The in-memory leaderboard: the best scores, highest first, at most RANKING_SIZE of them. */
module Ranking {
  import opened Config

  predicate Descending(s: seq<int>) {
    forall i, j :: 0 <= i < j < |s| ==> s[i] >= s[j]
  }

  /** Places `x` into a descending list before the first entry not above it. */
  function Insert(x: int, s: seq<int>): (r: seq<int>)
    ensures |r| == |s| + 1
  {
    if s == [] || x >= s[0] then [x] + s else [s[0]] + Insert(x, s[1..])
  }

  lemma {:induction false} InsertPermutes(x: int, s: seq<int>)
    ensures multiset(Insert(x, s)) == multiset(s) + multiset{x}
    decreases |s|
  {
    if s != [] && x < s[0] {
      InsertPermutes(x, s[1..]);
      assert s == [s[0]] + s[1..];
    }
  }

  lemma {:induction false} InsertSorted(x: int, s: seq<int>)
    requires Descending(s)
    ensures Descending(Insert(x, s))
    decreases |s|
  {
    if s != [] && x < s[0] {
      var tail := Insert(x, s[1..]);
      InsertSorted(x, s[1..]);
      // The first entry of the tail is `x` or `s[1]`, both at most `s[0]`.
      assert s[0] >= tail[0];
      assert Insert(x, s) == [s[0]] + tail;
    }
  }

  /** The list sorted highest first (what `list.sort(reverse=True)` yields for integers). */
  function SortDesc(s: seq<int>): (r: seq<int>)
    ensures |r| == |s|
  {
    if s == [] then [] else Insert(s[0], SortDesc(s[1..]))
  }

  lemma {:induction false} SortDescCorrect(s: seq<int>)
    ensures Descending(SortDesc(s))
    ensures multiset(SortDesc(s)) == multiset(s)
    decreases |s|
  {
    if s != [] {
      SortDescCorrect(s[1..]);
      InsertSorted(s[0], SortDesc(s[1..]));
      InsertPermutes(s[0], SortDesc(s[1..]));
      assert s == [s[0]] + s[1..];
    }
  }

  /** The first entry of a descending list is its largest. */
  lemma HeadIsMax(s: seq<int>, x: int)
    requires Descending(s) && x in multiset(s)
    ensures s != [] && s[0] >= x
  {
    var k :| 0 <= k < |s| && s[k] == x;
  }

  /** A descending list is determined by its elements: any sort that orders highest
      first gives the same result as SortDesc. */
  lemma {:induction false} DescendingUnique(a: seq<int>, b: seq<int>)
    requires Descending(a) && Descending(b) && multiset(a) == multiset(b)
    ensures a == b
    decreases |a|
  {
    if a != [] {
      assert a[0] in multiset(a);
      HeadIsMax(b, a[0]);
      assert b[0] in multiset(b);
      HeadIsMax(a, b[0]);
      assert a[0] == b[0];
      assert a == [a[0]] + a[1..] && b == [b[0]] + b[1..];
      assert multiset(a[1..]) == multiset(a) - multiset{a[0]};
      assert multiset(b[1..]) == multiset(b) - multiset{b[0]};
      DescendingUnique(a[1..], b[1..]);
    } else {
      assert |b| == |multiset(b)| == 0;
    }
  }

  /** The leaderboard after a game ending with score `s`: append, sort highest
      first, and drop the last entry if there are more than RANKING_SIZE. */
  function AddToRankings(rankings: seq<int>, s: int): seq<int> {
    var sorted := SortDesc(rankings + [s]);
    if |sorted| > RANKING_SIZE then sorted[..|sorted| - 1] else sorted
  }

  /** On a leaderboard of at most RANKING_SIZE entries, adding a score gives a
      descending list of at most RANKING_SIZE entries holding all the old entries
      and `s`, except one smallest entry when there were too many. */
  lemma {:induction false} AddToRankingsCorrect(rankings: seq<int>, s: int)
    requires |rankings| <= RANKING_SIZE
    ensures var r := AddToRankings(rankings, s);
      && Descending(r)
      && |r| == (if |rankings| < RANKING_SIZE then |rankings| + 1 else RANKING_SIZE)
      && multiset(r) <= multiset(rankings + [s])
      && (|rankings| < RANKING_SIZE ==> multiset(r) == multiset(rankings + [s]))
      && forall x, y :: x in r && y in multiset(rankings + [s]) - multiset(r) ==> y <= x
  {
    var all := rankings + [s];
    var sorted := SortDesc(all);
    SortDescCorrect(all);
    var r := AddToRankings(rankings, s);
    if |sorted| > RANKING_SIZE {
      assert sorted == r + [sorted[|sorted| - 1]];
      var last := sorted[|sorted| - 1];
      assert multiset(all) == multiset(r) + multiset{last};
      assert multiset(all) - multiset(r) == multiset{last};
      forall x | x in r ensures last <= x {
        var k :| 0 <= k < |r| && r[k] == x;
        assert sorted[k] == x;
      }
    }
  }

  /** SortDesc gives any descending rearrangement of its input. */
  lemma SortDescIs(s: seq<int>, t: seq<int>)
    requires Descending(t) && multiset(t) == multiset(s)
    ensures SortDesc(s) == t
  {
    SortDescCorrect(s);
    DescendingUnique(SortDesc(s), t);
  }

  /** Adding a score to a leaderboard that does not overflow gives the descending
      rearrangement of the old entries and the score. */
  lemma AddWithoutDrop(rankings: seq<int>, s: int, t: seq<int>)
    requires |rankings| < RANKING_SIZE
    requires Descending(t) && multiset(t) == multiset(rankings + [s])
    ensures AddToRankings(rankings, s) == t
  {
    SortDescIs(rankings + [s], t);
  }

  /** Adding a score to a full leaderboard gives the descending rearrangement of
      the old entries and the score without its last, smallest, entry. */
  lemma AddWithDrop(rankings: seq<int>, s: int, t: seq<int>, last: int)
    requires |rankings| == RANKING_SIZE
    requires Descending(t + [last]) && multiset(t + [last]) == multiset(rankings + [s])
    ensures AddToRankings(rankings, s) == t
  {
    SortDescIs(rankings + [s], t + [last]);
    assert (t + [last])[..|t|] == t;
  }

  /** The first two games of the example below: the higher score goes first. */
  lemma TwoGamesExample()
    ensures AddToRankings(AddToRankings([], 10), 50) == [50, 10]
  {
    AddWithoutDrop([], 10, [10]);
    AddWithoutDrop([10], 50, [50, 10]);
  }

  /** The third game of the example below lands in the middle. */
  lemma ThreeGamesExample()
    ensures AddToRankings(AddToRankings(AddToRankings([], 10), 50), 30) == [50, 30, 10]
  {
    TwoGamesExample();
    AddWithoutDrop([50, 10], 30, [50, 30, 10]);
  }

  /** The fourth game of the example below. */
  lemma FourGamesExample()
    ensures AddToRankings(AddToRankings(AddToRankings(AddToRankings([], 10), 50), 30), 90)
         == [90, 50, 30, 10]
  {
    ThreeGamesExample();
    AddWithoutDrop([50, 30, 10], 90, [90, 50, 30, 10]);
  }

  /** The fifth game of the example below fills the board. */
  lemma FiveGamesExample()
    ensures AddToRankings(AddToRankings(AddToRankings(AddToRankings(AddToRankings(
              [], 10), 50), 30), 90), 20) == [90, 50, 30, 20, 10]
  {
    FourGamesExample();
    AddWithoutDrop([90, 50, 30, 10], 20, [90, 50, 30, 20, 10]);
  }

  /** Scores 10, 50, 30, 90, 20 and 5 ending six games in a row leave the
      leaderboard at 90, 50, 30, 20, 10: the sixth score falls off the full board. */
  lemma SixGamesExample()
    ensures AddToRankings(AddToRankings(AddToRankings(AddToRankings(AddToRankings(
              AddToRankings([], 10), 50), 30), 90), 20), 5) == [90, 50, 30, 20, 10]
  {
    FiveGamesExample();
    AddWithDrop([90, 50, 30, 20, 10], 5, [90, 50, 30, 20, 10], 5);
  }
}
