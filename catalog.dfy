/**
 * The song tables and the pure computations the app performs on them:
 * the category list offered in the sidebar, the table shown for a
 * category, and the row chosen as a category's most popular song.
 */
module Catalog {

  /** The synthetic category that shows the separate trending table. */
  const TrendingNow: string := "Trending Now"

  /**
   * One row of a song table. A main-table row carries `track_id`,
   * `track_name`, `artists`, `popularity` and `category`; a trending-table
   * row carries `spotify_id`, `song`, `artist` and `Ranking`, and its
   * `category` is never consulted.
   */
  datatype Song = Song(id: string, name: string, artist: string, score: int, category: string)

  /** Which column a table is ranked by: popularity (higher is better) or Ranking (lower is better). */
  datatype ScoreColumn = Popularity | Ranking

  /** The record the session keeps for a recommended song. */
  datatype Recommendation = Recommendation(trackId: string, trackName: string, artist: string, score: int, column: ScoreColumn)

  // ---------------------------------------------------------------------
  // Selecting rows
  // ---------------------------------------------------------------------

  /** The elements of `s` that satisfy `p`, in their original order (a boolean mask on a table). */
  function Select<T(==, !new)>(s: seq<T>, p: T -> bool): (r: seq<T>)
    ensures |r| <= |s|
    ensures forall x :: x in r <==> x in s && p(x)
  {
    if s == [] then [] else (if p(s[0]) then [s[0]] else []) + Select(s[1..], p)
  }

  /** Selecting from a concatenation selects from each part, keeping the parts' order. */
  lemma {:induction false} SelectAppend<T(!new)>(a: seq<T>, b: seq<T>, p: T -> bool)
    ensures Select(a + b, p) == Select(a, p) + Select(b, p)
  {
    if a == [] {
      assert a + b == b;
    } else {
      assert (a + b)[1..] == a[1..] + b;
      SelectAppend(a[1..], b, p);
    }
  }

  /** A selection keeps every row exactly when every row passes the test. */
  lemma {:induction false} SelectKeepsAll<T(!new)>(s: seq<T>, p: T -> bool)
    ensures Select(s, p) == s <==> forall i :: 0 <= i < |s| ==> p(s[i])
  {
    if s != [] {
      SelectKeepsAll(s[1..], p);
      if !p(s[0]) {
        assert |Select(s, p)| < |s|;
      }
    }
  }

  // ---------------------------------------------------------------------
  // The category list
  // ---------------------------------------------------------------------

  /** The position of the first occurrence of `x` in `s`. */
  function FirstIndex<T(==, !new)>(s: seq<T>, x: T): (i: nat)
    requires x in s
    ensures i < |s| && s[i] == x && x !in s[..i]
  {
    if s[0] == x then 0
    else
      var i := FirstIndex(s[1..], x);
      assert s[..i + 1] == [s[0]] + s[1..][..i];
      i + 1
  }

  lemma {:induction false} FirstIndexInPrefix<T(!new)>(s: seq<T>, n: nat, x: T)
    requires n <= |s| && x in s[..n]
    ensures FirstIndex(s[..n], x) == FirstIndex(s, x)
  {
    if s[0] != x {
      assert s[..n] == [s[0]] + s[1..][..n - 1];
      assert x in s[1..][..n - 1];
      assert s[..n][1..] == s[1..][..n - 1];
      FirstIndexInPrefix(s[1..], n - 1, x);
    }
  }

  lemma FirstIndexOfNewLast<T(!new)>(s: seq<T>)
    requires s != [] && s[|s| - 1] !in s[..|s| - 1]
    ensures FirstIndex(s, s[|s| - 1]) == |s| - 1
  {
  }

  /**
   * The distinct values of `s`, each once, in order of first appearance
   * (the behaviour of pandas' `Series.unique`).
   */
  function Distinct<T(==, !new)>(s: seq<T>): (r: seq<T>)
    ensures forall x :: x in r <==> x in s
    ensures forall i, j :: 0 <= i < j < |r| ==> r[i] != r[j]
    ensures forall i, j :: 0 <= i < j < |r| ==> FirstIndex(s, r[i]) < FirstIndex(s, r[j])
  {
    if s == [] then []
    else
      var init, last := s[..|s| - 1], s[|s| - 1];
      assert s == init + [last];
      var u := Distinct(init);
      assert forall x :: x in init ==> FirstIndex(init, x) == FirstIndex(s, x) by {
        forall x | x in init {
          FirstIndexInPrefix(s, |s| - 1, x);
        }
      }
      if last in u then u
      else
        FirstIndexOfNewLast(s);
        u + [last]
  }

  /** The `category` column of a table. */
  function CategoryColumn(t: seq<Song>): seq<string>
  {
    seq(|t|, i requires 0 <= i < |t| => t[i].category)
  }

  /**
   * The categories offered in the sidebar: the distinct categories of the
   * main table in order of first appearance, then "Trending Now".
   */
  function Categories(main: seq<Song>): (r: seq<string>)
    ensures |r| > 0 && r[|r| - 1] == TrendingNow
    ensures forall i :: 0 <= i < |main| ==> main[i].category in r[..|r| - 1]
    ensures forall k :: 0 <= k < |r| - 1 ==> exists i :: 0 <= i < |main| && main[i].category == r[k]
    ensures forall i, j :: 0 <= i < j < |r| - 1 ==> r[i] != r[j]
    ensures forall k :: 0 <= k < |r| - 1 ==> r[k] in CategoryColumn(main)
    ensures forall i, j :: 0 <= i < j < |r| - 1 ==>
      FirstIndex(CategoryColumn(main), r[i]) < FirstIndex(CategoryColumn(main), r[j])
  {
    var d := Distinct(CategoryColumn(main));
    DistinctCategoriesOfRows(main);
    var r := d + [TrendingNow];
    assert r[..|r| - 1] == d;
    r
  }

  /** The distinct categories are exactly the categories the rows carry. */
  lemma DistinctCategoriesOfRows(main: seq<Song>)
    ensures forall i :: 0 <= i < |main| ==> main[i].category in Distinct(CategoryColumn(main))
    ensures forall k :: 0 <= k < |Distinct(CategoryColumn(main))| ==>
      exists i :: 0 <= i < |main| && main[i].category == Distinct(CategoryColumn(main))[k]
  {
    var col := CategoryColumn(main);
    var d := Distinct(col);
    forall k | 0 <= k < |d| ensures exists i :: 0 <= i < |main| && main[i].category == d[k] {
      var i := FirstIndex(col, d[k]);
      assert main[i].category == d[k];
    }
    forall i | 0 <= i < |main| ensures main[i].category in d {
      assert col[i] in col;
    }
  }

  // ---------------------------------------------------------------------
  // The table shown for a category
  // ---------------------------------------------------------------------

  /** The mask `df_main['category'] == c`. */
  function CategoryIs(c: string): Song -> bool
  {
    (row: Song) => row.category == c
  }

  /**
   * The rows shown for `selected`: the trending table for "Trending Now",
   * otherwise the main-table rows of that category in table order.
   */
  function Filter(main: seq<Song>, trending: seq<Song>, selected: string): (r: seq<Song>)
    ensures selected == TrendingNow ==> r == trending
    ensures selected != TrendingNow ==> forall row :: row in r <==> row in main && row.category == selected
    ensures selected != TrendingNow ==> |r| <= |main|
  {
    if selected != TrendingNow then Select(main, CategoryIs(selected)) else trending
  }

  /**
   * Filtering an ordinary category keeps the table order: the rows taken
   * from the front of the table come before those taken from the back.
   */
  lemma FilterKeepsOrder(a: seq<Song>, b: seq<Song>, trending: seq<Song>, selected: string)
    requires selected != TrendingNow
    ensures Filter(a + b, trending, selected) == Filter(a, trending, selected) + Filter(b, trending, selected)
  {
    SelectAppend(a, b, CategoryIs(selected));
  }

  /** A one-row table keeps its row exactly when the row is in the category. */
  lemma FilterOneRow(row: Song, trending: seq<Song>, selected: string)
    requires selected != TrendingNow
    ensures Filter([row], trending, selected) == if row.category == selected then [row] else []
  {
    assert [row][1..] == [];
  }

  /**
   * Every row of the main table is offered: its category is in the list,
   * and selecting that category shows the row (unless the row's category
   * is literally "Trending Now", which the trending table shadows).
   */
  lemma EveryRowReachable(main: seq<Song>, trending: seq<Song>, i: nat)
    requires i < |main|
    ensures main[i].category in Categories(main)
    ensures main[i].category != TrendingNow ==> main[i] in Filter(main, trending, main[i].category)
  {
    var r := Categories(main);
    assert main[i].category in r[..|r| - 1];
  }

  /** A category that holds every row of the main table shows the whole table. */
  lemma SingleCategoryShowsAll(main: seq<Song>, trending: seq<Song>, c: string)
    requires c != TrendingNow
    requires forall i :: 0 <= i < |main| ==> main[i].category == c
    ensures Filter(main, trending, c) == main
  {
    SelectKeepsAll(main, CategoryIs(c));
  }

  // ---------------------------------------------------------------------
  // The most popular song
  // ---------------------------------------------------------------------

  /** The column that ranks the table shown for `selected`. */
  function ColumnFor(selected: string): ScoreColumn
  {
    if selected != TrendingNow then Popularity else Ranking
  }

  /**
   * Row `k` is the first best row of `t` for `column`: no row scores
   * better, and every earlier row scores strictly worse.
   */
  ghost predicate IsFirstBest(t: seq<Song>, k: nat, column: ScoreColumn)
  {
    k < |t| &&
    match column
    case Popularity =>
      (forall j :: 0 <= j < |t| ==> t[j].score <= t[k].score) &&
      (forall j :: 0 <= j < k ==> t[j].score < t[k].score)
    case Ranking =>
      (forall j :: 0 <= j < |t| ==> t[k].score <= t[j].score) &&
      (forall j :: 0 <= j < k ==> t[k].score < t[j].score)
  }

  /** There is only one first best row. */
  lemma FirstBestUnique(t: seq<Song>, k1: nat, k2: nat, column: ScoreColumn)
    requires IsFirstBest(t, k1, column) && IsFirstBest(t, k2, column)
    ensures k1 == k2
  {
    assert t[k1].score == t[k2].score;
  }

  /**
   * The position `nlargest(1, 'popularity')` (for Popularity) or
   * `nsmallest(1, 'Ranking')` (for Ranking) takes: the first best row.
   */
  function BestIndex(t: seq<Song>, column: ScoreColumn): (k: nat)
    requires t != []
    ensures IsFirstBest(t, k, column)
  {
    if |t| == 1 then 0
    else
      var last := t[|t| - 1];
      var k := BestIndex(t[..|t| - 1], column);
      var better := match column
        case Popularity => last.score > t[k].score
        case Ranking => last.score < t[k].score;
      if better then |t| - 1 else k
  }

  /** The record stored for `row` when the table is ranked by `column`. */
  function Recommend(row: Song, column: ScoreColumn): Recommendation
  {
    Recommendation(row.id, row.name, row.artist, row.score, column)
  }

  /**
   * The initial recommendation for `selected` out of its non-empty table:
   * the record of the first most popular row (ordinary categories) or of
   * the first lowest-ranked row ("Trending Now").
   */
  function Pick(t: seq<Song>, selected: string): (r: Recommendation)
    requires t != []
    ensures r.column == ColumnFor(selected)
    ensures exists k: nat :: IsFirstBest(t, k, r.column) && r == Recommend(t[k], r.column)
  {
    var column := ColumnFor(selected);
    var k := BestIndex(t, column);
    Recommend(t[k], column)
  }
}
