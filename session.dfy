/**
 * The per-session recommendation state and the two things that change it:
 * showing the most popular song of the selected category, and the
 * "Get Another Song" button.
 */
module Recommender {
  import opened Wrappers
  import opened Catalog

  /** What pressing "Get Another Song" produced. */
  datatype Draw =
    | EmptyCategory          // the shown table has no rows: the button does nothing
    | MissingRecommendation  // no initial recommendation is stored: the lookup of its track fails
    | NoMoreSongs            // every row has the initial recommendation's track id
    | Next(song: Song)       // a row drawn at random from the remaining rows

  /** The mask `track_id != initialTrackId` (`spotify_id` for the trending table). */
  function IdIsNot(trackId: string): Song -> bool
  {
    (row: Song) => row.id != trackId
  }

  /**
   * The rows "Get Another Song" may draw from: those of the shown table
   * whose id differs from the initial recommendation's. The history of
   * recommended ids plays no part.
   */
  function Remaining(t: seq<Song>, initialTrackId: string): (r: seq<Song>)
    ensures forall row :: row in r <==> row in t && row.id != initialTrackId
    ensures r == [] <==> forall i :: 0 <= i < |t| ==> t[i].id == initialTrackId
  {
    var r := Select(t, IdIsNot(initialTrackId));
    assert r != [] ==> r[0] in r;
    r
  }

  /** The session entries `initial_recommendation`, `last_category` and `recommended_songs`. */
  class Session {
    var initial: Option<Recommendation>
    var lastCategory: Option<string>
    var recommended: Option<seq<string>>

    /**
     * The initial recommendation and its category are stored together, and
     * while they are, the history is stored and starts with that track.
     */
    ghost predicate Valid()
      reads this
    {
      (initial.Some? <==> lastCategory.Some?) &&
      (initial.Some? ==>
         recommended.Some? && |recommended.value| > 0 && recommended.value[0] == initial.value.trackId)
    }

    /** A fresh session stores nothing. */
    constructor ()
      ensures Valid()
      ensures initial == None && lastCategory == None && recommended == None
    {
      initial, lastCategory, recommended := None, None, None;
    }

    /** The stored recommendation must be recomputed for `selected`. */
    predicate Stale(selected: string)
      reads this
    {
      initial.None? || lastCategory != Some(selected)
    }

    /**
     * The "Most Popular Song" block: for a non-empty table, recompute the
     * recommendation when it is missing or was made for another category,
     * then show the stored one; for an empty table, show nothing and touch
     * nothing.
     */
    method Render(selected: string, main: seq<Song>, trending: seq<Song>) returns (shown: Option<Recommendation>)
      requires Valid()
      modifies this
      ensures Valid()
      ensures Filter(main, trending, selected) == [] ==>
        shown == None && initial == old(initial) && lastCategory == old(lastCategory) && recommended == old(recommended)
      ensures Filter(main, trending, selected) != [] && !old(Stale(selected)) ==>
        shown == initial && initial == old(initial) && lastCategory == old(lastCategory) && recommended == old(recommended)
      ensures Filter(main, trending, selected) != [] && old(Stale(selected)) ==>
        && initial == Some(Pick(Filter(main, trending, selected), selected))
        && lastCategory == Some(selected)
        && recommended == Some([initial.value.trackId])
        && shown == initial
    {
      var t := Filter(main, trending, selected);
      if t != [] {
        if Stale(selected) {
          initial := Some(Pick(t, selected));
          lastCategory := Some(selected);
          recommended := Some([initial.value.trackId]);
        }
        shown := initial;
      } else {
        shown := None;
      }
    }

    /**
     * The "Get Another Song" button: draw some row of the shown table whose
     * id differs from the initial recommendation's and append its id to the
     * history. The draw is uniform in the app; here it is any such row.
     */
    method AnotherSong(selected: string, main: seq<Song>, trending: seq<Song>) returns (draw: Draw)
      requires Valid()
      modifies this
      ensures Valid()
      ensures initial == old(initial) && lastCategory == old(lastCategory)
      ensures Filter(main, trending, selected) == [] ==>
        draw == EmptyCategory && recommended == old(recommended)
      ensures Filter(main, trending, selected) != [] && old(initial).None? ==>
        draw == MissingRecommendation && recommended == Some(old(recommended).GetOr([]))
      ensures Filter(main, trending, selected) != [] && old(initial).Some? ==>
        var rest := Remaining(Filter(main, trending, selected), old(initial).value.trackId);
        if rest == [] then
          draw == NoMoreSongs && recommended == old(recommended)
        else
          && draw.Next?
          && draw.song in Filter(main, trending, selected)
          && draw.song.id != old(initial).value.trackId
          && recommended == Some(old(recommended).value + [draw.song.id])
    {
      var t := Filter(main, trending, selected);
      if t == [] {
        return EmptyCategory;
      }
      if recommended.None? {
        recommended := Some([]);
      }
      if initial.None? {
        return MissingRecommendation;
      }
      var rest := Remaining(t, initial.value.trackId);
      if rest == [] {
        return NoMoreSongs;
      }
      var song :| song in rest;
      recommended := Some(recommended.value + [song.id]);
      draw := Next(song);
    }

    /**
     * One run of the script for the sidebar's `selected` category, with the
     * button `pressed` or not: the "Most Popular Song" block, then the
     * button's block.
     */
    method Rerun(selected: string, main: seq<Song>, trending: seq<Song>, pressed: bool)
      returns (shown: Option<Recommendation>, draw: Option<Draw>)
      requires Valid()
      modifies this
      ensures Valid()
      ensures shown.Some? <==> Filter(main, trending, selected) != []
      ensures shown.Some? ==> initial == shown && lastCategory == Some(selected)
      ensures draw.Some? <==> pressed
      ensures draw != Some(MissingRecommendation)
      ensures draw.Some? && draw.value.Next? ==>
        shown.Some? && draw.value.song in Filter(main, trending, selected) && draw.value.song.id != shown.value.trackId
      ensures draw.Some? && draw.value.NoMoreSongs? ==>
        shown.Some? && forall row :: row in Filter(main, trending, selected) ==> row.id == shown.value.trackId
    {
      shown := Render(selected, main, trending);
      if pressed {
        var d := AnotherSong(selected, main, trending);
        draw := Some(d);
      } else {
        draw := None;
      }
    }
  }
}

/**
 * A session over three "Pop" songs A (popularity 90), B (70) and C (50).
 * The initial recommendation is A; since only A's id is ever excluded,
 * every press of "Get Another Song" draws B or C again, and the button
 * never reports that the category is exhausted.
 */
module RecommenderExample {
  import opened Wrappers
  import opened Catalog
  import opened Recommender

  method PopSession() returns (shown: Option<Recommendation>, draws: seq<Draw>)
    ensures shown.Some? && shown.value.trackId == "A" && shown.value.score == 90
    ensures |draws| == 3
    ensures forall d :: d in draws ==> d.Next? && d.song.id in {"B", "C"}
  {
    var a := Song("A", "Song A", "Artist A", 90, "Pop");
    var b := Song("B", "Song B", "Artist B", 70, "Pop");
    var c := Song("C", "Song C", "Artist C", 50, "Pop");
    var main := [a, b, c];
    assert "Pop" != TrendingNow by {
      assert |"Pop"| != |TrendingNow|;
    }
    assert Filter(main, [], "Pop") == main by {
      SingleCategoryShowsAll(main, [], "Pop");
    }
    PickIsFirstRow(main, "Pop");
    var session := new Session();
    shown := session.Render("Pop", main, []);
    var d1 := PressOnPop(session, main);
    var d2 := PressOnPop(session, main);
    var d3 := PressOnPop(session, main);
    draws := [d1, d2, d3];
  }

  /** When the first row scores best and strictly beats the rest, it is the initial recommendation. */
  lemma PickIsFirstRow(t: seq<Song>, selected: string)
    requires t != [] && selected != TrendingNow
    requires forall j :: 0 < j < |t| ==> t[j].score < t[0].score
    ensures Pick(t, selected) == Recommend(t[0], Popularity)
  {
    var r := Pick(t, selected);
    assert IsFirstBest(t, 0, Popularity);
    var k: nat :| IsFirstBest(t, k, r.column) && r == Recommend(t[k], r.column);
    FirstBestUnique(t, 0, k, Popularity);
  }

  /** One press of "Get Another Song" while A is the stored recommendation for "Pop". */
  method PressOnPop(session: Session, main: seq<Song>) returns (d: Draw)
    requires session.Valid()
    requires |main| == 3 && main[0].id == "A" && main[1].id == "B" && main[2].id == "C"
    requires Filter(main, [], "Pop") == main
    requires session.initial == Some(Recommend(main[0], Popularity))
    modifies session
    ensures session.Valid() && session.initial == old(session.initial)
    ensures d.Next? && d.song.id in {"B", "C"}
  {
    assert main[1] in Remaining(main, "A");
    d := session.AnotherSong("Pop", main, []);
    assert d.song in main;
  }

  /**
   * Switching the dataset while keeping the category label: the stored
   * recommendation is kept, although no row of the new table carries it.
   */
  method SwitchDatasetSameLabel() returns (before: Option<Recommendation>, after: Option<Recommendation>)
    ensures before.Some? && after == before
    ensures after.value.trackId == "A"
  {
    var first := [Song("A", "Song A", "Artist A", 90, "0")];
    var second := [Song("Z", "Song Z", "Artist Z", 10, "0")];
    assert "0" != TrendingNow by {
      assert |"0"| != |TrendingNow|;
    }
    assert Filter(first, [], "0") == first by {
      SingleCategoryShowsAll(first, [], "0");
    }
    assert Filter(second, [], "0") == second by {
      SingleCategoryShowsAll(second, [], "0");
    }
    var session := new Session();
    before := session.Render("0", first, []);
    after := session.Render("0", second, []);
  }
}
