# Music recommendation app: category filter and session recommendation state

This project models the logic of `app_pop.py`, a single-page music
recommendation app. The app shows a catalog of songs grouped into
categories. For the category picked in the sidebar it recommends the most
popular song. A "Get Another Song" button then draws further songs at
random from the same category. The model has four parts:

- `Catalog` (`catalog.dfy`) holds the pure computations. It builds the
  sidebar's category list: the distinct `category` values of the main
  table in order of first appearance, then the synthetic "Trending Now".
  It builds the table shown for a category: the main-table rows of that
  category in table order, or the whole trending table for "Trending Now".
  It also picks the row that `nlargest(1, 'popularity')` or
  `nsmallest(1, 'Ranking')` takes, which is the first best row on ties.
- `Player` (`player.dfy`) builds the inline-frame markup `play_song`
  returns. It also reads the track back out of that markup.
- `Recommender` (`session.dfy`) holds the `Session` class. Its fields are
  the three session entries `initial_recommendation`, `last_category` and
  `recommended_songs`, each possibly absent. `Render` models the "Most
  Popular Song" block and `AnotherSong` the button's block. `Rerun` is one
  top-to-bottom run of the script.
- `RecommenderExample` (`session.dfy`) holds two small client sessions.
  Each shows a consequence of the code as written.

The main and trending tables share one row type, `Song`. `id` is
`track_id` or `spotify_id`, and `name` is `track_name` or `song`. `artist`
is `artists` or `artist`, and `score` is `popularity` or `Ranking`.
`ScoreColumn` records which score a stored recommendation carries, and so
whether higher or lower is better.

The model follows the code, including where the code departs from its own
comments:

- "Get Another Song" excludes only the initial recommendation's id. The
  comment at `app_pop.py:119` speaks of excluding the songs already
  recommended, but `recommended_songs` is written at lines 102, 121 and
  142 and never read, so a drawn song can be drawn again. With at least
  one row whose id differs from the initial recommendation's, the button
  never reports that the category is exhausted.
  `RecommenderExample.PopSession` shows this: three presses on a
  three-song category all succeed.
- A drawn song does not replace the stored recommendation. Only the
  history grows.
- The conditional at `app_pop.py:124` has two identical branches. The two
  branches at line 125 differ only in the id column's name, so both are
  one `Remaining`.
- An empty table leaves the session untouched. It is not cleared.
- Recomputation depends on the category label alone. After a switch of
  dataset, the stored recommendation of an equally named category stays,
  even though the new table does not hold it
  (`RecommenderExample.SwitchDatasetSameLabel`).

Line 124 reads the stored recommendation's track id. If no recommendation
is stored, that lookup fails. This case is the `MissingRecommendation`
outcome. `Session.Rerun` proves it never arises in a full run of the
script, because the display block always stores a recommendation first.

## Model

| member | source | states |
|---|---|---|
| `Catalog.Select` | app_pop.py:71 | A boolean mask keeps exactly the rows that pass the test, and never more rows than the table has |
| `Catalog.SelectAppend` | app_pop.py:71 | Masking a concatenation masks each part and keeps the parts' order |
| `Catalog.SelectKeepsAll` | app_pop.py:71 | A mask returns the whole table exactly when every row passes |
| `Catalog.FirstIndex` | app_pop.py:66 | The first position of a value: it holds the value and no earlier position does |
| `Catalog.Distinct` | app_pop.py:66 | `unique()`: the same values as the column, each exactly once, ordered by first appearance in the column |
| `Catalog.Categories` | app_pop.py:66 | The sidebar list ends with "Trending Now". Before it come each category of the main table, exactly once, in order of first appearance, and nothing else |
| `Catalog.EveryRowReachable` | app_pop.py:66-73 | Every main-table row's category is offered, and selecting it shows the row (unless the label is "Trending Now") |
| `Catalog.Filter` | app_pop.py:70-73 | "Trending Now" shows the trending table unchanged. Any other category shows exactly the main-table rows with that category |
| `Catalog.FilterKeepsOrder` | app_pop.py:71 | The filtered table keeps the main table's row order: filtering a concatenation concatenates the filtered parts |
| `Catalog.FilterOneRow` | app_pop.py:71 | A one-row table keeps its row exactly when the row is in the category |
| `Catalog.SingleCategoryShowsAll` | app_pop.py:71 | When every row has the selected category, the filter returns the table unchanged |
| `Catalog.BestIndex` | app_pop.py:85-94 | The row `nlargest(1)` / `nsmallest(1)` takes: its popularity is >= every row's, or its Ranking <= every row's. Every earlier row is strictly worse, so the first wins ties |
| `Catalog.FirstBestUnique` | app_pop.py:85-94 | Only one row is first best, so the pick is determined by the table |
| `Catalog.Pick` | app_pop.py:83-100 | The initial recommendation is the record of a first best row, carrying popularity for an ordinary category and Ranking for "Trending Now" |
| `Player.EmbedUrl` | app_pop.py:16 | The embed address is the service's track endpoint followed by the track id |
| `Player.PlayerHtml` | app_pop.py:14-23 | The markup is the frame opening, the track's embed address, then the fixed frame attributes |
| `Player.EmbeddedTrackId` | app_pop.py:14-23 | Reads a track id out of markup of the player's shape; a found id fits the markup's length exactly |
| `Player.TrackIdRoundTrip` | app_pop.py:14-23 | Reading the track out of a player's markup gives back the track it was built for |
| `Player.EmbeddedTrackIdSound` | app_pop.py:14-23 | Markup of the player's shape is exactly the player built for the track it embeds |
| `Player.PlayerHtmlInjective` | app_pop.py:14-23 | Different tracks get different players |
| `Recommender.Remaining` | app_pop.py:124-127 | The rows the button may draw from are exactly those whose id differs from the initial recommendation's. The set is empty exactly when every row has that id |
| `Recommender.Session.constructor` | app_pop.py:82 | A new session stores none of the three entries |
| `Recommender.Session.Render` | app_pop.py:81-114 | Empty table: nothing shown, no entry changed. Otherwise the state is recomputed exactly when no recommendation is stored or the stored category differs. A recompute stores the first best row, the selected category, and a history of just that id. Otherwise nothing changes. The stored recommendation is shown |
| `Recommender.Session.AnotherSong` | app_pop.py:117-153 | Empty table: nothing happens. No stored recommendation: the history is created empty and the lookup fails. Otherwise, if every row has the initial id, "no more songs" and no change. Else a row of the table with a different id is drawn and exactly its id is appended to the history. The recommendation and category never change |
| `Recommender.Session.Rerun` | app_pop.py:79-153 | One run of the script: a recommendation is shown exactly when the table is non-empty, and then it is stored for the selected category. The button answers exactly when pressed and never hits the missing-recommendation lookup. A drawn song is in the table and differs from the shown one. "No more songs" means every row has the shown id |
| `RecommenderExample.PopSession` | app_pop.py:117-153 | On a three-song category with popularities 90, 70 and 50, the first song is recommended. Three presses all draw one of the other two: no press ever reports exhaustion, so a song repeats |
| `RecommenderExample.SwitchDatasetSameLabel` | app_pop.py:82 | After switching to a table with the same category label, the previous table's recommendation is still shown |

## Left out

- Rendering (title, headers, text lines, the sidebar widgets, the button, the HTML component): they display values and decide nothing. The sidebar choice and the button state are parameters of `Session.Rerun`.
- Loading and caching the CSV files (`load_main_data`, `load_trending_data`): the main and trending tables are given sequences.
- The dataset-type and dataset-variant dropdowns and the file-name mapping: they only choose which main table is passed in.
- Session.AnotherSong: the draw is any remaining row, not a uniformly random one, because probabilities cannot be stated here.
- Missing values and column types: scores are integers with no missing values. Category labels are strings, although a CSV may hold them as numbers.
- The text the app writes for a recommendation (track, artist, popularity or ranking): it is a display of the stored record's or the drawn row's fields (the drawn row is `Next(song)`).
