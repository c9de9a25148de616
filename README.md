# NBA scoring dashboard — verified model of its data core

The dashboard loads a table of NBA player statistics. It turns each
player's made three-pointers, two-pointers and free throws into a long
(Player, Shot Type, Points) table, filters that table by points per game,
team and position, and draws it as a Sankey diagram. This project models
the data-handling core of that program and proves what it computes:

- `make_sankey` (module `Sankey`, sankey.dfy). For each adjacent pair of
  stage columns it groups and sums the rows, concatenates the per-pair
  link lists, builds the label list and the label-to-index dictionary,
  relabels the links, and fills in the node-option defaults. The method
  `MakeSankey` runs `StageLinks`, the loop over the stage pairs, and then
  `BuildDiagram`, which builds the labels, the dictionary and the
  relabelled links. They are proved against the specification functions
  `GroupSum`, `AllLinks`, `Unique` and `LabelIndex`.
- The `API` class (module `Api`, api.dfy). It holds the mutable `stats`
  field. `get_position` is a method; its two nested loops are the method
  `CollectPositions`, proved against the reference set `Positions`.
  `extract_local_network` is the pure pipeline `LocalNetwork`: column
  selection, then `Extracted`, which melts and applies the positive-points
  filter. The Shot Type column only ever holds the names of the three
  melted columns, so it is the enumeration `ShotType`, and `Name` gives
  each value's column name.
- The row filtering of the explorer's `get_catalog` callback (module
  `Explorer`, explorer.dfy). `GetCatalog` reassigns `local` step by step,
  as the callback does, and is proved equal to the specification
  function `Catalog`. The lemmas then characterise that function.
- The parts of Python's `str` the core relies on (module `Text`,
  text.dfy): code-point order and `sorted` on a set, `strip`, `upper`,
  `split` and `join`. `Common` (common.dfy) holds `Option`, `Result` and
  the exceptions the core raises.

Table cells that may be NaN are `Option`s, or are absent from a row's
map. Numbers are `real`. Python exceptions are `Failure` values:
- `KeyError` names the missing column;
- `AttributeError` is raised by `get_position` before a table is loaded;
- `TypeError` is raised by `extract_local_network` before a table is
  loaded;
- `ValueError` names the column `reset_index()` in `make_sankey` cannot
  insert because the frame already has it. This happens when two adjacent
  stage columns are the same column, or when a stage column is the value
  column.

Where the documented behaviour and the code disagree, the model follows
the code:

- **Label order.** Labels are all distinct source labels in link order,
  then the target labels not seen yet (sankey.py:14). They are not
  interleaved link by link. `Sankey.LabelOrder` states this.
- **NaN values.** A group whose value cells are all NaN still gives a
  link, with value 0. pandas' `sum` skips NaN, so "no zero-valued link"
  does not hold (sankey.py:10).
- **Fewer than two stage columns.** The loop never runs and
  `sankey_data` has no `src` column, so `make_sankey` raises
  `KeyError('src')` (sankey.py:14). It does not return an empty diagram.
- **Position filter.** The filter in `get_catalog` compares the raw
  `Pos` cell with the chosen positions exactly (explorer.py:51). The
  checkbox options are the upper-cased, `;`-split, stripped parts that
  `get_position` lists. `Explorer.PositionPlayers` models the exact
  comparison as written.

## Model

| member | source | states |
|---|---|---|
| Text.LessIrreflexive | api.py:29 | no string sorts before itself in Python's code-point order |
| Text.LessTransitive | api.py:29 | the order `sorted` uses is transitive |
| Text.LessTotal | api.py:29 | any two distinct strings are ordered one way or the other |
| Text.SortedSet | api.py:29 | `sorted(play)` is strictly ascending, has exactly the set's elements, and has as many entries as the set |
| Text.StripLeftShape | api.py:27 | `lstrip` removes a prefix that is all whitespace, and what remains does not start with whitespace |
| Text.StripRightShape | api.py:27 | `rstrip` removes a suffix that is all whitespace, and what remains does not end with whitespace |
| Text.StripShape | api.py:27 | `strip()` is a slice of the input: neither of its ends is whitespace, and everything outside it is whitespace |
| Text.Upper | api.py:21 | `upper()` keeps the length, turns each lower-case letter into its own capital ('a' into 'A', …, 'z' into 'Z'), and changes no other character |
| Text.Split | api.py:26 | `split(';')` yields at least one part, and no part contains the separator |
| Text.JoinSplit | api.py:26 | joining the parts of `split(sep)` with `sep` gives back the string |
| Text.SplitJoin | api.py:26 | splitting the join of separator-free parts gives back the parts |
| Text.SplitNoLower | api.py:21-26 | splitting an upper-cased string gives upper-cased parts |
| Text.StripNoLower | api.py:21-27 | stripping an upper-cased string leaves it upper-cased |
| Text.StripWithout | api.py:26-27 | stripping introduces no character, so a part without ';' stays without ';' |
| Sankey.PresentMeans | sankey.py:10 | a label pair is a group key iff some row carries both labels (rows missing either are dropped) |
| Sankey.KeysMeans | sankey.py:10 | a key belongs to a link list iff some link carries it |
| Sankey.AddTo | sankey.py:10 | adding a row's value to its group keeps the groups in ascending key order, adds the key, and raises that group's sum by exactly the value |
| Sankey.GroupSum | sankey.py:10-11 | `groupby([src, targ])[vals].sum()` gives groups in ascending key order, one per key; the keys are exactly the pairs present in the rows; each key's value is the reference sum `Total` |
| Sankey.LookupAt | sankey.py:10 | in an ascending group list, the value found under a link's key is that link's value |
| Sankey.GroupSumCorrect | sankey.py:10-11 | each link of a pair has its labels on some row, carries the sum of the value column over exactly those rows, and is the only link with its labels |
| Sankey.GroupSumComplete | sankey.py:10 | every row whose two labels are present has a link with those labels |
| Sankey.PairError | sankey.py:10 | a pair raises nothing iff both stage columns and the value column exist and the three names differ; a KeyError names a missing one of them (src, then targ, then vals); otherwise a ValueError names targ when it is the value column, else src, which repeats targ or the value column |
| Sankey.FirstErrorPasses | sankey.py:6-10 | the first n pairs raise nothing iff every one of them passes on its own |
| Sankey.FirstErrorIsFirst | sankey.py:6-10 | when the first n pairs raise an error, it is the error of a pair that fails while every pair before it passes |
| Sankey.FirstErrorNone | sankey.py:6-10 | the first n pairs raise nothing iff the value column and the first n + 1 stage columns exist, no stage column is the value column, and no two adjacent stage columns are the same |
| Sankey.FirstErrorSticks | sankey.py:6-10 | the first error met stays the one raised when more pairs follow |
| Sankey.AllLinksPrefix | sankey.py:12 | concatenation only appends: earlier pairs' links are a prefix of the final `sankey_data` |
| Sankey.PairSegment | sankey.py:12 | pair p's links sit together, unmerged, between those of pair p - 1 and pair p + 1 |
| Sankey.LinkSum | sankey.py:6-12 | every link of `sankey_data` belongs to one pair and carries the sum over that pair's rows with its labels |
| Sankey.Unique | sankey.py:14 | `unique()` holds exactly the input's values |
| Sankey.UniqueNoDup | sankey.py:14 | `unique()` has no duplicates |
| Sankey.Without | sankey.py:14 | the target labels kept after the sources are exactly those not among the sources |
| Sankey.UniqueConcat | sankey.py:14 | the distinct values of a + b are those of a followed by the values of b not in a, in order |
| Sankey.LabelOrder | sankey.py:14 | labels are the distinct sources in link order, then the unseen targets in link order |
| Sankey.LinkLabelsListed | sankey.py:14 | every label a link uses is in the label list |
| Sankey.ListedLabelsUsed | sankey.py:14 | every entry of the label list is the source or the target of some link |
| Sankey.LabelIndex | sankey.py:15 | `label_dict` has exactly the labels as keys, and each index points back to its label |
| Sankey.LabelIndexDense | sankey.py:15 | on duplicate-free labels the index of each label is its position; indices are injective and are exactly 0 .. n - 1 |
| Sankey.NodeStyleOf | sankey.py:20-23 | each node option is the keyword's value if given, else 15, 20, "black" and 1; other keywords are ignored |
| Sankey.MapLabels | sankey.py:17-18 | relabelling keeps the number and order of links and their values, and each index maps back to the link's original label |
| Sankey.StageLinks | sankey.py:5-14 | KeyError('src') for fewer than two columns; otherwise the KeyError or ValueError of the first failing pair; otherwise exactly the concatenated links `AllLinks` of every pair |
| Sankey.LabelsOfLinks | sankey.py:14 | the label list is `unique` of the sources then the targets, has no duplicates, and each label comes from some link |
| Sankey.BuildDiagram | sankey.py:14-23 | `Draws`: the labels as in LabelsOfLinks, one flow per link with in-range indices mapping back to its labels and carrying its value, and the node options from the keywords |
| Sankey.MakeSankey | sankey.py:4-37 | KeyError('src') for fewer than two columns; the KeyError or ValueError of the first failing pair; otherwise a diagram that `Draws` the links of all pairs with the node options |
| Api.PosColumn | api.py:20-21 | the copied Pos column has one cell per stats row |
| Api.PosColumnCell | api.py:21 | a missing Pos cell becomes "NAN" (`astype(str)` gives "nan", then `upper()`), any other is upper-cased; no cell has a lower-case letter |
| Api.StrippedMeans | api.py:26-27 | a string is collected from a Pos value iff it is the stripped form of one of its parts |
| Api.PositionsMeans | api.py:24-27 | the collected set holds a string iff some player's upper-cased Pos lists it |
| Api.PositionsShape | api.py:21-27 | every listed position is upper-case, has no whitespace at either end and contains no ';' |
| Api.API.constructor | api.py:7-8 | a new API has no table |
| Api.API.LoadStats | api.py:10-12 | after loading, `stats` is the given table |
| Api.CollectPositions | api.py:24-27 | the nested loops collect exactly the reference set `Positions` of the Pos column |
| Api.API.GetPosition | api.py:15-29 | AttributeError before loading; KeyError('Pos') without a Pos column; otherwise a strictly ascending list holding exactly the positions `Positions` defines |
| Api.API.ExtractLocalNetwork | api.py:31-45 | TypeError before loading, else the `LocalNetwork` pipeline on the loaded table |
| Api.Name | api.py:35-40 | a Shot Type label is the name of one of the melted columns 3P, 2P, FT |
| Api.Absent | api.py:35 | the KeyError names exactly the requested columns the table lacks |
| Api.AbsentConcat | api.py:35 | the missing columns are reported in the order they were requested: the report for a concatenation is each part's report in turn |
| Api.MeltColumn | api.py:38-40 | melting one column gives one row per stats row, in row order, carrying that row's player, the column as Shot Type and that row's cell as Points |
| Api.MeltLayout | api.py:38-40 | `melt` gives three blocks of one row per stats row: the 3P cells, then the 2P cells, then the FT cells, each in row order |
| Api.MeltColumnMeans | api.py:38-40 | a row is among one column's melted rows iff some stats row has its player and holds its Points in that column |
| Api.Positive | api.py:43 | the `Points > 0` filter keeps only positive rows and adds none |
| Api.PositiveConcat | api.py:43 | the filter keeps order: filtering a concatenation concatenates the filtered parts |
| Api.PositiveMeans | api.py:43 | a row is kept iff its melted row had a positive Points cell (NaN is dropped) |
| Api.Extracted | api.py:38-43 | melting and filtering gives at most three rows per stats row, all with positive Points |
| Api.LocalNetwork | api.py:35-45 | KeyError naming the missing selected columns, in selection order, when any is missing; otherwise the melted, filtered rows `Extracted` |
| Api.LocalNetworkFails | api.py:35 | the extraction fails iff one of Player, 3P, 2P, FT is missing |
| Api.ExtractedOrder | api.py:38-43 | the output is the kept 3P rows, then the kept 2P rows, then the kept FT rows, each in input order |
| Api.ExtractedMembers | api.py:35-43 | a row is in the output iff its Points is positive and some row of its player holds exactly that value in its shot type's column |
| Explorer.ShotValue | explorer.py:38-39 | `map(shot_values)` looks the Shot Type label up in `shot_values`, and every shot type is worth a positive number of points |
| Explorer.WorthMeans | explorer.py:38-39 | the points a number of made shots is worth is the shot's value times that number, and is positive iff the number is |
| Explorer.Scale | explorer.py:39 | the Points column is overwritten in place: row i of the result is row i of the input with its Points scaled, so the number, order and repeats of rows are kept |
| Explorer.ScaleMeans | explorer.py:38-39 | a row is in the scaled table iff it is the scaled form of an input row: same player and shot type, Points the worth of the input's made shots |
| Explorer.Select | explorer.py:44 | an `isin` filter never adds rows |
| Explorer.SelectMeans | explorer.py:44 | a row survives `isin(players)` iff it was there and its player is in the set |
| Explorer.SelectSelect | explorer.py:44-51 | two successive player filters equal one filter by the intersection |
| Explorer.SelectSubsequence | explorer.py:44 | a filter's result is an order-preserving subsequence of its input |
| Explorer.SelectConcat | explorer.py:44-51 | the filter decides row by row: filtering a concatenation filters each part, so every matching row is kept, repeats included, in order |
| Explorer.ScorersAntitone | explorer.py:42-43 | raising the minimum points only removes players from `player_pts[player_pts >= min_scored].index` |
| Explorer.ScorersSkipMissing | explorer.py:42-43 | a stats row with a missing PTS makes no player a scorer, since NaN compares false |
| Explorer.TeamPlayersSkipMissing | explorer.py:48 | a stats row with a missing Tm puts its player on no team |
| Explorer.PositionPlayersUnion | explorer.py:51 | the players at positions a + b are the players at a together with those at b, so ticking more positions only adds players |
| Explorer.Catalog | explorer.py:35-51 | extraction errors first, then KeyError('PTS'), then KeyError('Tm') only when a team is chosen, then KeyError('Pos') only when positions are chosen; succeeds iff none applies |
| Explorer.CatalogOrder | explorer.py:44-51 | the table is the scaled extraction filtered once by the players that pass every active filter, so it is an order-preserving subsequence of it |
| Explorer.ScaledMembers | explorer.py:35-39 | a scaled row exists iff a player's made-shot cell is positive and the row's Points is what that cell's shots are worth |
| Explorer.CatalogMembers | explorer.py:42-51 | a row is kept iff it is a scaled row whose player has PTS ≥ the minimum, is on the team unless "All", and has a raw Pos among the chosen positions unless none are chosen |
| Explorer.CatalogPositive | explorer.py:39-51 | every row of the table has positive Points |
| Explorer.GetCatalog | explorer.py:32-51 | TypeError before loading; otherwise exactly `Catalog` on the loaded table |

## Left out

- The Plotly figure (sankey.py:25-43) is left out because it is rendering. `MakeSankey` returns the labels, links and node options that it would be given.
- `pd.read_csv` is I/O. `LoadStats` takes the parsed table as an argument; CSV parsing, the ';' delimiter and the encoding are not modelled.
- `main` and its `print` in api.py are left out. So is the module-level widget setup in explorer.py: the team list, position list, sliders, `pn.bind`, the cards and the layout.
- The `Tabulator` construction (explorer.py:53) is left out because it is UI. `get_plot` and the global `local` it reads are callback glue; `Catalog` is the explicit filter function instead.
- Text.Upper: only ASCII letters are upper-cased. Python's `upper()` also maps other Unicode letters, and a few of them map to several characters.
- Sankey.GroupSum: sums are exact `real` sums, not float64 sums in pandas' order, so rounding is not modelled.
- Explorer.Scale: Points are scaled as exact reals; float64 rounding is not modelled.
- Explorer.ScaleRow: `map(shot_values)` gives NaN for a Shot Type that is not a key of `shot_values`. Shot Type is the enumeration of the three melted columns, so that case cannot arise in the model.
- Sankey.NodeStyleOf: keyword values are a number or a string. The type checks Plotly would make on them are not modelled.
- Sankey.MakeSankey: stage labels are text and `vals` names a column. The call with `vals=None`, and stage columns holding numbers or mixed types, are not modelled.
- Sankey.MakeSankey: a KeyError carries only the missing column's name and a ValueError only the column it could not insert; pandas' message text is not modelled. The same holds for `Api.API.GetPosition`, `Api.LocalNetwork` and `Explorer.Catalog`.
- A stats row with a NaN Player name is not modelled: every row's Player cell is present.
- Text.SortedSet: it specifies the result of `sorted`, not Timsort's steps.
