# Reference speed tiles, modelled in Dafny

This project models the core of `scripts/make_ref_speeds.py`. The script builds one
*reference speed tile* for a tile of the road network. It reads the decoded weekly speed
tiles of that tile id. It gathers, per road segment, every valid average speed observed in
them, and sorts those lists. It then writes one output subtile that holds the 20, 40, 60 and
80 percent speeds of every segment. The core also includes the tile hierarchy and the
relative file path (`<level>/<ddd>/…/<ddd>.spd`: two groups of three digits for the highway
and arterial levels, three for the local level) under which a tile id's files are stored.

Modules:

- `SpeedTileFormat` (`speed_tile_format.dfy`): the decoded subtile records read and written,
  and `get_tile_count`.
- `Aggregation` (`aggregation.dfy`): `createAvgSpeedList` as a method with the source's
  nested loops (files, subtiles, samples, then the sort loop). It is proved against
  specification functions: `Routed` (the accepted samples each segment receives), `Grown`
  (how many segment lists exist) and `MinStart`/`MaxEnd` (the time range).
- `AggregationProperties` (`aggregation_properties.dfy`): what those specification
  functions mean, and that the result does not depend on the order of the input files when
  the files can be processed in both orders. Whether they can is itself order-dependent
  (see "## Findings").
- `Sorting` (`sorting.dfy`): `list.sort()` on speed lists, and uniqueness of a sorted
  permutation.
- `ReferenceSpeeds` (`reference_speeds.dfy`): `createRefSpeedTile`, with the percentile
  selection and the output record, plus the main job (aggregate, then write).
- `Decimal` (`decimal.dfy`): decimal renderings and digit counts of natural numbers.
- `TileAddressing` (`tile_addressing.dfy`): `TileHierarchy`, `Tiles.__init__`,
  `Tiles.Digits` and `Tiles.GetFile`, with a path parser that inverts `GetFile`.

Modelling conventions:

- A decoded file is a `seq<Subtile>`. Its unsigned integer fields are `nat`, and the speed
  samples are `int`.
- Writing the output file is modelled as appending the output subtile to the list of subtiles
  written so far.
- A source line that raises on some input becomes a precondition. There are four:
  - `entrySize == 0`, or zero entries per segment for a subtile with samples, divides by zero
    (the `WellSizedSubtile` subset type);
  - a sample routed past the grown lists raises an IndexError (`Aggregation.Processable`);
  - `get_tile_count` on an empty tile raises, and so does a zero `subtileSegments` when
    `totalSegments` is positive (`SpeedTileFormat.TileCount`);
  - `Tiles.__init__` with a tile size of 0 divides by zero (`TileAddressing.MakeTiles`,
    `TileAddressing.CeilDiv`).
- `int(size * .2)` is the exact `size * 2 / 10`. The world box is counted in quarter degrees
  (1440 × 720), so the tile sizes 4, 1 and .25 degrees are the whole numbers 16, 4 and 1.
- `Tiles.__init__` divides with true division and rounds up (`TileAddressing.CeilDiv`). Under
  Python 2 the integer sizes 4 and 1 divide as integers and round down, but all three levels
  divide the world box evenly, so both readings give the same grids.

For level 0 the level digit `0` is a path segment of its own: tile 0 of the highway grid is
`0/000/000.spd` (`TileAddressing.FirstHighwayPath`).

## Model

| member | source | states |
|---|---|---|
| SpeedTileFormat.TileCount | scripts/make_ref_speeds.py:29-36 | 0 exactly when the first subtile's `totalSegments` is at most its `subtileSegments`; otherwise the least count of subtiles of `subtileSegments` segments that covers `totalSegments` |
| Aggregation.Accepted | scripts/make_ref_speeds.py:80 | a sample is kept exactly when it lies in (0, 160] |
| Aggregation.Entries | scripts/make_ref_speeds.py:75 | the samples per segment, `unitSize / entrySize`, are at least 1 in a subtile that has samples |
| Aggregation.LowerStart | scripts/make_ref_speeds.py:63-64 | the running `minSeconds` after a subtile is set, is at most both the old value and the subtile's `rangeStart`, and is one of them |
| Aggregation.RaiseEnd | scripts/make_ref_speeds.py:65-66 | the running `maxSeconds` after a subtile is set, is at least both the old value and the subtile's `rangeEnd`, and is one of them |
| Aggregation.SegmentOf | scripts/make_ref_speeds.py:75-78 | sample `i` goes to segment `startSegmentIndex + q`, where `q` is the block of `unitSize / entrySize` consecutive samples that holds `i` |
| Aggregation.CreateAvgSpeedList | scripts/make_ref_speeds.py:44-92 | returns exactly `Grown(files)` lists. List `j` is sorted and is a permutation of the accepted samples routed to segment `j`, and no accepted sample routes past the last list. `minSeconds` and `maxSeconds` are the folded least `rangeStart` and greatest `rangeEnd` |
| Aggregation.ProcessFile | scripts/make_ref_speeds.py:60-83 | one pass of the file loop: the lists grow to the count after this file, each list gains this file's accepted samples for its segment in file order, and the time range folds in the file's subtiles |
| Aggregation.ProcessSubtile | scripts/make_ref_speeds.py:63-83 | one pass of the subtile loop: lowers `minSeconds`, raises `maxSeconds`, grows the lists to the file's first-subtile `totalSegments` when short, then appends the subtile's accepted samples |
| Aggregation.RouteSubtile | scripts/make_ref_speeds.py:77-83 | each list `j` becomes itself followed by the subtile's samples in (0, 160] that route to `j`, in sample order. The length is unchanged, and no accepted sample routes past the end |
| Aggregation.SortEach | scripts/make_ref_speeds.py:85-90 | every list becomes sorted, holds the same multiset as before, and the number of lists is unchanged |
| Sorting.InsertSorted | scripts/make_ref_speeds.py:89 | inserting into an ascending list keeps it ascending |
| Sorting.InsertElements | scripts/make_ref_speeds.py:89 | inserting adds exactly the one new element |
| Sorting.Sort | scripts/make_ref_speeds.py:89 | `list.sort()`: the result is ascending and a permutation of the input |
| Sorting.SortedUnique | scripts/make_ref_speeds.py:85-90 | two ascending lists with the same elements are equal, so the sorted lists are determined by their contents |
| AggregationProperties.RoutedIsAcceptedSamples | scripts/make_ref_speeds.py:77-81 | a speed is in segment `j`'s list iff it is sample `i` of some subtile of some file, lies in (0, 160], and `startSegmentIndex + i / entries == j`. Speeds above 160 and non-positive speeds are never kept |
| AggregationProperties.RoutedPermutation | scripts/make_ref_speeds.py:51-83 | permuting the input files permutes each segment's collected speeds |
| AggregationProperties.GrownIsLargestTotal | scripts/make_ref_speeds.py:68-72 | the number of lists is the largest first-subtile `totalSegments` over the files that have a subtile, or 0 when none does |
| AggregationProperties.GrowthNeverShrinks | scripts/make_ref_speeds.py:68-72 | the number of lists never decreases as more files are processed |
| AggregationProperties.SelfContainedFilesAreProcessable | scripts/make_ref_speeds.py:68-81 | when each file's samples route below its own first subtile's `totalSegments`, no sample indexes past the lists |
| AggregationProperties.GrownPermutation | scripts/make_ref_speeds.py:68-72 | the number of lists does not depend on the order of the files |
| AggregationProperties.MinStartIsLeast | scripts/make_ref_speeds.py:47-64 | `minSeconds` stays `None` iff no file has a subtile; otherwise it is some subtile's `rangeStart` and no subtile starts earlier |
| AggregationProperties.MaxEndIsGreatest | scripts/make_ref_speeds.py:48-66 | `maxSeconds` stays `None` iff no file has a subtile; otherwise it is some subtile's `rangeEnd` and no subtile ends later |
| AggregationProperties.MinStartPermutation | scripts/make_ref_speeds.py:63-64 | `minSeconds` does not depend on the order of the files |
| AggregationProperties.MaxEndPermutation | scripts/make_ref_speeds.py:65-66 | `maxSeconds` does not depend on the order of the files |
| AggregationProperties.OrderIndependent | scripts/make_ref_speeds.py:44-92 | when the same files are processed without error in two orders, the two results have identical segment lists and the same time range |
| AggregationProperties.FirstSubtileGrowthIsOrderDependent | scripts/make_ref_speeds.py:67-81 | (as written) two files whose subtiles all route inside their own tiles are processed in one order and index past the lists in the other, because a file grows the lists only to its first subtile's `totalSegments` |
| AggregationProperties.SubtileGrowthIsOrderFree | scripts/make_ref_speeds.py:67-81 | (corrected) when every subtile grows the lists to its own `totalSegments`, files whose subtiles route inside their own tiles never index past the lists, in whatever order they come |
| AggregationProperties.SubtileGrowthProcessesBothOrders | scripts/make_ref_speeds.py:67-81 | (corrected) the two files of the as-written counterexample are processed in both orders |
| AggregationProperties.RoutedSampleOrigin | scripts/make_ref_speeds.py:77-81 | every speed in segment `j`'s list is an accepted sample of some subtile that routes to `j` |
| AggregationProperties.SampleIsRouted | scripts/make_ref_speeds.py:77-81 | every accepted sample that routes to segment `j` is in `j`'s list |
| ReferenceSpeeds.Rank | scripts/make_ref_speeds.py:117-120 | the index `int(size * tenths / 10)` lies inside a non-empty list |
| ReferenceSpeeds.Percentile | scripts/make_ref_speeds.py:117-120 | 0 for a segment without speeds; otherwise one of the segment's own speeds |
| ReferenceSpeeds.Buckets | scripts/make_ref_speeds.py:115-120 | one entry per segment, in segment order, entry `j` being segment `j`'s percentile |
| ReferenceSpeeds.RefSpeedTile | scripts/make_ref_speeds.py:98-120 | the output subtile: the given level and index, start segment 0, total and subtile segment counts equal to the number of lists, range `[minSeconds, maxSeconds]`, `unitSize == entrySize == maxSeconds - minSeconds`, four lists with one entry per segment, and all four 0 for a segment without data |
| ReferenceSpeeds.CreateRefSpeedTile | scripts/make_ref_speeds.py:95-129 | the loop fills the four lists so that exactly `RefSpeedTile(...)` is appended to the output and nothing else changes |
| ReferenceSpeeds.RankMonotone | scripts/make_ref_speeds.py:117-120 | a higher fraction never selects a lower index |
| ReferenceSpeeds.PercentilesOrdered | scripts/make_ref_speeds.py:117-120 | for a sorted segment, the 20 <= 40 <= 60 <= 80 percent speeds |
| ReferenceSpeeds.ZeroMeansNoData | scripts/make_ref_speeds.py:117-120 | when all speeds are accepted, a reference speed is 0 iff the segment is empty, and otherwise lies in (0, 160] |
| ReferenceSpeeds.RecordRowsOrdered | scripts/make_ref_speeds.py:115-120 | every row of an output subtile built from sorted lists is ordered 20 <= 40 <= 60 <= 80 |
| ReferenceSpeeds.FiveSpeedsExample | scripts/make_ref_speeds.py:117-120 | for `[10, 20, 30, 40, 50]` the four reference speeds are 20, 30, 40 and 50 |
| ReferenceSpeeds.MakeReferenceTile | scripts/make_ref_speeds.py:341-349 | aggregates the files and appends the output subtile for their lists and time range. When no file has a subtile nothing is written, and the result is marked as failed |
| TileAddressing.CeilDiv | scripts/make_ref_speeds.py:156-157 | `ceil(a / b)`: the least `r` with `a <= r * b` |
| TileAddressing.MakeTiles | scripts/make_ref_speeds.py:152-158 | `Tiles.__init__`: the grid of `size` tiles over a box; what it holds is stated by `GridCoversBox` |
| TileAddressing.GridCoversBox | scripts/make_ref_speeds.py:152-158 | a grid has just enough columns and rows to cover its box, and its largest tile id is `ncolumns * nrows - 1` |
| TileAddressing.TileHierarchy | scripts/make_ref_speeds.py:139-148 | exactly levels 0, 1 and 2, each a grid over the world box with tiles of 4, 1 and .25 degrees (16, 4 and 1 quarter degrees) |
| TileAddressing.WorldGrid | scripts/make_ref_speeds.py:152-158 | a tile size that divides the world evenly gives `1440 / size` columns and `720 / size` rows, size in quarter degrees |
| TileAddressing.CeilDivExact | scripts/make_ref_speeds.py:156-157 | when the box is a whole number of tiles, the rounded-up count is that number |
| TileAddressing.HighwayGrid | scripts/make_ref_speeds.py:139-158 | the highway grid is 90 × 45 tiles, largest id 4049 |
| TileAddressing.ArterialGrid | scripts/make_ref_speeds.py:139-158 | the arterial grid is 360 × 180 tiles, largest id 64799 |
| TileAddressing.LocalGrid | scripts/make_ref_speeds.py:139-158 | the local grid is 1440 × 720 tiles, largest id 1036799 |
| TileAddressing.Digits | scripts/make_ref_speeds.py:160-165 | (corrected) the digit loop returns the number of decimal digits of `abs(number)`, plus 1 for a negative number |
| TileAddressing.DigitCountIsLength | scripts/make_ref_speeds.py:160-165 | for a number other than 0 that count is the length of its decimal rendering with its sign |
| TileAddressing.DigitsLoopAsWrittenNeverEnds | scripts/make_ref_speeds.py:160-165 | (as written) for a negative number, the value after any number of `number /= 10` steps is still negative, so the loop never ends |
| TileAddressing.PathDigits | scripts/make_ref_speeds.py:170-174 | a grid's path width is a multiple of 3 and is the least such width that holds the digits of its largest tile id |
| TileAddressing.PaddedLength | scripts/make_ref_speeds.py:172-174 | the least multiple of 3 at or above the digit count |
| TileAddressing.TileIdFits | scripts/make_ref_speeds.py:170-174 | every tile id up to the largest fits in the padded width |
| Decimal.DecimalString | scripts/make_ref_speeds.py:178 | the decimal rendering of a number is a non-empty string of digits |
| Decimal.ValueOfDecimalString | scripts/make_ref_speeds.py:178 | reading the rendering back gives the number |
| TileAddressing.GroupThousands | scripts/make_ref_speeds.py:178 | `{:,}` grouping inserts `(len - 1) / 3` separators into a non-empty digit string; where they go is stated by `GroupThousandsShape` |
| TileAddressing.GroupThousandsShape | scripts/make_ref_speeds.py:178 | `{:,}` grouping of any non-empty string equals `LeadThenTriples`: a lead of `(len - 1) % 3 + 1` characters, then a separator before every following group of three |
| TileAddressing.UngroupDigits | scripts/make_ref_speeds.py:178 | `{:,}` grouping only inserts separators: removing them from a grouped non-empty digit string gives the digits back |
| TileAddressing.FormatThousands | scripts/make_ref_speeds.py:178 | the `{:,}` rendering of a positive number has its digit count plus `(digits - 1) / 3` characters; 0 renders as `0`; its content is stated by `FormatThousandsDigits` |
| TileAddressing.FormatThousandsDigits | scripts/make_ref_speeds.py:178 | the `{:,}` rendering of any natural number is `LeadThenTriples` of its decimal digits (a comma before every group of three counted from the right), and dropping the commas gives the digits back |
| TileAddressing.ReplaceChar | scripts/make_ref_speeds.py:178 | `.replace(from, to)` keeps the length and every other character, turns every `from` into `to`, and leaves no `from` behind when `from != to` |
| Decimal.LeadingDigit | scripts/make_ref_speeds.py:178-185 | formatting `lead * 10^w + tile_id` yields the lead digit followed by the tile id zero-padded to `w` digits |
| TileAddressing.GroupAfterLead | scripts/make_ref_speeds.py:178-185 | the `{:,}` grouping of a lead of one to three characters followed by `3m` characters puts one separator before every three-character group |
| TileAddressing.SlashGrouping | scripts/make_ref_speeds.py:178-185 | `{:,}` followed by `.replace(',', '/')` on a lead digit and `3m` digits gives the lead digit, then `/ddd` per group |
| TileAddressing.FormattedWithLead | scripts/make_ref_speeds.py:178-185 | rendering `lead * 10^w + tile_id` that way, for a tile id below `10^w` and `w` a multiple of 3, gives the lead digit, then `/ddd` per group of the zero-padded tile id |
| TileAddressing.ReplaceSeparator | scripts/make_ref_speeds.py:178-185 | `.replace(',', '/')` on such a grouping only swaps the separators |
| TileAddressing.GetFile | scripts/make_ref_speeds.py:168-188 | `Tiles.GetFile`: every path ends in `.spd` after at least one character, and a level-0 path starts with `0`; the full shape is stated by `PathShape` |
| TileAddressing.PathShape | scripts/make_ref_speeds.py:168-188 | for level <= 9 and a tile id in the grid, the path is the level digit, then `/ddd` for each three digits of the zero-padded tile id, then `.spd`. Level 0 keeps its leading `0` |
| TileAddressing.ParseGetFile | scripts/make_ref_speeds.py:168-188 | reading the path back gives the level and the tile id |
| TileAddressing.PathsAreDistinct | scripts/make_ref_speeds.py:168-188 | two (tile id, level) pairs of one grid with the same path are the same pair |
| TileAddressing.PathWidth | scripts/make_ref_speeds.py:170-174 | a grid whose largest id has `d` digits uses the padded width of `d` |
| TileAddressing.SixDigitPaths | scripts/make_ref_speeds.py:170-174 | a grid whose largest id has 4 to 6 digits pads tile ids to 6 digits |
| TileAddressing.NineDigitPaths | scripts/make_ref_speeds.py:170-174 | a grid whose largest id has 7 to 9 digits pads tile ids to 9 digits |
| TileAddressing.HighwayPathWidth | scripts/make_ref_speeds.py:139-174 | highway paths carry 6 digits of tile id |
| TileAddressing.ArterialPathWidth | scripts/make_ref_speeds.py:139-174 | arterial paths carry 6 digits of tile id |
| TileAddressing.LocalPathWidth | scripts/make_ref_speeds.py:139-174 | local paths carry 9 digits of tile id |
| TileAddressing.FirstHighwayPath | scripts/make_ref_speeds.py:176-182 | in the highway grid, tile 0 of level 0 is `0/000/000.spd` |
| TileAddressing.FirstSixDigitPath | scripts/make_ref_speeds.py:176-182 | in any grid with six-digit paths, tile 0 of level 0 is `0/000/000.spd` |

## Left out

- Reading and decoding protobuf files (`ParseFromString`) and serialising the output: a file is
  its decoded list of subtiles, and writing is appending to a list.
- Downloading from S3, gzip, directories, the thread pool and the week loop of the main
  program: I/O and concurrency. Building the list of file names (including the subtile
  suffixes from `get_tile_count`) is not modelled.
- Command-line parsing, logging, `print` output and the `segmentId` bit-packing, which is only
  printed.
- Deriving the `.ref` output file name from the first input file name: path-string handling
  of the host file system.
- The output subtile's `description` string: a constant.
- Floating point: `int(size * .2)` is computed exactly as `size * 2 / 10`, and
  `math.ceil(total / (per * 1.0))` as the exact ceiling. Double rounding could differ only for
  values far beyond any segment count.
- Range checks of the protobuf runtime: assigning a negative `rangeEnd - rangeStart` to the
  unsigned `unitSize` raises in the source, but the model keeps the signed difference.
- TileAddressing.GetFile: the path shape and the round trip are proved only for levels 0 to 9,
  the only levels the hierarchy has. A level of 10 or more still formats, as in the source, but
  its shape is not characterised.
- TileAddressing.GetFile: tile ids and levels are natural numbers. The command line accepts
  any integer for both, but negative tile ids and levels are not modelled.
- TileAddressing.GetFile: for a grid with no tiles (largest id -1), the source's `Digits(-1)`
  never returns (lines 162-163), so `GetFile` never returns either. The model counts digits
  with the corrected `DigitCount` (see "## Findings") and returns a path.
- TileAddressing.PathShape: tile ids above the grid's largest id, which the source does not
  reject, are outside this lemma.
- ReferenceSpeeds.MakeReferenceTile: when no file has a subtile, the source fails with a
  TypeError while filling the record. The model returns `ok == false` and writes nothing.

## Findings

| source | as written | input that shows it | evidently intended | confidence | as-written member | corrected member |
|---|---|---|---|---|---|---|
| scripts/make_ref_speeds.py:160-165 | `Digits` reserves a digit for a minus sign, then divides by 10 until the number is 0. Python 2's `/` rounds toward minus infinity, so a negative number reaches -1 and stays there | `Digits(-5)`: -5 becomes -1, then -1 forever | the count of the decimal digits of `abs(number)`, plus 1 for the sign | not executed | TileAddressing.DigitsLoopAsWrittenNeverEnds | TileAddressing.Digits |
| scripts/make_ref_speeds.py:67-81 | inside the loop over a file's subtiles, the lists grow to the file's FIRST subtile's `totalSegments`, not the processed subtile's. A later subtile announcing more segments can route a sample past the lists; whether that raises IndexError depends on whether an earlier file already grew them, so the outcome depends on the order of the files, although the comment on line 68 says the growth is there to make sure there are enough lists for all segments | file `[Narrow, Wide]` with `Narrow` announcing 5 segments and no samples, `Wide` announcing 10 and one sample for segment 8, and file `[Wide]`: processed in the order `[Wide], [Narrow, Wide]`, IndexError in the order `[Narrow, Wide], [Wide]` | each subtile grows the lists to its own `totalSegments`, so files whose subtiles route inside their own tiles are processed in any order | not executed; the difference needs a file whose subtiles disagree on `totalSegments` | AggregationProperties.FirstSubtileGrowthIsOrderDependent | AggregationProperties.SubtileGrowthIsOrderFree |

The aggregation methods keep the code's first-subtile growth, and `Aggregation.Processable`
states exactly when that growth suffices. `AggregationProperties.SelfContainedFilesAreProcessable`
gives the everyday sufficient condition, which makes every order processable. The growth by each
subtile is defined beside them as `GrownBySubtile` and `ProcessableBySubtile`.
