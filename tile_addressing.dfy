/**
 * The tiling hierarchy and the relative file path of a (level, tile id) pair: the level
 * digit, then the tile id padded to a multiple of three digits and split into three-digit
 * directories, then the `.spd` extension.
 */
module TileAddressing {
  import opened Optional
  import opened Decimal

  /** Degrees are counted in quarter degrees so that every tile size is a whole number. */
  const QuartersPerDegree: int := 4

  datatype BoundingBox = BoundingBox(minx: int, miny: int, maxx: int, maxy: int)

  /** The world bounding box [-180, -90, 180, 90], in quarter degrees. */
  const World: BoundingBox :=
    BoundingBox(-180 * QuartersPerDegree, -90 * QuartersPerDegree, 180 * QuartersPerDegree, 90 * QuartersPerDegree)

  /** One level's grid of square tiles, `tileSize` quarter degrees wide, over `bbox`. */
  datatype Tiles = Tiles(bbox: BoundingBox, tileSize: nat, ncolumns: int, nrows: int, maxTileId: int)

  /** `int(math.ceil(a / b))` for a positive `b`. */
  function CeilDiv(a: int, b: nat): (r: int)
    requires b > 0
    ensures (r - 1) * b < a <= r * b
  {
    var q := (-a) / b;
    assert -a == q * b + (-a) % b;
    -q
  }

  /** `Tiles.__init__`: a level's grid over `bbox` with square tiles of `size`. */
  function MakeTiles(bbox: BoundingBox, size: nat): Tiles
    requires size > 0
  {
    var ncolumns := CeilDiv(bbox.maxx - bbox.minx, size);
    var nrows := CeilDiv(bbox.maxy - bbox.miny, size);
    Tiles(bbox, size, ncolumns, nrows, ncolumns * nrows - 1)
  }

  /** What `MakeTiles` builds: the grid over `bbox` with just enough columns and rows to
      cover it, numbered row by row from 0. */
  lemma GridCoversBox(bbox: BoundingBox, size: nat)
    requires size > 0
    ensures var t := MakeTiles(bbox, size);
      && t.bbox == bbox && t.tileSize == size
      && (t.ncolumns - 1) * size < bbox.maxx - bbox.minx <= t.ncolumns * size
      && (t.nrows - 1) * size < bbox.maxy - bbox.miny <= t.nrows * size
      && t.maxTileId + 1 == t.ncolumns * t.nrows
  {
  }

  /** The three levels, each a grid over the whole world: highway (0) has 4 degree tiles,
      arterial (1) 1 degree tiles and local (2) quarter degree tiles. */
  function TileHierarchy(): (levels: map<nat, Tiles>)
    ensures levels.Keys == {0, 1, 2}
    ensures levels[0] == MakeTiles(World, 16)
    ensures levels[1] == MakeTiles(World, 4)
    ensures levels[2] == MakeTiles(World, 1)
  {
    map[2 := MakeTiles(World, 1), 1 := MakeTiles(World, 4), 0 := MakeTiles(World, 16)]
  }

  /** A grid over the world whose tiles divide it evenly has `1440 / size` columns and
      `720 / size` rows, with `size` in quarter degrees. */
  lemma WorldGrid(size: nat, columns: int, rows: int)
    requires size > 0 && columns * size == 1440 && rows * size == 720
    ensures MakeTiles(World, size) == Tiles(World, size, columns, rows, columns * rows - 1)
  {
    assert World.maxx - World.minx == 1440 && World.maxy - World.miny == 720;
    CeilDivExact(1440, size, columns);
    CeilDivExact(720, size, rows);
  }

  /** Rounding up a quotient that is already whole changes nothing. */
  lemma CeilDivExact(a: int, size: nat, q: int)
    requires size > 0 && q * size == a
    ensures CeilDiv(a, size) == q
  {
    var c := CeilDiv(a, size);
    if c > q {
      MulMonotone(q, c - 1, size);
    } else if c < q {
      MulMonotone(c + 1, q, size);
    }
  }

  lemma MulMonotone(x: int, y: int, m: nat)
    requires x <= y
    ensures x * m <= y * m
  {
  }

  // ---------------------------------------------------------------------------
  // Counting digits

  /** `Tiles.Digits`: the number of decimal digits of `number`, plus one for the sign of a
      negative number. Negative numbers are divided with truncation toward zero, as the
      sign counter evidently intends. */
  method Digits(number: int) returns (digits: nat)
    ensures digits == DigitCount(number)
  {
    digits := if number < 0 then 1 else 0;
    var n := number;
    while n != 0
      invariant digits + DecimalLength(Abs(n)) == DigitCount(number)
      decreases Abs(n)
    {
      n := TruncatedTenth(n);
      digits := digits + 1;
    }
  }

  /** The length of `str(number)`: a minus sign for a negative number, then its digits
      (none for 0, which the digit loop does not count). */
  function DigitCount(number: int): nat {
    (if number < 0 then 1 else 0) + DecimalLength(Abs(number))
  }

  /** For a number other than 0, the digit count is the length of its decimal rendering. */
  lemma {:induction false} DigitCountIsLength(number: int)
    requires number != 0
    ensures DigitCount(number) == (if number < 0 then 1 else 0) + |DecimalString(Abs(number))|
  {
    LengthOfDecimalString(Abs(number));
  }

  lemma {:induction false} LengthOfDecimalString(n: nat)
    ensures n > 0 ==> |DecimalString(n)| == DecimalLength(n)
  {
    if n >= 10 {
      LengthOfDecimalString(n / 10);
    }
  }

  function Abs(n: int): nat {
    if n < 0 then -n else n
  }

  /** One tenth of `n`, rounded toward zero. */
  function TruncatedTenth(n: int): (r: int)
    ensures Abs(r) == Abs(n) / 10
  {
    if n < 0 then -((-n) / 10) else n / 10
  }

  /** The value of `number` after `steps` passes of the digit loop as written: Python 2's
      `number /= 10` rounds toward minus infinity, as Dafny's `/` does for a positive divisor. */
  function FlooredTenths(number: int, steps: nat): int
    decreases steps
  {
    if steps == 0 then number else FlooredTenths(number / 10, steps - 1)
  }

  /** As written, the digit loop never ends for a negative number: floor division keeps it
      negative (-1 stays -1), so the loop guard `long(number)` stays true. */
  lemma {:induction false} DigitsLoopAsWrittenNeverEnds(number: int, steps: nat)
    requires number < 0
    ensures FlooredTenths(number, steps) < 0
    decreases steps
  {
    if steps > 0 {
      assert number / 10 < 0;
      DigitsLoopAsWrittenNeverEnds(number / 10, steps - 1);
    }
  }

  // ---------------------------------------------------------------------------
  // Formatting a path

  /** The least multiple of three that is at least `digits`. */
  function PaddedLength(digits: nat): (r: nat)
    ensures r % 3 == 0
    ensures digits <= r < digits + 3
  {
    var remainder := digits % 3;
    if remainder != 0 then digits + 3 - remainder else digits
  }

  /** Inserts `sep` between groups of three characters counted from the right, as the `,`
      format option does for the digits of a number. */
  function GroupThousands(s: string, sep: char): (r: string)
    ensures s != [] ==> |r| == |s| + (|s| - 1) / 3
  {
    if |s| <= 3 then s else GroupThousands(s[..|s| - 3], sep) + [sep] + s[|s| - 3..]
  }

  /** `'{:,}'.format(n)` for a natural number. */
  function FormatThousands(n: nat): (r: string)
    ensures n > 0 ==> |r| == DecimalLength(n) + (DecimalLength(n) - 1) / 3
    ensures n == 0 ==> r == "0"
  {
    LengthOfDecimalString(n);
    GroupThousands(DecimalString(n), ',')
  }

  /** `s.replace(from, to)` for single characters. */
  function ReplaceChar(s: string, from: char, to: char): (r: string)
    ensures |r| == |s|
    ensures from != to ==> from !in r
    ensures forall i :: 0 <= i < |s| && s[i] != from ==> r[i] == s[i]
    ensures forall i :: 0 <= i < |s| && s[i] == from ==> r[i] == to
  {
    seq(|s|, i requires 0 <= i < |s| => if s[i] == from then to else s[i])
  }

  /** Number of digits a tile id is padded to in this grid's paths. */
  function PathDigits(tiles: Tiles): (width: nat)
    ensures width % 3 == 0
    ensures DigitCount(tiles.maxTileId) <= width < DigitCount(tiles.maxTileId) + 3
  {
    PaddedLength(DigitCount(tiles.maxTileId))
  }

  /**
   * `Tiles.GetFile`: `level * 10^len + tile_id` with thousands separators turned into `/`,
   * plus `.spd`. Level 0 would lose its leading zero, so it is formatted as `10^len + tile_id`
   * and the leading `1` is replaced by `0`.
   */
  function GetFile(tiles: Tiles, tileId: nat, level: nat): (path: string)
    ensures |path| >= 5 && path[|path| - 4..] == ".spd"
    ensures level == 0 ==> path[0] == '0'
  {
    var maxLength := PathDigits(tiles);
    if level == 0 then
      var formatted := ReplaceChar(FormatThousands(Pow10(maxLength) + tileId), ',', '/');
      var suffix := formatted + ".spd";
      assert suffix[1..] == formatted[1..] + ".spd";
      "0" + suffix[1..]
    else
      ReplaceChar(FormatThousands(level * Pow10(maxLength) + tileId), ',', '/') + ".spd"
  }

  // ---------------------------------------------------------------------------
  // The shape of a path, and reading a path back

  /** A string of whole three-character groups, each preceded by `sep`. */
  function Grouped(s: string, sep: char): string
    requires |s| % 3 == 0
  {
    if s == [] then [] else Grouped(s[..|s| - 3], sep) + [sep] + s[|s| - 3..]
  }

  /** `s` without any `c`. */
  function RemoveChar(s: string, c: char): string {
    if s == [] then []
    else RemoveChar(s[..|s| - 1], c) + (if s[|s| - 1] == c then [] else [s[|s| - 1]])
  }

  /** Reads the level and the tile id back from a path: a level digit, digits and `/`s,
      then `.spd`. */
  function ParsePath(path: string): Option<(nat, nat)> {
    if |path| < 5 || path[|path| - 4..] != ".spd" || !IsDigit(path[0]) then None
    else
      var digits := RemoveChar(path[1..|path| - 4], '/');
      if AllDigits(digits) then Some((DigitValue(path[0]), Value(digits))) else None
  }

  /** A leading group of one to three characters stays unseparated in front of the
      groups of three that follow it. */
  lemma {:induction false} GroupAfterLead(lead: string, s: string, sep: char)
    requires 1 <= |lead| <= 3 && |s| % 3 == 0
    ensures GroupThousands(lead + s, sep) == lead + Grouped(s, sep)
  {
    if s == [] {
      assert lead + s == lead;
    } else {
      var n := |s| - 3;
      var front, last := s[..n], s[n..];
      calc {
        GroupThousands(lead + s, sep);
      == { assert lead + s == (lead + front) + last; }
        GroupThousands((lead + front) + last, sep);
      == { GroupStep(lead + front, last, sep); }
        GroupThousands(lead + front, sep) + [sep] + last;
      == { GroupAfterLead(lead, front, sep); }
        lead + Grouped(front, sep) + [sep] + last;
      == { ConcatAssoc(lead, Grouped(front, sep), [sep] + last); }
        lead + Grouped(s, sep);
      }
    }
  }

  lemma ConcatAssoc(a: string, b: string, c: string)
    ensures a + b + c == a + (b + c)
  {
  }

  /** One step of the grouping: the last three characters form the last group. */
  lemma GroupStep(t: string, last: string, sep: char)
    requires |t| >= 1 && |last| == 3
    ensures GroupThousands(t + last, sep) == GroupThousands(t, sep) + [sep] + last
  {
    var whole := t + last;
    assert whole[..|whole| - 3] == t;
    assert whole[|whole| - 3..] == last;
  }

  lemma ReplaceConcat(a: string, b: string, from: char, to: char)
    ensures ReplaceChar(a + b, from, to) == ReplaceChar(a, from, to) + ReplaceChar(b, from, to)
  {
  }

  /** The grouping of a non-empty string, described from the left: a leading group of one to
      three characters, then a separator before every following group of three. */
  function LeadThenTriples(s: string, sep: char): string
    requires s != []
  {
    var h := (|s| - 1) % 3 + 1;
    s[..h] + Grouped(s[h..], sep)
  }

  /** Grouping from the right, as `GroupThousands` does, agrees with the description from the
      left for every non-empty string. */
  lemma GroupThousandsShape(s: string, sep: char)
    requires s != []
    ensures GroupThousands(s, sep) == LeadThenTriples(s, sep)
  {
    var h := (|s| - 1) % 3 + 1;
    assert s == s[..h] + s[h..];
    GroupAfterLead(s[..h], s[h..], sep);
  }

  /** Removing the separators from a grouped string of digits gives the digits back. */
  lemma UngroupDigits(d: string, sep: char)
    requires d != [] && AllDigits(d) && !IsDigit(sep)
    ensures RemoveChar(GroupThousands(d, sep), sep) == d
  {
    var h := (|d| - 1) % 3 + 1;
    var lead, rest := d[..h], d[h..];
    GroupThousandsShape(d, sep);
    calc {
      RemoveChar(GroupThousands(d, sep), sep);
    ==
      RemoveChar(lead + Grouped(rest, sep), sep);
    == { RemoveConcat(lead, Grouped(rest, sep), sep); }
      RemoveChar(lead, sep) + RemoveChar(Grouped(rest, sep), sep);
    == { RemoveAbsent(lead, sep); RemoveSeparators(rest, sep); }
      lead + rest;
    == { assert lead + rest == d; }
      d;
    }
  }

  /** `'{:,}'.format(n)` is the decimal digits of `n` with a comma before every group of three
      counted from the right; dropping the commas gives the digits back. */
  lemma FormatThousandsDigits(n: nat)
    ensures FormatThousands(n) == LeadThenTriples(DecimalString(n), ',')
    ensures RemoveChar(FormatThousands(n), ',') == DecimalString(n)
  {
    GroupThousandsShape(DecimalString(n), ',');
    UngroupDigits(DecimalString(n), ',');
  }

  /** Replacing a character that does not occur changes nothing. */
  lemma ReplaceAbsent(s: string, from: char, to: char)
    requires AllDigits(s) && !IsDigit(from)
    ensures ReplaceChar(s, from, to) == s
  {
  }

  /** Replacing a separator that the grouped characters do not contain swaps the separator. */
  lemma {:induction false} ReplaceSeparator(s: string, sep: char, sep': char)
    requires |s| % 3 == 0 && AllDigits(s) && !IsDigit(sep)
    ensures ReplaceChar(Grouped(s, sep), sep, sep') == Grouped(s, sep')
  {
    if s != [] {
      var n := |s| - 3;
      ReplaceSeparator(s[..n], sep, sep');
      ReplaceConcat(Grouped(s[..n], sep) + [sep], s[n..], sep, sep');
      ReplaceConcat(Grouped(s[..n], sep), [sep], sep, sep');
      ReplaceAbsent(s[n..], sep, sep');
    }
  }

  lemma {:induction false} RemoveConcat(a: string, b: string, c: char)
    ensures RemoveChar(a + b, c) == RemoveChar(a, c) + RemoveChar(b, c)
    decreases |b|
  {
    if b == [] {
      assert a + b == a;
    } else {
      var n := |b| - 1;
      RemoveConcat(a, b[..n], c);
      assert (a + b)[..|a + b| - 1] == a + b[..n];
    }
  }

  lemma RemoveAbsent(s: string, c: char)
    requires AllDigits(s) && !IsDigit(c)
    ensures RemoveChar(s, c) == s
  {
    if s != [] {
      RemoveAbsent(s[..|s| - 1], c);
    }
  }

  /** Removing the separators from a grouped string of digits gives the digits back. */
  lemma {:induction false} RemoveSeparators(s: string, sep: char)
    requires |s| % 3 == 0 && AllDigits(s) && !IsDigit(sep)
    ensures RemoveChar(Grouped(s, sep), sep) == s
  {
    if s != [] {
      var n := |s| - 3;
      RemoveSeparators(s[..n], sep);
      RemoveConcat(Grouped(s[..n], sep) + [sep], s[n..], sep);
      RemoveConcat(Grouped(s[..n], sep), [sep], sep);
      assert RemoveChar([sep], sep) == [] by {
        assert [sep][..0] == [];
      }
      RemoveAbsent(s[n..], sep);
    }
  }

  /** A grid's tile ids fit in its padded path width. */
  lemma TileIdFits(tiles: Tiles, tileId: nat)
    requires tileId <= tiles.maxTileId
    ensures tileId < Pow10(PathDigits(tiles))
  {
    var d := DecimalLength(tiles.maxTileId);
    Pow10Monotone(d, PathDigits(tiles));
  }

  /**
   * The shape of a path: the level digit, then one `/` followed by three digits for every
   * three digits of the zero-padded tile id, then `.spd`. Level 0 keeps its leading zero.
   */
  lemma PathShape(tiles: Tiles, tileId: nat, level: nat)
    requires tileId <= tiles.maxTileId && level <= 9
    ensures GetFile(tiles, tileId, level)
      == [DigitChar(level)] + Grouped(ZeroPadded(tileId, PathDigits(tiles)), '/') + ".spd"
  {
    var w := PathDigits(tiles);
    TileIdFits(tiles, tileId);
    if level == 0 {
      var grouped := Grouped(ZeroPadded(tileId, w), '/');
      var formatted := ReplaceChar(FormatThousands(Pow10(w) + tileId), ',', '/');
      FormattedWithLead(1, tileId, w);
      assert 1 * Pow10(w) == Pow10(w);
      assert formatted == [DigitChar(1)] + grouped;
      LevelZeroSuffix(formatted, grouped);
      assert DigitChar(0) == '0';
      assert GetFile(tiles, tileId, 0) == "0" + (formatted + ".spd")[1..];
    } else {
      FormattedWithLead(level, tileId, w);
    }
  }

  /** Replacing the leading `1` of the level-0 rendering by `0`. */
  lemma LevelZeroSuffix(formatted: string, grouped: string)
    requires formatted == [DigitChar(1)] + grouped
    ensures "0" + (formatted + ".spd")[1..] == [DigitChar(0)] + grouped + ".spd"
  {
    assert (formatted + ".spd")[1..] == grouped + ".spd";
  }

  /** The formatted, `/`-separated rendering of a lead digit in front of a padded tile id. */
  lemma FormattedWithLead(lead: nat, tileId: nat, w: nat)
    requires 1 <= lead <= 9 && tileId < Pow10(w) && w % 3 == 0
    ensures ReplaceChar(FormatThousands(lead * Pow10(w) + tileId), ',', '/')
      == [DigitChar(lead)] + Grouped(ZeroPadded(tileId, w), '/')
  {
    LeadingDigit(lead, tileId, w);
    SlashGrouping([DigitChar(lead)], ZeroPadded(tileId, w));
  }

  /** `{:,}` grouping followed by `.replace(',', '/')` on a lead digit and `3m` digits. */
  lemma SlashGrouping(head: string, padded: string)
    requires |head| == 1 && IsDigit(head[0]) && |padded| % 3 == 0 && AllDigits(padded)
    ensures ReplaceChar(GroupThousands(head + padded, ','), ',', '/') == head + Grouped(padded, '/')
  {
    var commas := Grouped(padded, ',');
    calc {
      ReplaceChar(GroupThousands(head + padded, ','), ',', '/');
    == { GroupAfterLead(head, padded, ','); }
      ReplaceChar(head + commas, ',', '/');
    == { ReplaceConcat(head, commas, ',', '/'); }
      ReplaceChar(head, ',', '/') + ReplaceChar(commas, ',', '/');
    == { ReplaceAbsent(head, ',', '/'); ReplaceSeparator(padded, ',', '/'); }
      head + Grouped(padded, '/');
    }
  }

  /** Reading a path back gives the level and the tile id it was made from. */
  lemma ParseGetFile(tiles: Tiles, tileId: nat, level: nat)
    requires tileId <= tiles.maxTileId && level <= 9
    ensures ParsePath(GetFile(tiles, tileId, level)) == Some((level, tileId))
  {
    var w := PathDigits(tiles);
    var padded := ZeroPadded(tileId, w);
    var grouped := Grouped(padded, '/');
    var path := GetFile(tiles, tileId, level);
    PathShape(tiles, tileId, level);
    assert path[|path| - 4..] == ".spd";
    assert path[1..|path| - 4] == grouped;
    RemoveSeparators(padded, '/');
    TileIdFits(tiles, tileId);
    ValueOfZeroPadded(tileId, w);
  }

  /** Different (level, tile id) pairs of one grid have different paths. */
  lemma PathsAreDistinct(tiles: Tiles, tileId: nat, level: nat, tileId': nat, level': nat)
    requires tileId <= tiles.maxTileId && level <= 9
    requires tileId' <= tiles.maxTileId && level' <= 9
    requires GetFile(tiles, tileId, level) == GetFile(tiles, tileId', level')
    ensures tileId == tileId' && level == level'
  {
    ParseGetFile(tiles, tileId, level);
    ParseGetFile(tiles, tileId', level');
  }

  /** A grid's path width follows from the digit count of its largest tile id. */
  lemma PathWidth(tiles: Tiles, digits: nat, width: nat)
    requires digits > 0 && Pow10(digits - 1) <= tiles.maxTileId < Pow10(digits)
    requires width == PaddedLength(digits)
    ensures PathDigits(tiles) == width
  {
    var d := DecimalLength(tiles.maxTileId);
    if d < digits {
      Pow10Monotone(d, digits - 1);
    } else if d > digits {
      Pow10Monotone(digits, d - 1);
    }
  }

  /** The highway level: 90 × 45 tiles, ids up to 4049. */
  lemma HighwayGrid()
    ensures var tiles := TileHierarchy()[0];
      tiles.ncolumns == 90 && tiles.nrows == 45 && tiles.maxTileId == 4049
  {
    WorldGrid(16, 90, 45);
  }

  /** The arterial level: 360 × 180 tiles, ids up to 64799. */
  lemma ArterialGrid()
    ensures var tiles := TileHierarchy()[1];
      tiles.ncolumns == 360 && tiles.nrows == 180 && tiles.maxTileId == 64799
  {
    WorldGrid(4, 360, 180);
  }

  /** The local level: 1440 × 720 tiles, ids up to 1036799. */
  lemma LocalGrid()
    ensures var tiles := TileHierarchy()[2];
      tiles.ncolumns == 1440 && tiles.nrows == 720 && tiles.maxTileId == 1036799
  {
    WorldGrid(1, 1440, 720);
  }

  /** Largest tile ids of four to six digits give paths with six digits of tile id. */
  lemma SixDigitPaths(tiles: Tiles)
    requires 1000 <= tiles.maxTileId < 1000000
    ensures PathDigits(tiles) == 6
  {
    assert Pow10(3) == 1000 && Pow10(4) == 10000 && Pow10(5) == 100000 && Pow10(6) == 1000000;
    if tiles.maxTileId < 10000 {
      PathWidth(tiles, 4, 6);
    } else if tiles.maxTileId < 100000 {
      PathWidth(tiles, 5, 6);
    } else {
      PathWidth(tiles, 6, 6);
    }
  }

  /** Largest tile ids of seven to nine digits give paths with nine digits of tile id. */
  lemma NineDigitPaths(tiles: Tiles)
    requires 1000000 <= tiles.maxTileId < 1000000000
    ensures PathDigits(tiles) == 9
  {
    assert Pow10(6) == 1000000 && Pow10(7) == 10000000 && Pow10(8) == 100000000 && Pow10(9) == 1000000000;
    if tiles.maxTileId < 10000000 {
      PathWidth(tiles, 7, 9);
    } else if tiles.maxTileId < 100000000 {
      PathWidth(tiles, 8, 9);
    } else {
      PathWidth(tiles, 9, 9);
    }
  }

  /** Highway paths carry six digits of tile id. */
  lemma HighwayPathWidth(tiles: Tiles)
    requires tiles == TileHierarchy()[0]
    ensures PathDigits(tiles) == 6
  {
    HighwayGrid();
    SixDigitPaths(tiles);
  }

  /** Arterial paths carry six digits of tile id. */
  lemma ArterialPathWidth(tiles: Tiles)
    requires tiles == TileHierarchy()[1]
    ensures PathDigits(tiles) == 6
  {
    ArterialGrid();
    SixDigitPaths(tiles);
  }

  /** Local paths carry nine digits of tile id. */
  lemma LocalPathWidth(tiles: Tiles)
    requires tiles == TileHierarchy()[2]
    ensures PathDigits(tiles) == 9
  {
    LocalGrid();
    NineDigitPaths(tiles);
  }

  /** The first tile of the highway level: the level digit stays `0`. */
  lemma FirstHighwayPath(tiles: Tiles)
    requires tiles == TileHierarchy()[0]
    ensures GetFile(tiles, 0, 0) == "0/000/000.spd"
  {
    HighwayGrid();
    HighwayPathWidth(tiles);
    FirstSixDigitPath(tiles);
  }

  /** In a grid with six-digit paths, tile 0 of level 0 is `0/000/000.spd`. */
  lemma FirstSixDigitPath(tiles: Tiles)
    requires PathDigits(tiles) == 6 && tiles.maxTileId >= 0
    ensures GetFile(tiles, 0, 0) == "0/000/000.spd"
  {
    calc {
      GetFile(tiles, 0, 0);
    == { PathShape(tiles, 0, 0); }
      [DigitChar(0)] + Grouped(ZeroPadded(0, 6), '/') + ".spd";
    == { SixZerosGrouped(); }
      [DigitChar(0)] + "/000/000" + ".spd";
    }
  }

  lemma SixZerosGrouped()
    ensures Grouped(ZeroPadded(0, 6), '/') == "/000/000"
  {
    var first := ZeroPadded(0, 6);
    assert first == "000000";
    assert Grouped(first[..3], '/') == "/000";
  }
}
