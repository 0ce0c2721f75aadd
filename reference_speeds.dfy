/**
 * Bucketing each segment's sorted speeds into the 20/40/60/80 percent reference speeds and
 * building the single output subtile (`createRefSpeedTile`).
 */
module ReferenceSpeeds {
  import opened Optional
  import opened Sorting
  import opened SpeedTileFormat
  import opened Aggregation
  import AggregationProperties

  /** Index read for the `tenths`/10 reference speed of a list of `n` speeds:
      `int(n * .2)`, `int(n * .4)`, ... computed exactly. It never runs off the list. */
  function Rank(n: nat, tenths: nat): (r: nat)
    requires tenths < 10
    ensures n > 0 ==> r < n
  {
    assert n * tenths <= n * 9;
    n * tenths / 10
  }

  /** The `tenths`/10 reference speed of one segment: the element at `Rank`, or 0 when the
      segment has no observation. */
  function Percentile(segment: seq<int>, tenths: nat): (r: int)
    requires tenths < 10
    ensures segment == [] ==> r == 0
    ensures segment != [] ==> r in segment
  {
    if |segment| > 0 then segment[Rank(|segment|, tenths)] else 0
  }

  /** One reference speed per segment, in segment order. */
  function Buckets(segments: seq<seq<int>>, tenths: nat): (r: seq<int>)
    requires tenths < 10
    ensures |r| == |segments|
    ensures forall j :: 0 <= j < |segments| ==> r[j] == Percentile(segments[j], tenths)
  {
    if segments == [] then []
    else Buckets(segments[..|segments| - 1], tenths) + [Percentile(segments[|segments| - 1], tenths)]
  }

  /** The output subtile: a single subtile spanning all segments of the tile whose time
      unit is the whole aggregated range. */
  function RefSpeedTile(segments: seq<seq<int>>, level: nat, index: nat, minSeconds: nat, maxSeconds: nat)
    : (r: RefSubtile)
    ensures r.level == level && r.index == index
    ensures r.startSegmentIndex == 0
    ensures r.totalSegments == r.subtileSegments == |segments|
    ensures r.rangeStart == minSeconds && r.rangeEnd == maxSeconds
    ensures r.unitSize == r.entrySize == maxSeconds - minSeconds
    ensures |r.referenceSpeeds20| == |r.referenceSpeeds40| == |segments|
    ensures |r.referenceSpeeds60| == |r.referenceSpeeds80| == |segments|
    ensures forall j :: 0 <= j < |segments| && segments[j] == [] ==>
      r.referenceSpeeds20[j] == r.referenceSpeeds40[j] == r.referenceSpeeds60[j] == r.referenceSpeeds80[j] == 0
  {
    RefSubtile(level, index, 0, |segments|, |segments|, minSeconds, maxSeconds,
               maxSeconds - minSeconds, maxSeconds - minSeconds,
               Buckets(segments, 2), Buckets(segments, 4), Buckets(segments, 6), Buckets(segments, 8))
  }

  /**
   * Fills the output subtile's four reference speed lists segment by segment and appends the
   * finished subtile to the output file, modelled as the list of subtiles written so far.
   */
  method CreateRefSpeedTile(written: seq<RefSubtile>, segments: seq<seq<int>>, level: nat, index: nat,
                            minSeconds: nat, maxSeconds: nat)
      returns (written': seq<RefSubtile>)
    ensures written' == written + [RefSpeedTile(segments, level, index, minSeconds, maxSeconds)]
  {
    var speeds20, speeds40, speeds60, speeds80 := [], [], [], [];
    var j := 0;
    while j < |segments|
      invariant 0 <= j <= |segments|
      invariant speeds20 == Buckets(segments[..j], 2) && speeds40 == Buckets(segments[..j], 4)
      invariant speeds60 == Buckets(segments[..j], 6) && speeds80 == Buckets(segments[..j], 8)
    {
      var segment := segments[j];
      var size := |segment|;
      speeds20 := speeds20 + [if size > 0 then segment[Rank(size, 2)] else 0];
      speeds40 := speeds40 + [if size > 0 then segment[Rank(size, 4)] else 0];
      speeds60 := speeds60 + [if size > 0 then segment[Rank(size, 6)] else 0];
      speeds80 := speeds80 + [if size > 0 then segment[Rank(size, 8)] else 0];
      assert segments[..j + 1][..j] == segments[..j];
      j := j + 1;
    }
    assert segments[..j] == segments;
    var tile := RefSubtile(level, index, 0, |segments|, |segments|, minSeconds, maxSeconds,
                           maxSeconds - minSeconds, maxSeconds - minSeconds,
                           speeds20, speeds40, speeds60, speeds80);
    written' := written + [tile];
  }

  // ---------------------------------------------------------------------------
  // Properties of the bucketing

  lemma RankMonotone(n: nat, lower: nat, upper: nat)
    requires lower <= upper < 10
    ensures Rank(n, lower) <= Rank(n, upper)
  {
    assert n * lower <= n * upper;
  }

  /** For a sorted segment the four reference speeds never decrease from 20 to 80 percent. */
  lemma PercentilesOrdered(segment: seq<int>)
    requires Sorted(segment)
    ensures Percentile(segment, 2) <= Percentile(segment, 4) <= Percentile(segment, 6) <= Percentile(segment, 8)
  {
    if segment != [] {
      RankMonotone(|segment|, 2, 4);
      RankMonotone(|segment|, 4, 6);
      RankMonotone(|segment|, 6, 8);
    }
  }

  /** Since every aggregated speed is positive, a zero reference speed means exactly that the
      segment had no observation; otherwise the value is a valid speed. */
  lemma ZeroMeansNoData(segment: seq<int>, tenths: nat)
    requires tenths < 10
    requires forall i :: 0 <= i < |segment| ==> Accepted(segment[i])
    ensures Percentile(segment, tenths) == 0 <==> segment == []
    ensures segment != [] ==> Accepted(Percentile(segment, tenths))
  {
  }

  /** Every row of the output subtile built from sorted segments is ordered 20 <= 40 <= 60 <= 80. */
  lemma RecordRowsOrdered(segments: seq<seq<int>>, level: nat, index: nat, minSeconds: nat, maxSeconds: nat)
    requires forall j :: 0 <= j < |segments| ==> Sorted(segments[j])
    ensures var r := RefSpeedTile(segments, level, index, minSeconds, maxSeconds);
      forall j :: 0 <= j < |segments| ==>
        r.referenceSpeeds20[j] <= r.referenceSpeeds40[j] <= r.referenceSpeeds60[j] <= r.referenceSpeeds80[j]
  {
    forall j | 0 <= j < |segments| {
      PercentilesOrdered(segments[j]);
    }
  }

  /** The worked example of nearest-rank selection: five speeds give ranks 1, 2, 3 and 4. */
  lemma FiveSpeedsExample()
    ensures var s := [10, 20, 30, 40, 50];
      Percentile(s, 2) == 20 && Percentile(s, 4) == 30 && Percentile(s, 6) == 40 && Percentile(s, 8) == 50
  {
  }

  // ---------------------------------------------------------------------------
  // One reference tile job

  /**
   * Aggregates the decoded files of one tile and appends its reference subtile to the output.
   * When no file holds a subtile the time range stays unset; the source then fails while
   * filling the record, so nothing is appended.
   */
  method MakeReferenceTile(written: seq<RefSubtile>, files: seq<seq<WellSizedSubtile>>, level: nat, index: nat)
      returns (written': seq<RefSubtile>, ok: bool, segments: seq<seq<int>>)
    requires Processable(files)
    ensures IsAvgSpeedList(files, segments)
    ensures ok <==> exists k :: 0 <= k < |files| && files[k] != []
    ensures !ok ==> written' == written
    ensures ok ==> MinStart(files).Some? && MaxEnd(files).Some? &&
                   written' == written + [RefSpeedTile(segments, level, index, MinStart(files).value, MaxEnd(files).value)]
  {
    var minSeconds, maxSeconds;
    segments, minSeconds, maxSeconds := CreateAvgSpeedList(files);
    AggregationProperties.MinStartIsLeast(files);
    AggregationProperties.MaxEndIsGreatest(files);
    if minSeconds.None? || maxSeconds.None? {
      written', ok := written, false;
    } else {
      written' := CreateRefSpeedTile(written, segments, level, index, minSeconds.value, maxSeconds.value);
      ok := true;
    }
  }
}
