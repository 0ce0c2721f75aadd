/**
 * Collecting, per road segment, every valid speed observed across the decoded speed
 * tiles of one tile id (`createAvgSpeedList`), together with the overall time range.
 */
module Aggregation {
  import opened Optional
  import opened Sorting
  import opened SpeedTileFormat

  /** Speeds above this are data errors; they are reported and never aggregated. */
  const MaxSpeed: int := 160

  /** A sample counts as an observation when it lies in (0, MaxSpeed]. */
  predicate Accepted(speed: int) {
    0 < speed <= MaxSpeed
  }

  /** Samples per segment in a subtile (`unitSize / entrySize`, integer division). */
  function Entries(st: WellSizedSubtile): (entries: nat)
    ensures st.speeds != [] ==> entries > 0
  {
    st.unitSize / st.entrySize
  }

  /** The segment that sample `i` of `st` belongs to: the subtile's samples come in
      consecutive blocks of `Entries(st)`, one block per segment from `startSegmentIndex`. */
  function SegmentOf(st: WellSizedSubtile, i: nat): (j: nat)
    requires i < |st.speeds|
    ensures st.startSegmentIndex <= j
    ensures (j - st.startSegmentIndex) * Entries(st) <= i < (j - st.startSegmentIndex + 1) * Entries(st)
  {
    var e := Entries(st);
    var q := i / e;
    assert i == q * e + i % e && 0 <= i % e < e;
    assert (q + 1) * e == q * e + e;
    st.startSegmentIndex + q
  }

  // ---------------------------------------------------------------------------
  // Specification of what each segment receives

  /** Accepted speeds among the first `n` samples of `st` that route to segment `j`,
      in sample order. */
  function SubtileSpeeds(st: WellSizedSubtile, j: nat, n: nat): seq<int>
    requires n <= |st.speeds|
  {
    if n == 0 then []
    else
      var i := n - 1;
      SubtileSpeeds(st, j, i) + (if Accepted(st.speeds[i]) && SegmentOf(st, i) == j then [st.speeds[i]] else [])
  }

  /** Accepted speeds of a whole file's subtiles that route to segment `j`, in file order. */
  function TileSpeeds(tile: seq<WellSizedSubtile>, j: nat): seq<int> {
    if tile == [] then []
    else
      var st := tile[|tile| - 1];
      TileSpeeds(tile[..|tile| - 1], j) + SubtileSpeeds(st, j, |st.speeds|)
  }

  /** Accepted speeds of all files that route to segment `j`, in processing order. */
  function Routed(files: seq<seq<WellSizedSubtile>>, j: nat): seq<int> {
    if files == [] then []
    else Routed(files[..|files| - 1], j) + TileSpeeds(files[|files| - 1], j)
  }

  /** Number of segment lists after growing for every file: each file that has a subtile
      grows the list to its first subtile's `totalSegments`, and the list never shrinks. */
  function Grown(files: seq<seq<WellSizedSubtile>>): nat {
    if files == [] then 0
    else
      var before := Grown(files[..|files| - 1]);
      var tile := files[|files| - 1];
      if tile != [] && tile[0].totalSegments > before then tile[0].totalSegments else before
  }

  /** The source indexes `segments[segmentIndex]` for every accepted sample; it raises
      unless that index lies below the number of lists grown so far, including the
      growth for the sample's own file. */
  predicate Processable(files: seq<seq<WellSizedSubtile>>) {
    forall k, s, i ::
      (0 <= k < |files| && 0 <= s < |files[k]| && 0 <= i < |files[k][s].speeds| &&
       Accepted(files[k][s].speeds[i])) ==> SegmentOf(files[k][s], i) < Grown(files[..k + 1])
  }

  /** The running `minSeconds` after one more subtile. */
  function LowerStart(acc: Option<nat>, st: Subtile): (r: Option<nat>)
    ensures r.Some? && r.value <= st.rangeStart
    ensures acc.Some? ==> r.value <= acc.value
    ensures r.value == st.rangeStart || r == acc
  {
    if acc.None? || acc.value > st.rangeStart then Some(st.rangeStart) else acc
  }

  /** The running `maxSeconds` after one more subtile. */
  function RaiseEnd(acc: Option<nat>, st: Subtile): (r: Option<nat>)
    ensures r.Some? && r.value >= st.rangeEnd
    ensures acc.Some? ==> r.value >= acc.value
    ensures r.value == st.rangeEnd || r == acc
  {
    if acc.None? || acc.value < st.rangeEnd then Some(st.rangeEnd) else acc
  }

  function MinStartIn(acc: Option<nat>, tile: seq<Subtile>): Option<nat> {
    if tile == [] then acc else LowerStart(MinStartIn(acc, tile[..|tile| - 1]), tile[|tile| - 1])
  }

  function MaxEndIn(acc: Option<nat>, tile: seq<Subtile>): Option<nat> {
    if tile == [] then acc else RaiseEnd(MaxEndIn(acc, tile[..|tile| - 1]), tile[|tile| - 1])
  }

  /** `minSeconds` after all files. */
  function MinStart(files: seq<seq<Subtile>>): Option<nat> {
    if files == [] then None else MinStartIn(MinStart(files[..|files| - 1]), files[|files| - 1])
  }

  /** `maxSeconds` after all files. */
  function MaxEnd(files: seq<seq<Subtile>>): Option<nat> {
    if files == [] then None else MaxEndIn(MaxEnd(files[..|files| - 1]), files[|files| - 1])
  }

  /** What `createAvgSpeedList` returns as its segment lists: one list per grown segment,
      each sorted and holding exactly the accepted samples routed to it. */
  ghost predicate IsAvgSpeedList(files: seq<seq<WellSizedSubtile>>, segments: seq<seq<int>>) {
    && |segments| == Grown(files)
    && (forall j :: 0 <= j < |segments| ==>
          Sorted(segments[j]) && multiset(segments[j]) == multiset(Routed(files, j)))
  }

  // ---------------------------------------------------------------------------
  // The aggregation

  /**
   * Folds the decoded files of one tile id into per-segment speed lists and the overall
   * time range. Every accepted sample lands in the list of its segment; nothing else is
   * kept; the lists are sorted at the end.
   */
  method CreateAvgSpeedList(files: seq<seq<WellSizedSubtile>>)
      returns (segments: seq<seq<int>>, minSeconds: Option<nat>, maxSeconds: Option<nat>)
    requires Processable(files)
    ensures IsAvgSpeedList(files, segments)
    ensures forall j :: j >= |segments| ==> Routed(files, j) == []
    ensures minSeconds == MinStart(files) && maxSeconds == MaxEnd(files)
  {
    segments := [];
    minSeconds, maxSeconds := None, None;
    var k := 0;
    while k < |files|
      invariant 0 <= k <= |files|
      invariant |segments| == Grown(files[..k])
      invariant forall j :: 0 <= j < |segments| ==> segments[j] == Routed(files[..k], j)
      invariant forall j :: j >= |segments| ==> Routed(files[..k], j) == []
      invariant minSeconds == MinStart(files[..k]) && maxSeconds == MaxEnd(files[..k])
    {
      var tile := files[k];
      assert files[..k + 1][..k] == files[..k] && files[..k + 1][k] == tile;
      segments, minSeconds, maxSeconds := ProcessFile(files, k, segments, minSeconds, maxSeconds);
      k := k + 1;
    }
    assert files[..k] == files;
    segments := SortEach(segments);
  }

  /** The lists collected before subtile `s` of file `k` is processed. */
  function Collected(files: seq<seq<WellSizedSubtile>>, k: nat, s: nat, j: nat): seq<int>
    requires k < |files| && s <= |files[k]|
  {
    Routed(files[..k], j) + TileSpeeds(files[k][..s], j)
  }

  /** The body of the loop over files: folds file `k` into the lists and the time range. */
  method ProcessFile(files: seq<seq<WellSizedSubtile>>, k: nat,
                     segments: seq<seq<int>>, minSeconds: Option<nat>, maxSeconds: Option<nat>)
      returns (segments': seq<seq<int>>, minSeconds': Option<nat>, maxSeconds': Option<nat>)
    requires Processable(files) && k < |files|
    requires |segments| == Grown(files[..k])
    requires forall j :: 0 <= j < |segments| ==> segments[j] == Routed(files[..k], j)
    requires forall j :: j >= |segments| ==> Routed(files[..k], j) == []
    ensures |segments'| == Grown(files[..k + 1])
    ensures forall j :: 0 <= j < |segments'| ==>
      segments'[j] == Routed(files[..k], j) + TileSpeeds(files[k], j)
    ensures forall j :: j >= |segments'| ==> Routed(files[..k], j) + TileSpeeds(files[k], j) == []
    ensures minSeconds' == MinStartIn(minSeconds, files[k])
    ensures maxSeconds' == MaxEndIn(maxSeconds, files[k])
  {
    var tile := files[k];
    segments', minSeconds', maxSeconds' := segments, minSeconds, maxSeconds;
    assert tile[..0] == [];
    var s := 0;
    while s < |tile|
      invariant 0 <= s <= |tile|
      invariant |segments'| == if s == 0 then Grown(files[..k]) else Grown(files[..k + 1])
      invariant forall j :: 0 <= j < |segments'| ==> segments'[j] == Collected(files, k, s, j)
      invariant forall j :: j >= |segments'| ==> Collected(files, k, s, j) == []
      invariant minSeconds' == MinStartIn(minSeconds, tile[..s])
      invariant maxSeconds' == MaxEndIn(maxSeconds, tile[..s])
    {
      assert tile[..s + 1][..s] == tile[..s] && tile[..s + 1][s] == tile[s];
      segments', minSeconds', maxSeconds' := ProcessSubtile(files, k, s, segments', minSeconds', maxSeconds');
      s := s + 1;
    }
    assert tile[..s] == tile;
    CollectedWhole(files, k);
    GrownStep(files, k);
  }

  /** One pass of the loop over a file's subtiles, apart from the time range: grows the
      lists to the file's segment count, then routes the subtile's samples. */
  method ProcessSubtile(files: seq<seq<WellSizedSubtile>>, k: nat, s: nat,
                        segments: seq<seq<int>>, minSeconds: Option<nat>, maxSeconds: Option<nat>)
      returns (segments': seq<seq<int>>, minSeconds': Option<nat>, maxSeconds': Option<nat>)
    requires Processable(files) && k < |files| && s < |files[k]|
    requires |segments| == if s == 0 then Grown(files[..k]) else Grown(files[..k + 1])
    requires forall j :: 0 <= j < |segments| ==> segments[j] == Collected(files, k, s, j)
    requires forall j :: j >= |segments| ==> Collected(files, k, s, j) == []
    ensures |segments'| == Grown(files[..k + 1])
    ensures forall j :: 0 <= j < |segments'| ==> segments'[j] == Collected(files, k, s + 1, j)
    ensures forall j :: j >= |segments'| ==> Routed(files[..k], j) + TileSpeeds(files[k][..s + 1], j) == []
    ensures minSeconds' == LowerStart(minSeconds, files[k][s])
    ensures maxSeconds' == RaiseEnd(maxSeconds, files[k][s])
  {
    var tile := files[k];
    var st := tile[s];
    segments', minSeconds', maxSeconds' := segments, minSeconds, maxSeconds;
    if minSeconds'.None? || minSeconds'.value > st.rangeStart {
      minSeconds' := Some(st.rangeStart);
    }
    if maxSeconds'.None? || maxSeconds'.value < st.rangeEnd {
      maxSeconds' := Some(st.rangeEnd);
    }

    // make sure there is a list for every segment of the file (read off its first subtile)
    GrownStep(files, k);
    var missing := tile[0].totalSegments - |segments'|;
    if missing > 0 {
      segments' := segments' + seq(missing, _ => []);
    }
    assert forall j :: 0 <= j < |segments'| ==> segments'[j] == Collected(files, k, s, j);

    ProcessableAt(files, k, s);
    segments' := RouteSubtile(segments', st);
    CollectedStep(files, k, s);
  }

  lemma GrownStep(files: seq<seq<WellSizedSubtile>>, k: nat)
    requires k < |files|
    ensures var before := Grown(files[..k]);
      Grown(files[..k + 1]) ==
        if files[k] != [] && files[k][0].totalSegments > before then files[k][0].totalSegments else before
  {
    assert files[..k + 1][..k] == files[..k];
  }

  lemma TileSpeedsStep(tile: seq<WellSizedSubtile>, s: nat, j: nat)
    requires s < |tile|
    ensures TileSpeeds(tile[..s + 1], j) == TileSpeeds(tile[..s], j) + SubtileSpeeds(tile[s], j, |tile[s].speeds|)
  {
    assert tile[..s + 1][..s] == tile[..s];
  }

  lemma CollectedStep(files: seq<seq<WellSizedSubtile>>, k: nat, s: nat)
    requires k < |files| && s < |files[k]|
    ensures forall j ::
      Collected(files, k, s + 1, j) == Collected(files, k, s, j) + SubtileSpeeds(files[k][s], j, |files[k][s].speeds|)
  {
    forall j | 0 <= j
      ensures Collected(files, k, s + 1, j) ==
        Collected(files, k, s, j) + SubtileSpeeds(files[k][s], j, |files[k][s].speeds|)
    {
      TileSpeedsStep(files[k], s, j);
    }
  }

  lemma CollectedWhole(files: seq<seq<WellSizedSubtile>>, k: nat)
    requires k < |files|
    ensures forall j :: Collected(files, k, |files[k]|, j) == Routed(files[..k], j) + TileSpeeds(files[k], j)
  {
    assert files[k][..|files[k]|] == files[k];
  }

  lemma ProcessableAt(files: seq<seq<WellSizedSubtile>>, k: nat, s: nat)
    requires Processable(files) && k < |files| && s < |files[k]|
    ensures forall i :: 0 <= i < |files[k][s].speeds| && Accepted(files[k][s].speeds[i]) ==>
      SegmentOf(files[k][s], i) < Grown(files[..k + 1])
  {
  }

  /** The loop over one subtile's samples: appends each accepted speed to the list of its
      segment and drops the others. */
  method RouteSubtile(segments: seq<seq<int>>, st: WellSizedSubtile) returns (routed: seq<seq<int>>)
    requires forall i :: 0 <= i < |st.speeds| && Accepted(st.speeds[i]) ==> SegmentOf(st, i) < |segments|
    ensures |routed| == |segments|
    ensures forall j :: 0 <= j < |segments| ==> routed[j] == segments[j] + SubtileSpeeds(st, j, |st.speeds|)
    ensures forall j :: j >= |segments| ==> SubtileSpeeds(st, j, |st.speeds|) == []
  {
    routed := segments;
    var entries := st.unitSize / st.entrySize;
    var i := 0;
    while i < |st.speeds|
      invariant 0 <= i <= |st.speeds|
      invariant |routed| == |segments|
      invariant forall j :: 0 <= j < |segments| ==> routed[j] == segments[j] + SubtileSpeeds(st, j, i)
      invariant forall j :: j >= |segments| ==> SubtileSpeeds(st, j, i) == []
    {
      var speed := st.speeds[i];
      var segmentIndex := st.startSegmentIndex + i / entries;
      assert segmentIndex == SegmentOf(st, i);
      if speed > 0 && speed <= MaxSpeed {
        routed := routed[segmentIndex := routed[segmentIndex] + [speed]];
      }
      // a speed above MaxSpeed is only reported; a speed <= 0 means no observation
      i := i + 1;
    }
  }

  /** The final loop: sorts every segment's list in place. */
  method SortEach(segments: seq<seq<int>>) returns (sorted: seq<seq<int>>)
    ensures |sorted| == |segments|
    ensures forall j :: 0 <= j < |segments| ==>
      Sorted(sorted[j]) && multiset(sorted[j]) == multiset(segments[j])
  {
    sorted := segments;
    var j := 0;
    while j < |sorted|
      invariant 0 <= j <= |sorted| == |segments|
      invariant forall m :: 0 <= m < j ==>
        Sorted(sorted[m]) && multiset(sorted[m]) == multiset(segments[m])
      invariant forall m :: j <= m < |sorted| ==> sorted[m] == segments[m]
    {
      sorted := sorted[j := Sort(sorted[j])];
      j := j + 1;
    }
  }
}
