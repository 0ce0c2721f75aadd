/**
 * What the aggregation promises: which samples each segment receives, how the list of
 * segments grows, what the time range is, and that the order of the input files does not
 * matter once every order can be processed. Growing by the first subtile of each file makes
 * whether an order can be processed depend on the order; growing by each subtile does not.
 */
module AggregationProperties {
  import opened Optional
  import opened Sorting
  import opened SpeedTileFormat
  import opened Aggregation

  // ---------------------------------------------------------------------------
  // Routing and filtering

  lemma {:induction false} SubtileSpeedsMembers(st: WellSizedSubtile, j: nat, n: nat, x: int)
    requires n <= |st.speeds|
    ensures x in SubtileSpeeds(st, j, n) <==>
      exists i :: 0 <= i < n && st.speeds[i] == x && Accepted(x) && SegmentOf(st, i) == j
  {
    if n > 0 {
      SubtileSpeedsMembers(st, j, n - 1, x);
      if Accepted(st.speeds[n - 1]) && SegmentOf(st, n - 1) == j && st.speeds[n - 1] == x {
        assert x in SubtileSpeeds(st, j, n);
      }
    }
  }

  lemma {:induction false} TileSpeedsMembers(tile: seq<WellSizedSubtile>, j: nat, x: int)
    ensures x in TileSpeeds(tile, j) <==>
      exists s :: 0 <= s < |tile| && x in SubtileSpeeds(tile[s], j, |tile[s].speeds|)
  {
    if tile != [] {
      var n := |tile| - 1;
      TileSpeedsMembers(tile[..n], j, x);
      assert forall s :: 0 <= s < n ==> tile[..n][s] == tile[s];
    }
  }

  lemma {:induction false} RoutedMembers(files: seq<seq<WellSizedSubtile>>, j: nat, x: int)
    ensures x in Routed(files, j) <==> exists k :: 0 <= k < |files| && x in TileSpeeds(files[k], j)
  {
    if files != [] {
      var n := |files| - 1;
      var init := files[..n];
      RoutedMembers(init, j, x);
      assert Routed(files, j) == Routed(init, j) + TileSpeeds(files[n], j);
      if x in Routed(init, j) {
        var k :| 0 <= k < n && x in TileSpeeds(init[k], j);
        assert init[k] == files[k];
      } else if x !in TileSpeeds(files[n], j) {
        forall k | 0 <= k < |files|
          ensures x !in TileSpeeds(files[k], j)
        {
          if k < n {
            assert init[k] == files[k];
          }
        }
      }
    }
  }

  /** Segment `j` receives exactly the accepted samples that route to it: a speed is in
      its list iff it is sample `i` of some subtile, lies in (0, 160], and
      `startSegmentIndex + i / entries == j`. */
  lemma RoutedIsAcceptedSamples(files: seq<seq<WellSizedSubtile>>, j: nat, x: int)
    ensures x in Routed(files, j) <==>
      exists k, s, i :: 0 <= k < |files| && 0 <= s < |files[k]| && 0 <= i < |files[k][s].speeds| &&
        files[k][s].speeds[i] == x && Accepted(x) && SegmentOf(files[k][s], i) == j
  {
    if x in Routed(files, j) {
      RoutedSampleOrigin(files, j, x);
    }
    forall k, s, i | 0 <= k < |files| && 0 <= s < |files[k]| && 0 <= i < |files[k][s].speeds| &&
                     files[k][s].speeds[i] == x && Accepted(x) && SegmentOf(files[k][s], i) == j
      ensures x in Routed(files, j)
    {
      SampleIsRouted(files, j, k, s, i);
    }
  }

  lemma RoutedSampleOrigin(files: seq<seq<WellSizedSubtile>>, j: nat, x: int)
    requires x in Routed(files, j)
    ensures exists k, s, i ::
      (0 <= k < |files| && 0 <= s < |files[k]| && 0 <= i < |files[k][s].speeds| &&
       files[k][s].speeds[i] == x && Accepted(x) && SegmentOf(files[k][s], i) == j)
  {
    RoutedMembers(files, j, x);
    var k :| 0 <= k < |files| && x in TileSpeeds(files[k], j);
    TileSpeedsMembers(files[k], j, x);
    var s :| 0 <= s < |files[k]| && x in SubtileSpeeds(files[k][s], j, |files[k][s].speeds|);
    SubtileSpeedsMembers(files[k][s], j, |files[k][s].speeds|, x);
  }

  lemma SampleIsRouted(files: seq<seq<WellSizedSubtile>>, j: nat, k: nat, s: nat, i: nat)
    requires k < |files| && s < |files[k]| && i < |files[k][s].speeds|
    requires Accepted(files[k][s].speeds[i]) && SegmentOf(files[k][s], i) == j
    ensures files[k][s].speeds[i] in Routed(files, j)
  {
    var x := files[k][s].speeds[i];
    SubtileSpeedsMembers(files[k][s], j, |files[k][s].speeds|, x);
    TileSpeedsMembers(files[k], j, x);
    RoutedMembers(files, j, x);
  }

  // ---------------------------------------------------------------------------
  // Growth of the segment lists

  /** The number of lists is the largest first-subtile `totalSegments` over the files that
      have a subtile, or 0 when there is none. */
  lemma {:induction false} GrownIsLargestTotal(files: seq<seq<WellSizedSubtile>>)
    ensures forall k :: 0 <= k < |files| && files[k] != [] ==> files[k][0].totalSegments <= Grown(files)
    ensures Grown(files) == 0 ||
      exists k :: 0 <= k < |files| && files[k] != [] && files[k][0].totalSegments == Grown(files)
  {
    if files != [] {
      var n := |files| - 1;
      GrownIsLargestTotal(files[..n]);
      assert forall k :: 0 <= k < n ==> files[..n][k] == files[k];
    }
  }

  /** Processing more files never shrinks the list of segments. */
  lemma {:induction false} GrowthNeverShrinks(files: seq<seq<WellSizedSubtile>>, k: nat, m: nat)
    requires k <= m <= |files|
    ensures Grown(files[..k]) <= Grown(files[..m])
    decreases m - k
  {
    if k < m {
      GrowthNeverShrinks(files, k + 1, m);
      GrownStep(files, k);
    }
  }

  /** A simpler condition that makes every index valid: each accepted sample routes below the
      segment count of its own file's first subtile. */
  lemma SelfContainedFilesAreProcessable(files: seq<seq<WellSizedSubtile>>)
    requires forall k, s, i ::
      (0 <= k < |files| && 0 <= s < |files[k]| && 0 <= i < |files[k][s].speeds| &&
       Accepted(files[k][s].speeds[i])) ==> SegmentOf(files[k][s], i) < files[k][0].totalSegments
    ensures Processable(files)
  {
    forall k | 0 <= k < |files| && files[k] != []
      ensures files[k][0].totalSegments <= Grown(files[..k + 1])
    {
      GrownIsLargestTotal(files[..k + 1]);
      assert files[..k + 1][k] == files[k];
    }
  }

  // ---------------------------------------------------------------------------
  // The time range

  lemma {:induction false} MinStartInIsLeast(acc: Option<nat>, tile: seq<Subtile>)
    ensures MinStartIn(acc, tile).None? <==> acc.None? && tile == []
    ensures MinStartIn(acc, tile).Some? ==>
      var m := MinStartIn(acc, tile).value;
      && (acc == Some(m) || exists s :: 0 <= s < |tile| && tile[s].rangeStart == m)
      && (acc.Some? ==> m <= acc.value)
      && forall s :: 0 <= s < |tile| ==> m <= tile[s].rangeStart
  {
    if tile != [] {
      var n := |tile| - 1;
      MinStartInIsLeast(acc, tile[..n]);
      assert forall s :: 0 <= s < n ==> tile[..n][s] == tile[s];
    }
  }

  lemma {:induction false} MaxEndInIsGreatest(acc: Option<nat>, tile: seq<Subtile>)
    ensures MaxEndIn(acc, tile).None? <==> acc.None? && tile == []
    ensures MaxEndIn(acc, tile).Some? ==>
      var m := MaxEndIn(acc, tile).value;
      && (acc == Some(m) || exists s :: 0 <= s < |tile| && tile[s].rangeEnd == m)
      && (acc.Some? ==> acc.value <= m)
      && forall s :: 0 <= s < |tile| ==> tile[s].rangeEnd <= m
  {
    if tile != [] {
      var n := |tile| - 1;
      MaxEndInIsGreatest(acc, tile[..n]);
      assert forall s :: 0 <= s < n ==> tile[..n][s] == tile[s];
    }
  }

  /** `minSeconds` stays unset exactly when no file has a subtile; otherwise it is the
      smallest `rangeStart` of all subtiles of all files. */
  lemma {:induction false} MinStartIsLeast(files: seq<seq<Subtile>>)
    ensures MinStart(files).None? <==> forall k :: 0 <= k < |files| ==> files[k] == []
    ensures MinStart(files).Some? ==>
      var m := MinStart(files).value;
      && (exists k, s :: 0 <= k < |files| && 0 <= s < |files[k]| && files[k][s].rangeStart == m)
      && forall k, s :: 0 <= k < |files| && 0 <= s < |files[k]| ==> m <= files[k][s].rangeStart
  {
    if files != [] {
      var n := |files| - 1;
      MinStartIsLeast(files[..n]);
      MinStartInIsLeast(MinStart(files[..n]), files[n]);
      assert forall k :: 0 <= k < n ==> files[..n][k] == files[k];
    }
  }

  /** `maxSeconds` stays unset exactly when no file has a subtile; otherwise it is the
      largest `rangeEnd` of all subtiles of all files. */
  lemma {:induction false} MaxEndIsGreatest(files: seq<seq<Subtile>>)
    ensures MaxEnd(files).None? <==> forall k :: 0 <= k < |files| ==> files[k] == []
    ensures MaxEnd(files).Some? ==>
      var m := MaxEnd(files).value;
      && (exists k, s :: 0 <= k < |files| && 0 <= s < |files[k]| && files[k][s].rangeEnd == m)
      && forall k, s :: 0 <= k < |files| && 0 <= s < |files[k]| ==> files[k][s].rangeEnd <= m
  {
    if files != [] {
      var n := |files| - 1;
      MaxEndIsGreatest(files[..n]);
      MaxEndInIsGreatest(MaxEnd(files[..n]), files[n]);
      assert forall k :: 0 <= k < n ==> files[..n][k] == files[k];
    }
  }

  // ---------------------------------------------------------------------------
  // Independence from the order of the files

  /** An element of one of two permuted lists sits somewhere in the other. */
  lemma Counterpart<T>(a: seq<T>, b: seq<T>, k: nat) returns (k': nat)
    requires multiset(a) == multiset(b) && k < |a|
    ensures k' < |b| && b[k'] == a[k]
  {
    assert a[k] in multiset(b);
    k' :| 0 <= k' < |b| && b[k'] == a[k];
  }

  lemma {:induction false} RoutedAppend(a: seq<seq<WellSizedSubtile>>, b: seq<seq<WellSizedSubtile>>, j: nat)
    ensures Routed(a + b, j) == Routed(a, j) + Routed(b, j)
  {
    if b == [] {
      assert a + b == a;
    } else {
      var n := |b| - 1;
      calc {
        Routed(a + b, j);
      == { assert (a + b)[..|a + b| - 1] == a + b[..n] && (a + b)[|a + b| - 1] == b[n]; }
        Routed(a + b[..n], j) + TileSpeeds(b[n], j);
      == { RoutedAppend(a, b[..n], j); }
        Routed(a, j) + Routed(b[..n], j) + TileSpeeds(b[n], j);
      }
    }
  }

  lemma {:induction false} RoutedPermutation(a: seq<seq<WellSizedSubtile>>, b: seq<seq<WellSizedSubtile>>, j: nat)
    requires multiset(a) == multiset(b)
    ensures multiset(Routed(a, j)) == multiset(Routed(b, j))
  {
    if a == [] {
      assert |b| == |multiset(b)| == 0;
    } else {
      var n := |a| - 1;
      var p := Counterpart(a, b, n);
      var rest := b[..p] + b[p + 1..];
      assert a[..n] + a[n..] == a && a[n..] == [a[n]];
      assert multiset(a[..n]) == multiset(rest) by {
        RemoveAt(a, n);
        RemoveAt(b, p);
      }
      RoutedPermutation(a[..n], rest, j);
      RoutedRemoveAt(b, p, j);
    }
  }

  lemma RemoveAt<T>(s: seq<T>, p: nat)
    requires p < |s|
    ensures multiset(s[..p] + s[p + 1..]) == multiset(s) - multiset{s[p]}
  {
    assert s == s[..p] + [s[p]] + s[p + 1..];
  }

  lemma RoutedRemoveAt(b: seq<seq<WellSizedSubtile>>, p: nat, j: nat)
    requires p < |b|
    ensures multiset(Routed(b, j)) == multiset(Routed(b[..p] + b[p + 1..], j)) + multiset(TileSpeeds(b[p], j))
  {
    var left, x, right := b[..p], b[p], b[p + 1..];
    assert b == left + [x] + right;
    RoutedSplit(left, x, right, j);
    RoutedAppend(left, right, j);
  }

  /** The speeds of one file sit between those of the files before and after it. */
  lemma RoutedSplit(left: seq<seq<WellSizedSubtile>>, x: seq<WellSizedSubtile>,
                    right: seq<seq<WellSizedSubtile>>, j: nat)
    ensures Routed(left + [x] + right, j) == Routed(left, j) + TileSpeeds(x, j) + Routed(right, j)
  {
    var single: seq<seq<WellSizedSubtile>> := [x];
    calc {
      Routed(left + single + right, j);
    == { RoutedAppend(left + single, right, j); }
      Routed(left + single, j) + Routed(right, j);
    == { RoutedAppend(left, single, j); }
      Routed(left, j) + Routed(single, j) + Routed(right, j);
    == { assert single[..0] == []; }
      Routed(left, j) + TileSpeeds(x, j) + Routed(right, j);
    }
  }

  lemma GrownPermutation(a: seq<seq<WellSizedSubtile>>, b: seq<seq<WellSizedSubtile>>)
    requires multiset(a) == multiset(b)
    ensures Grown(a) == Grown(b)
  {
    GrownIsLargestTotal(a);
    GrownIsLargestTotal(b);
    if Grown(a) != 0 {
      var k :| 0 <= k < |a| && a[k] != [] && a[k][0].totalSegments == Grown(a);
      var k' := Counterpart(a, b, k);
    }
    if Grown(b) != 0 {
      var k :| 0 <= k < |b| && b[k] != [] && b[k][0].totalSegments == Grown(b);
      var k' := Counterpart(b, a, k);
    }
  }

  lemma MinStartPermutation(a: seq<seq<Subtile>>, b: seq<seq<Subtile>>)
    requires multiset(a) == multiset(b)
    ensures MinStart(a) == MinStart(b)
  {
    MinStartIsLeast(a);
    MinStartIsLeast(b);
    if MinStart(a).Some? {
      var k, s :| 0 <= k < |a| && 0 <= s < |a[k]| && a[k][s].rangeStart == MinStart(a).value;
      var k' := Counterpart(a, b, k);
      assert b[k'][s] == a[k][s];
    }
    if MinStart(b).Some? {
      var k, s :| 0 <= k < |b| && 0 <= s < |b[k]| && b[k][s].rangeStart == MinStart(b).value;
      var k' := Counterpart(b, a, k);
      assert a[k'][s] == b[k][s];
    }
  }

  lemma MaxEndPermutation(a: seq<seq<Subtile>>, b: seq<seq<Subtile>>)
    requires multiset(a) == multiset(b)
    ensures MaxEnd(a) == MaxEnd(b)
  {
    MaxEndIsGreatest(a);
    MaxEndIsGreatest(b);
    if MaxEnd(a).Some? {
      var k, s :| 0 <= k < |a| && 0 <= s < |a[k]| && a[k][s].rangeEnd == MaxEnd(a).value;
      var k' := Counterpart(a, b, k);
      assert b[k'][s] == a[k][s];
    }
    if MaxEnd(b).Some? {
      var k, s :| 0 <= k < |b| && 0 <= s < |b[k]| && b[k][s].rangeEnd == MaxEnd(b).value;
      var k' := Counterpart(b, a, k);
      assert a[k'][s] == b[k][s];
    }
  }

  /** Aggregating the same files in any order gives the same segment lists and the same
      time range. */
  lemma OrderIndependent(files: seq<seq<WellSizedSubtile>>, files': seq<seq<WellSizedSubtile>>,
                         segments: seq<seq<int>>, segments': seq<seq<int>>)
    requires multiset(files) == multiset(files')
    requires IsAvgSpeedList(files, segments) && IsAvgSpeedList(files', segments')
    ensures segments == segments'
    ensures MinStart(files) == MinStart(files') && MaxEnd(files) == MaxEnd(files')
  {
    GrownPermutation(files, files');
    forall j | 0 <= j < |segments|
      ensures segments[j] == segments'[j]
    {
      RoutedPermutation(files, files', j);
      SortedUnique(segments[j], segments'[j]);
    }
    MinStartPermutation(files, files');
    MaxEndPermutation(files, files');
  }

  // ---------------------------------------------------------------------------
  // Growing by the first subtile of a file makes the outcome depend on file order

  /** Every accepted sample of `st` routes to a segment of `st`'s own tile. */
  predicate RoutesInside(st: WellSizedSubtile) {
    forall i :: 0 <= i < |st.speeds| && Accepted(st.speeds[i]) ==> SegmentOf(st, i) < st.totalSegments
  }

  /** A subtile of a tile of 10 segments with one accepted sample, for segment 8. */
  const Wide: WellSizedSubtile := Subtile(0, 0, 8, 10, 2, 0, 1, 1, 1, [50])

  /** A subtile without samples that announces a tile of only 5 segments. */
  const Narrow: WellSizedSubtile := Subtile(0, 0, 0, 5, 5, 0, 1, 1, 1, [])

  /** Both subtiles route inside their own tile, yet the file `[Narrow, Wide]` grows the lists
      to 5 only, so its sample for segment 8 indexes past them unless a file holding `Wide`
      came first: one order is processed, the other raises. */
  lemma FirstSubtileGrowthIsOrderDependent()
    ensures RoutesInside(Wide) && RoutesInside(Narrow)
    ensures Processable([[Wide], [Narrow, Wide]])
    ensures !Processable([[Narrow, Wide], [Wide]])
  {
    assert SegmentOf(Wide, 0) == 8;
    var good := [[Wide], [Narrow, Wide]];
    assert good[..1] == [[Wide]] && good[..2] == good;
    assert Grown(good[..1]) == 10 && Grown(good[..2]) == 10;
    var bad := [[Narrow, Wide], [Wide]];
    assert bad[..1] == [[Narrow, Wide]];
    assert Grown(bad[..1]) == 5;
    assert bad[0][1] == Wide && Accepted(Wide.speeds[0]);
  }

  /** All subtiles of `files`, in processing order. */
  function Subtiles(files: seq<seq<WellSizedSubtile>>): seq<WellSizedSubtile> {
    if files == [] then [] else Subtiles(files[..|files| - 1]) + files[|files| - 1]
  }

  /** The number of lists when every subtile grows them to its own `totalSegments`. */
  function GrownBySubtile(subtiles: seq<WellSizedSubtile>): nat {
    if subtiles == [] then 0
    else
      var before := GrownBySubtile(subtiles[..|subtiles| - 1]);
      var total := subtiles[|subtiles| - 1].totalSegments;
      if total > before then total else before
  }

  /** Under growth by each subtile, every accepted sample indexes below the lists grown up to
      and including its own subtile. */
  predicate ProcessableBySubtile(files: seq<seq<WellSizedSubtile>>) {
    var flat := Subtiles(files);
    forall n, i :: 0 <= n < |flat| && 0 <= i < |flat[n].speeds| && Accepted(flat[n].speeds[i]) ==>
      SegmentOf(flat[n], i) < GrownBySubtile(flat[..n + 1])
  }

  lemma {:induction false} SubtilesMembers(files: seq<seq<WellSizedSubtile>>)
    ensures forall st :: st in Subtiles(files) ==> exists k :: 0 <= k < |files| && st in files[k]
  {
    if files != [] {
      var n := |files| - 1;
      SubtilesMembers(files[..n]);
      forall st | st in Subtiles(files)
        ensures exists k :: 0 <= k < |files| && st in files[k]
      {
        if st in Subtiles(files[..n]) {
          var k :| 0 <= k < n && st in files[..n][k];
          assert files[..n][k] == files[k];
        } else {
          assert st in files[n];
        }
      }
    }
  }

  /** Growing by each subtile, files whose subtiles route inside their own tiles are
      processed whatever their order: no arrangement of them raises. */
  lemma SubtileGrowthIsOrderFree(files: seq<seq<WellSizedSubtile>>)
    requires forall k, st :: 0 <= k < |files| && st in files[k] ==> RoutesInside(st)
    ensures ProcessableBySubtile(files)
  {
    var flat := Subtiles(files);
    SubtilesMembers(files);
    forall n | 0 <= n < |flat|
      ensures RoutesInside(flat[n]) && flat[n].totalSegments <= GrownBySubtile(flat[..n + 1])
    {
      assert flat[n] in flat;
      assert flat[..n + 1][..n] == flat[..n] && flat[..n + 1][n] == flat[n];
    }
  }

  /** The two files that raise in one order under first-subtile growth are processed in both
      orders under growth by each subtile. */
  lemma SubtileGrowthProcessesBothOrders()
    ensures ProcessableBySubtile([[Wide], [Narrow, Wide]])
    ensures ProcessableBySubtile([[Narrow, Wide], [Wide]])
  {
    FirstSubtileGrowthIsOrderDependent();
    SubtileGrowthIsOrderFree([[Wide], [Narrow, Wide]]);
    SubtileGrowthIsOrderFree([[Narrow, Wide], [Wide]]);
  }
}
