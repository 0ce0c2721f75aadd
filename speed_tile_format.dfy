/**
 * The decoded speed-tile records that the reference-speed builder reads and writes.
 * A speed tile file decodes to a list of subtiles; each subtile covers a contiguous
 * range of road segments of one tile over one time window.
 */
module SpeedTileFormat {

  /** The fields of one decoded input subtile that the aggregation reads. The schema's
      integer fields are unsigned, so they are `nat` here; samples are signed. */
  datatype Subtile = Subtile(
    level: nat,
    index: nat,
    startSegmentIndex: nat,
    totalSegments: nat,
    subtileSegments: nat,
    rangeStart: nat,
    rangeEnd: nat,
    unitSize: nat,
    entrySize: nat,
    speeds: seq<int>)

  /** A decoded speed tile file: its subtiles, in file order. */
  type SpeedTile = seq<Subtile>

  /** A subtile the aggregation can read without dividing by zero: `unitSize / entrySize`
      needs `entrySize > 0`, and routing a sample needs at least one entry per segment. */
  predicate WellSized(st: Subtile) {
    st.entrySize > 0 && (st.speeds != [] ==> st.unitSize / st.entrySize > 0)
  }

  type WellSizedSubtile = st: Subtile | WellSized(st)
    witness Subtile(0, 0, 0, 0, 0, 0, 0, 1, 1, [])

  /** The single output subtile of a reference speed tile: one annual summary whose four
      parallel lists hold one percentile speed per segment (0 meaning no data). */
  datatype RefSubtile = RefSubtile(
    level: nat,
    index: nat,
    startSegmentIndex: nat,
    totalSegments: nat,
    subtileSegments: nat,
    rangeStart: nat,
    rangeEnd: nat,
    unitSize: int,
    entrySize: int,
    referenceSpeeds20: seq<int>,
    referenceSpeeds40: seq<int>,
    referenceSpeeds60: seq<int>,
    referenceSpeeds80: seq<int>)

  /**
   * How many sibling subtile files make up one tile at one time window, read off the
   * first subtile of the first file: 0 when the whole tile fits in it, otherwise the
   * least count whose subtiles cover every segment. The source divides in floating point;
   * the exact ceiling is used here.
   */
  function TileCount(tile: SpeedTile): (count: nat)
    requires |tile| > 0
    requires tile[0].totalSegments <= tile[0].subtileSegments || tile[0].subtileSegments > 0
    ensures count == 0 <==> tile[0].totalSegments <= tile[0].subtileSegments
    ensures count > 0 ==> count * tile[0].subtileSegments >= tile[0].totalSegments
    ensures count > 0 ==> (count - 1) * tile[0].subtileSegments < tile[0].totalSegments
  {
    var total, per := tile[0].totalSegments, tile[0].subtileSegments;
    if total <= per then 0
    else
      var count := (total + per - 1) / per;
      CeilingCovers(total, per);
      count
  }

  /** `(total + per - 1) / per` is the least multiple count of `per` reaching `total`. */
  lemma CeilingCovers(total: nat, per: nat)
    requires per > 0 && total > per
    ensures var c := (total + per - 1) / per;
      c > 0 && c * per >= total && (c - 1) * per < total
  {
    var c := (total + per - 1) / per;
    var r := (total + per - 1) % per;
    assert total + per - 1 == c * per + r && 0 <= r < per;
    assert c * per >= total;
    assert (c - 1) * per == c * per - per;
  }
}
