/** Merging the latitude sweep and the longitude sweep into one zigzag
    (boustrophedon) flight path. */
module Boustrophedon {
  import opened Geo

  /** The sequence in reverse order. */
  function Reversed(s: seq<real>): (r: seq<real>)
    ensures |r| == |s|
  {
    seq(|s|, i requires 0 <= i < |s| => s[|s| - 1 - i])
  }

  /** Block k of the path, all at longitude `lon`: the latitudes forward for
      even k, backward for odd k. */
  function Block(lats: seq<real>, lon: real, k: nat): (r: seq<Point>)
    ensures |r| == |lats|
  {
    var forward := k % 2 == 0;
    seq(|lats|, j requires 0 <= j < |lats| =>
      Point(if forward then lats[j] else lats[|lats| - 1 - j], lon))
  }

  /** The first `count` blocks of the path, block k at longitude k. */
  function Blocks(lats: seq<real>, lons: seq<real>, count: nat): seq<Point>
    requires count <= |lons|
  {
    if count == 0 then []
    else Blocks(lats, lons, count - 1) + Block(lats, lons[count - 1], count - 1)
  }

  /** The zigzag path: one block per longitude, directions alternating. */
  function Zigzag(lats: seq<real>, lons: seq<real>): seq<Point>
  {
    Blocks(lats, lons, |lons|)
  }

  /** Index of the first point of block k when every block has n points. */
  function BlockStart(k: nat, n: nat): nat
  {
    if k == 0 then 0 else BlockStart(k - 1, n) + n
  }

  lemma {:induction false} BlockStartIsProduct(k: nat, n: nat)
    ensures BlockStart(k, n) == k * n
  {
    if k > 0 {
      BlockStartIsProduct(k - 1, n);
      assert (k - 1) * n + n == k * n;
    }
  }

  /** Later blocks start after earlier blocks end. */
  lemma {:induction false} BlockStartMonotone(k: nat, l: nat, n: nat)
    requires k < l
    ensures BlockStart(k, n) + n <= BlockStart(l, n)
    decreases l
  {
    if k + 1 < l {
      BlockStartMonotone(k, l - 1, n);
    }
  }

  lemma {:induction false} BlocksLength(lats: seq<real>, lons: seq<real>, count: nat)
    requires count <= |lons|
    ensures |Blocks(lats, lons, count)| == BlockStart(count, |lats|)
  {
    if count > 0 {
      BlocksLength(lats, lons, count - 1);
    }
  }

  /** The path has one point per (longitude, latitude) pair. */
  lemma ZigzagLength(lats: seq<real>, lons: seq<real>)
    ensures |Zigzag(lats, lons)| == BlockStart(|lons|, |lats|) == |lats| * |lons|
  {
    BlocksLength(lats, lons, |lons|);
    BlockStartIsProduct(|lons|, |lats|);
  }

  lemma NextParity(i: nat)
    ensures (i + 1) % 2 == 1 <==> i % 2 == 0
    ensures (i + 1) % 2 == 0 <==> i % 2 == 1
  {
  }

  lemma TakeOneMore(s: seq<Point>, j: nat)
    requires j < |s|
    ensures s[..j + 1] == s[..j] + [s[j]]
  {
  }

  /** Point j of block k: latitude j forward, latitude n-1-j backward. */
  lemma BlockAt(lats: seq<real>, lon: real, k: nat, j: nat)
    requires j < |lats|
    ensures Block(lats, lon, k)[j] == Point(if k % 2 == 0 then lats[j] else lats[|lats| - 1 - j], lon)
  {
  }

  /** Indexing the first `count` blocks: below the last block's start it is
      indexing the first `count - 1` blocks, from there on the last block. */
  lemma BlocksSplit(lats: seq<real>, lons: seq<real>, count: nat, x: nat)
    requires 0 < count <= |lons| && x < BlockStart(count, |lats|)
    ensures |Blocks(lats, lons, count)| == BlockStart(count, |lats|)
    ensures x < BlockStart(count - 1, |lats|) ==>
      Blocks(lats, lons, count)[x] == Blocks(lats, lons, count - 1)[x]
    ensures x >= BlockStart(count - 1, |lats|) ==>
      Blocks(lats, lons, count)[x] ==
      Block(lats, lons[count - 1], count - 1)[x - BlockStart(count - 1, |lats|)]
  {
    BlocksLength(lats, lons, count);
    BlocksLength(lats, lons, count - 1);
  }

  lemma {:induction false} BlocksAt(lats: seq<real>, lons: seq<real>, count: nat, k: nat, j: nat)
    requires k < count <= |lons| && j < |lats|
    ensures BlockStart(k, |lats|) + j < |Blocks(lats, lons, count)|
    ensures Blocks(lats, lons, count)[BlockStart(k, |lats|) + j] ==
      Point(if k % 2 == 0 then lats[j] else lats[|lats| - 1 - j], lons[k])
  {
    var n := |lats|;
    var offset := BlockStart(k, n) + j;
    if k == count - 1 {
      BlocksSplit(lats, lons, count, offset);
      BlockAt(lats, lons[k], k, j);
    } else {
      BlockStartMonotone(k, count - 1, n);
      BlocksSplit(lats, lons, count, offset);
      BlocksAt(lats, lons, count - 1, k, j);
    }
  }

  /** Closed form: point j of block k, at index k*n + j, lies on longitude k
      and visits latitude j when k is even, latitude n-1-j when k is odd. */
  lemma ZigzagAt(lats: seq<real>, lons: seq<real>, k: nat, j: nat)
    requires k < |lons| && j < |lats|
    ensures k * |lats| + j < |Zigzag(lats, lons)|
    ensures Zigzag(lats, lons)[k * |lats| + j] ==
      Point(if k % 2 == 0 then lats[j] else lats[|lats| - 1 - j], lons[k])
  {
    BlockStartIsProduct(k, |lats|);
    BlocksAt(lats, lons, |lons|, k, j);
  }

  /** Consecutive blocks meet: the last latitude of block k is the first
      latitude of block k+1, so the path only steps in longitude between them. */
  lemma ZigzagContinuous(lats: seq<real>, lons: seq<real>, k: nat)
    requires |lats| > 0 && k + 1 < |lons|
    ensures (k + 1) * |lats| < |Zigzag(lats, lons)|
    ensures Zigzag(lats, lons)[(k + 1) * |lats| - 1].latitude ==
            Zigzag(lats, lons)[(k + 1) * |lats|].latitude
  {
    var n := |lats|;
    var path := Zigzag(lats, lons);
    var start := k * n;
    assert (k + 1) * n == start + n;
    ZigzagAt(lats, lons, k, n - 1);
    ZigzagAt(lats, lons, k + 1, 0);
    NextParity(k);
    if k % 2 == 0 {
      assert path[start + n - 1].latitude == lats[n - 1];
      assert path[start + n].latitude == lats[n - 1];
    } else {
      assert path[start + n - 1].latitude == lats[0];
      assert path[start + n].latitude == lats[0];
    }
  }

  /** Consecutive blocks visit the latitudes in opposite orders. */
  lemma ZigzagAlternates(lats: seq<real>, lons: seq<real>, k: nat, j: nat)
    requires k + 1 < |lons| && j < |lats|
    ensures (k + 1) * |lats| + j < |Zigzag(lats, lons)|
    ensures k * |lats| + (|lats| - 1 - j) < |Zigzag(lats, lons)|
    ensures Zigzag(lats, lons)[(k + 1) * |lats| + j].latitude ==
            Zigzag(lats, lons)[k * |lats| + (|lats| - 1 - j)].latitude
  {
    var n := |lats|;
    var path := Zigzag(lats, lons);
    var here, next := k * n + (n - 1 - j), (k + 1) * n + j;
    ZigzagAt(lats, lons, k + 1, j);
    ZigzagAt(lats, lons, k, n - 1 - j);
    NextParity(k);
    if k % 2 == 0 {
      assert path[here].latitude == lats[n - 1 - j];
      assert path[next].latitude == lats[n - 1 - j];
    } else {
      assert path[here].latitude == lats[j];
      assert path[next].latitude == lats[j];
    }
  }

  /** The merge: latitudes are taken from the latitude sweep, longitudes from
      the longitude sweep; for each longitude the latitudes are emitted forward
      or backward, and the direction flag changes whenever the last latitude of
      the list is emitted. An empty latitude sweep fails, as indexing its first
      and last element does. */
  method GenerateAllPoints(verticalPoints: seq<Point>, horizontalPoints: seq<Point>)
    returns (r: Result<seq<Point>>)
    ensures r.Err? <==> |verticalPoints| == 0
    ensures r.Err? ==> r.error == EmptyLatitudeList
    ensures r.Ok? ==> r.value == Zigzag(Latitudes(verticalPoints), Longitudes(horizontalPoints))
    ensures r.Ok? ==> |r.value| == |verticalPoints| * |horizontalPoints|
  {
    var verticalLatitudes := Latitudes(verticalPoints);
    var horizontalLongitudes := Longitudes(horizontalPoints);
    if |verticalLatitudes| == 0 {
      return Err(EmptyLatitudeList);
    }
    var n := |verticalLatitudes|;
    var reverse := false;
    var allPoints: seq<Point> := [];
    var lastLat := verticalLatitudes[n - 1];

    for i := 0 to |horizontalLongitudes|
      invariant allPoints == Blocks(verticalLatitudes, horizontalLongitudes, i)
      invariant reverse <==> i % 2 == 1
    {
      var lon := horizontalLongitudes[i];
      ghost var before := allPoints;
      ghost var block := Block(verticalLatitudes, lon, i);
      NextParity(i);
      if !reverse {
        for j := 0 to n
          invariant allPoints == before + block[..j]
          invariant j > 0 && verticalLatitudes[j - 1] == lastLat ==> reverse
        {
          BlockAt(verticalLatitudes, lon, i, j);
          TakeOneMore(block, j);
          allPoints := allPoints + [Point(verticalLatitudes[j], lon)];
          if lastLat == verticalLatitudes[j] {
            reverse := true;
          }
        }
      } else {
        var backward := Reversed(verticalLatitudes);
        assert backward[0] == lastLat;
        for j := 0 to n
          invariant allPoints == before + block[..j]
          invariant j > 0 ==> !reverse
        {
          BlockAt(verticalLatitudes, lon, i, j);
          TakeOneMore(block, j);
          allPoints := allPoints + [Point(backward[j], lon)];
          if lastLat == backward[j] {
            reverse := false;
          }
        }
      }
      assert block[..n] == block;
    }
    ZigzagLength(verticalLatitudes, horizontalLongitudes);
    return Ok(allPoints);
  }
}
