/**
 Splitting a download into byte ranges, and limiting how many by the minimum size
 of a split. A range is a pair of inclusive positions.
 */
module Split {
  import opened Numbers

  type Range = (int, int)

  function Size(r: Range): int { r.1 - r.0 + 1 }

  /** The ranges are not empty, follow one another without gap or overlap, and cover exactly [start, end). */
  predicate Tiles(ranges: seq<Range>, start: int, end: int)
    decreases |ranges|
  {
    if ranges == [] then start == end
    else ranges[0].0 == start && ranges[0].0 <= ranges[0].1 && Tiles(ranges[1..], ranges[0].1 + 1, end)
  }

  function TotalSize(ranges: seq<Range>): int
    decreases |ranges|
  {
    if ranges == [] then 0 else Size(ranges[0]) + TotalSize(ranges[1..])
  }

  lemma {:induction false} TilesSnoc(ranges: seq<Range>, start: int, mid: int, end: int)
    requires Tiles(ranges, start, mid) && mid < end
    ensures Tiles(ranges + [(mid, end - 1)], start, end)
    decreases |ranges|
  {
    if ranges == [] {
      assert ranges + [(mid, end - 1)] == [(mid, end - 1)];
    } else {
      assert (ranges + [(mid, end - 1)])[1..] == ranges[1..] + [(mid, end - 1)];
      TilesSnoc(ranges[1..], ranges[0].1 + 1, mid, end);
    }
  }

  /** Every position of [start, end) lies in exactly one tile, and no tile reaches outside. */
  lemma {:induction false} TilesCover(ranges: seq<Range>, start: int, end: int, x: int)
    requires Tiles(ranges, start, end)
    ensures start <= end
    ensures start <= x < end <==> exists k :: 0 <= k < |ranges| && ranges[k].0 <= x <= ranges[k].1
    ensures forall j, k | 0 <= j < k < |ranges| :: ranges[j].1 < ranges[k].0
    decreases |ranges|
  {
    if ranges != [] {
      var rest := ranges[1..];
      var next := ranges[0].1 + 1;
      TilesCover(rest, next, end, x);
      forall k | 0 < k < |ranges| ensures ranges[k].0 >= next {
        TilesCover(rest, next, end, ranges[k].0);
        TilesNotEmpty(rest, next, end, k - 1);
        assert rest[k - 1] == ranges[k] && rest[k - 1].0 <= ranges[k].0 <= rest[k - 1].1;
      }
      forall j, k | 0 <= j < k < |ranges| ensures ranges[j].1 < ranges[k].0 {
        if j > 0 { assert rest[j - 1] == ranges[j] && rest[k - 1] == ranges[k]; }
      }
      if start <= x < end {
        if x < next {
          assert ranges[0].0 <= x <= ranges[0].1;
        } else {
          var k :| 0 <= k < |rest| && rest[k].0 <= x <= rest[k].1;
          assert ranges[k + 1].0 <= x <= ranges[k + 1].1;
        }
      }
      if k :| 0 <= k < |ranges| && ranges[k].0 <= x <= ranges[k].1 {
        if k > 0 { assert rest[k - 1].0 <= x <= rest[k - 1].1; }
      }
    }
  }

  lemma {:induction false} TilesNotEmpty(ranges: seq<Range>, start: int, end: int, k: nat)
    requires Tiles(ranges, start, end) && k < |ranges|
    ensures ranges[k].0 <= ranges[k].1
    decreases |ranges|
  {
    if k > 0 { TilesNotEmpty(ranges[1..], ranges[0].1 + 1, end, k - 1); }
  }

  /** The sizes of the tiles add up to the whole. */
  lemma {:induction false} TilesTotal(ranges: seq<Range>, start: int, end: int)
    requires Tiles(ranges, start, end)
    ensures TotalSize(ranges) == end - start
    decreases |ranges|
  {
    if ranges != [] { TilesTotal(ranges[1..], ranges[0].1 + 1, end); }
  }

  /** Rounded up. */
  function CeilDiv(n: nat, d: nat): nat
    requires d > 0
  {
    if n % d == 0 then n / d else n / d + 1
  }

  lemma CeilDivStep(n: nat, d: nat)
    requires d > 0 && n > d
    ensures CeilDiv(n, d) == CeilDiv(n - d, d) + 1
  {
    var q := (n - d) / d;
    Quotient(n - d, d);
    assert (q + 1) * d == q * d + d && (q + 2) * d == (q + 1) * d + d;
    QuotientUnique(n, d, q + 1);
    Remainder(n, d);
    Remainder(n - d, d);
  }

  /** `EffectiveSegmentCount`. */
  method EffectiveSegmentCount(total: int, start: int, split: int, maxConn: int, minSplitSize: int) returns (n: int)
    ensures n >= 1 && n <= Max(split, 1) && (maxConn > 0 ==> n <= maxConn)
    ensures total <= start ==> n == 1
    ensures total > start && minSplitSize > 0 ==> n == 1 || n * minSplitSize <= total - start
    ensures total > start && n < Max(split, 1) && !(maxConn > 0 && n == maxConn) ==>
      minSplitSize > 0 && (n + 1) * minSplitSize > total - start
  {
    n := split;
    if n <= 0 {
      n := 1;
    }
    if maxConn > 0 && n > maxConn {
      n := maxConn;
    }
    if total <= start {
      return 1;
    }
    if minSplitSize > 0 {
      var remaining := total - start;
      var maxSeg := remaining / minSplitSize;
      Quotient(remaining, minSplitSize);
      if maxSeg < 1 {
        maxSeg := 1;
      }
      if n > maxSeg {
        n := maxSeg;
      } else {
        Product(n, maxSeg, minSplitSize);
      }
    }
    if n <= 0 {
      n := 1;
    }
  }

  lemma Quotient(n: int, d: int)
    requires d > 0
    ensures (n / d) * d <= n < (n / d + 1) * d
  {
  }

  lemma QuotientUnique(n: int, d: int, q: int)
    requires d > 0 && q * d <= n < (q + 1) * d
    ensures n / d == q
  {
    Quotient(n, d);
    if n / d < q { Product(n / d + 1, q, d); }
    if n / d > q { Product(q + 1, n / d, d); }
  }

  lemma Remainder(n: int, d: int)
    requires d > 0
    ensures n % d == n - (n / d) * d
  {
  }

  lemma Product(a: int, b: int, m: int)
    requires a <= b && m >= 0
    ensures a * m <= b * m
  {
  }

  /** `BuildDownloadRanges`: by piece length when there is one, else into even parts. */
  method BuildDownloadRanges(start: int, total: int, segmentCount: int, pieceLength: int) returns (ranges: seq<Range>)
    ensures total <= 0 || start >= total ==> ranges == []
    ensures 0 < total && start < total ==> Tiles(ranges, start, total)
    ensures 0 < total && start < total && pieceLength > 0 ==>
      && |ranges| == CeilDiv(total - start, pieceLength)
      && forall k | 0 <= k < |ranges| :: ranges[k].0 == start + k * pieceLength
    ensures 0 < total && start < total && pieceLength <= 0 ==> EvenSplit(ranges, total - start, segmentCount)
  {
    if total <= 0 || start >= total {
      return [];
    }
    if pieceLength > 0 {
      ranges := BuildPieceAlignedRanges(start, total, pieceLength);
    } else {
      ranges := SplitEvenRanges(start, total, segmentCount);
    }
  }

  /** The number of parts, and their sizes: all equal but the last, which takes the remainder too. */
  predicate EvenSplit(ranges: seq<Range>, remaining: int, segments: int) {
    && |ranges| == Max(1, Min(segments, remaining))
    && (forall k | 0 <= k < |ranges| - 1 :: Size(ranges[k]) == remaining / |ranges|)
    && remaining / |ranges| <= Size(ranges[|ranges| - 1]) < remaining / |ranges| + |ranges|
  }

  method BuildPieceAlignedRanges(start: int, total: int, pieceLength: int) returns (ranges: seq<Range>)
    requires start < total && pieceLength > 0
    ensures Tiles(ranges, start, total)
    ensures |ranges| == CeilDiv(total - start, pieceLength)
    ensures forall k | 0 <= k < |ranges| :: ranges[k].0 == start + k * pieceLength
  {
    ranges := [];
    var pos := start;
    while pos < total
      invariant start <= pos <= total
      invariant Tiles(ranges, start, pos)
      invariant |ranges| + CeilDiv(total - pos, pieceLength) == CeilDiv(total - start, pieceLength)
      invariant forall k | 0 <= k < |ranges| :: ranges[k].0 == start + k * pieceLength
      invariant pos < total ==> pos == start + |ranges| * pieceLength
      decreases total - pos
    {
      var end := pos + pieceLength - 1;
      if end >= total {
        end := total - 1;
      }
      ghost var left := total - pos;
      if left > pieceLength { CeilDivStep(left, pieceLength); } else { LastPiece(left, pieceLength); }
      TilesSnoc(ranges, start, pos, end + 1);
      ghost var n := |ranges|;
      ranges := ranges + [(pos, end)];
      assert start + (n + 1) * pieceLength == start + n * pieceLength + pieceLength;
      pos := end + 1;
    }
  }

  lemma LastPiece(left: nat, pieceLength: nat)
    requires 0 < left <= pieceLength
    ensures CeilDiv(left, pieceLength) == 1 && CeilDiv(0, pieceLength) == 0
  {
  }

  method SplitEvenRanges(start: int, total: int, segmentCount: int) returns (ranges: seq<Range>)
    requires 0 < total && start < total
    ensures Tiles(ranges, start, total) && EvenSplit(ranges, total - start, segmentCount)
  {
    var segments := segmentCount;
    var remaining := total - start;
    if segments <= 1 {
      return [(start, total - 1)];
    }
    if segments > remaining {
      segments := remaining;
    }
    if segments <= 1 {
      return [(start, total - 1)];
    }
    var chunkSize := remaining / segments;
    ChunkPositive(remaining, segments);
    ranges := [];
    var current, i := start, 0;
    while i < segments
      invariant 0 <= i <= segments && |ranges| == i
      invariant current == if i < segments then start + i * chunkSize else total
      invariant Tiles(ranges, start, current)
      invariant forall k | 0 <= k < |ranges| && k < segments - 1 :: Size(ranges[k]) == chunkSize
      invariant i == segments ==> chunkSize <= Size(ranges[segments - 1]) < chunkSize + segments
    {
      var end := current + chunkSize - 1;
      ChunkFits(remaining, segments, i);
      hide Tiles;
      if i == segments - 1 || end >= total - 1 {
        end := total - 1;
      }
      TilesSnoc(ranges, start, current, end + 1);
      ranges := ranges + [(current, end)];
      assert start + (i + 1) * chunkSize == start + i * chunkSize + chunkSize;
      current := end + 1;
      i := i + 1;
      if current >= total {
        break;
      }
    }
    assert ranges[|ranges| - 1].1 == total - 1 by { TilesEnd(ranges, start, total); }
  }

  lemma ChunkPositive(remaining: int, segments: int)
    requires 1 < segments <= remaining
    ensures remaining / segments >= 1
  {
  }

  /** Before the last part there is room for at least one more whole chunk. */
  lemma ChunkFits(remaining: int, segments: int, i: int)
    requires 1 < segments <= remaining && 0 <= i < segments
    ensures var c := remaining / segments;
      && i * c + c <= remaining
      && (i < segments - 1 ==> (i + 1) * c + c <= remaining)
      && (i == segments - 1 ==> remaining - i * c < c + segments)
  {
    var c := remaining / segments;
    Quotient(remaining, segments);
    Product(i + 1, segments, c);
    assert i * c + c == (i + 1) * c;
    if i < segments - 1 {
      Product(i + 2, segments, c);
      assert (i + 1) * c + c == (i + 2) * c;
    } else {
      assert i * c == segments * c - c;
      assert (c + 1) * segments == c * segments + segments;
    }
  }

  lemma {:induction false} TilesEnd(ranges: seq<Range>, start: int, end: int)
    requires Tiles(ranges, start, end) && ranges != []
    ensures ranges[|ranges| - 1].1 == end - 1
    decreases |ranges|
  {
    if |ranges| > 1 { TilesEnd(ranges[1..], ranges[0].1 + 1, end); }
  }

  /**
   With the count the minimum split size allows, no part of an even split is smaller
   than the minimum, unless there is only one part.
   */
  lemma MinimumSize(ranges: seq<Range>, remaining: int, n: int, minSplitSize: int)
    requires remaining > 0 && n >= 1 && minSplitSize > 0 && EvenSplit(ranges, remaining, n)
    requires n == 1 || n * minSplitSize <= remaining
    ensures |ranges| == 1 || forall k | 0 <= k < |ranges| :: Size(ranges[k]) >= minSplitSize
  {
    if |ranges| > 1 {
      Product(1, minSplitSize, n);
      assert |ranges| == n;
      Quotient(remaining, n);
      if remaining / n < minSplitSize {
        Product(remaining / n + 1, minSplitSize, n);
        assert false;
      }
    }
  }

  /** The two steps together, as the HTTP driver composes them when no piece length is asked for. */
  method SplitDownload(total: int, start: int, split: int, maxConn: int, minSplitSize: int) returns (ranges: seq<Range>)
    ensures total <= 0 || start >= total ==> ranges == []
    ensures 0 < total && start < total ==> Tiles(ranges, start, total) && 1 <= |ranges| <= Max(split, 1)
    ensures 0 < total && start < total && maxConn > 0 ==> |ranges| <= maxConn
    ensures 0 < total && start < total ==>
      || |ranges| >= Max(split, 1) || |ranges| == maxConn || |ranges| == total - start
      || (minSplitSize > 0 && (|ranges| + 1) * minSplitSize > total - start)
    ensures minSplitSize > 0 && |ranges| > 1 ==> forall k | 0 <= k < |ranges| :: Size(ranges[k]) >= minSplitSize
  {
    var n := EffectiveSegmentCount(total, start, split, maxConn, minSplitSize);
    ranges := BuildDownloadRanges(start, total, n, 0);
    if minSplitSize > 0 && 0 < total && start < total {
      MinimumSize(ranges, total - start, n, minSplitSize);
    }
  }
}
