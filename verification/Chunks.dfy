/** Chunk arithmetic: segments per chunk (cpp/benchmarks/io/cuio_common.cpp), and the
    split points of a chunked parquet file (cpp/benchmarks/ndsh/utilities.cpp). */
module Chunks {
  import opened Numbers
  import opened Sequences

  /** `std::iota` over `count` elements. */
  function Iota(from: int, count: nat): (s: seq<int>)
    ensures |s| == count && forall i :: 0 <= i < count ==> s[i] == from + i
  {
    seq(count, i => from + i)
  }

  // ----- segments_in_chunk -----

  function Begin(numSegments: nat, numChunks: nat, chunk: int): int
    requires numChunks > 0
  {
    Min(chunk * CeilDiv(numSegments, numChunks), numSegments)
  }

  /** `segments_in_chunk`: a chunk's segments reach from its beginning to that of the next chunk. A negative
      chunk index is not refused, and gives numbers below zero. The division needs a positive divisor. */
  method SegmentsInChunk(numSegments: int, numChunks: int, chunkIdx: int) returns (r: Option<seq<int>>)
    requires chunkIdx < numChunks <= numSegments ==> numChunks > 0
    ensures r.Some? <==> numSegments >= numChunks && chunkIdx < numChunks
    ensures r.Some? ==> r.value == SegmentsOf(numSegments, numChunks, chunkIdx)
    ensures r.Some? ==> forall i :: 0 < i < |r.value| ==> r.value[i] == r.value[i - 1] + 1
    ensures r.Some? ==> forall s :: s in r.value <==> IsSegment(numSegments, numChunks, chunkIdx, s)
  {
    if numSegments >= numChunks && chunkIdx < numChunks {
      SegmentsMean(numSegments, numChunks, chunkIdx);
    }
    if !(numSegments >= numChunks) || !(chunkIdx < numChunks) {
      return None;
    }
    var segmentsInChunk := CeilDiv(numSegments, numChunks);
    var beginSegment := Min(chunkIdx * segmentsInChunk, numSegments);
    var endSegment := Min(beginSegment + segmentsInChunk, numSegments);
    return Some(Iota(beginSegment, endSegment - beginSegment));
  }

  function SegmentsOf(numSegments: nat, numChunks: nat, chunk: int): seq<int>
    requires numChunks > 0
  {
    var b, e := Begin(numSegments, numChunks, chunk), Begin(numSegments, numChunks, chunk + 1);
    if b <= e then Iota(b, e - b) else []
  }

  /** With as many segments to a chunk as divide the file into that many chunks, rounded up, the segment belongs
      to this chunk. */
  predicate IsSegment(numSegments: nat, numChunks: nat, chunk: int, segment: int)
    requires numChunks > 0
  {
    var size := (numSegments + numChunks - 1) / numChunks;
    chunk * size <= segment < (chunk + 1) * size && segment < numSegments
  }

  lemma SegmentsMean(numSegments: nat, numChunks: nat, chunk: int)
    requires numChunks > 0
    ensures forall s :: s in SegmentsOf(numSegments, numChunks, chunk)
                   <==> IsSegment(numSegments, numChunks, chunk, s)
  {
    CeilDivMeans(numSegments, numChunks);
    var size := CeilDiv(numSegments, numChunks);
    MulMonotone(chunk, chunk + 1, size);
    var segments := SegmentsOf(numSegments, numChunks, chunk);
    forall s | IsSegment(numSegments, numChunks, chunk, s) ensures s in segments {
      assert segments[s - Begin(numSegments, numChunks, chunk)] == s;
    }
  }

  /** The chunks that are not negative read only segments of the file; the others read none of them. */
  lemma SegmentsInFile(numSegments: nat, numChunks: nat, chunk: int)
    requires numChunks > 0
    ensures forall s :: s in SegmentsOf(numSegments, numChunks, chunk) ==> (0 <= s < numSegments <==> chunk >= 0)
    ensures numSegments >= numChunks && chunk < 0 ==> SegmentsOf(numSegments, numChunks, chunk) != []
  {
    var c := CeilDiv(numSegments, numChunks);
    CeilDivIsLeast(numSegments, numChunks, 0);
    if chunk >= 0 {
      MulMonotone(0, chunk, c);
    } else {
      MulMonotone(chunk + 1, 0, c);
    }
  }

  /** Chunk -1 of four segments in two chunks. */
  lemma NegativeChunk()
    ensures SegmentsOf(4, 2, -1) == [-2, -1]
  {
    assert CeilDiv(4, 2) == 2;
  }

  /** The segments of the first `k` chunks. */
  function FirstChunks(numSegments: nat, numChunks: nat, k: nat): seq<int>
    requires numChunks > 0
  {
    if k == 0 then [] else FirstChunks(numSegments, numChunks, k - 1) + SegmentsOf(numSegments, numChunks, k - 1)
  }

  lemma {:induction false} FirstChunksAre(numSegments: nat, numChunks: nat, k: nat)
    requires numChunks > 0
    ensures FirstChunks(numSegments, numChunks, k) == Iota(0, Begin(numSegments, numChunks, k))
  {
    if k > 0 {
      FirstChunksAre(numSegments, numChunks, k - 1);
    }
  }

  /** All chunks together read every segment once, in order, even when the last chunks are empty. */
  lemma ChunksCover(numSegments: nat, numChunks: nat)
    requires numChunks > 0
    ensures FirstChunks(numSegments, numChunks, numChunks) == Iota(0, numSegments)
  {
    FirstChunksAre(numSegments, numChunks, numChunks);
    CeilDivIsLeast(numSegments, numChunks, CeilDiv(numSegments, numChunks));
    assert CeilDiv(numSegments, numChunks) * numChunks == numChunks * CeilDiv(numSegments, numChunks);
  }

  // ----- splits of a chunked parquet file -----

  /** The split points that generate_n produces: running multiples of the rows per chunk. */
  method SplitPoints(numRows: nat, numSplits: nat) returns (splits: seq<int>)
    requires numSplits > 0
    ensures |splits| == numSplits - 1
    ensures forall i :: 0 <= i < |splits| ==> splits[i] == (i + 1) * CeilDiv(numRows, numSplits)
  {
    var numRowPerChunk := CeilDiv(numRows, numSplits);
    splits := [];
    var i := 0;
    while |splits| < numSplits - 1
      invariant |splits| <= numSplits - 1 && i == |splits| * numRowPerChunk
      invariant forall k :: 0 <= k < |splits| ==> splits[k] == (k + 1) * numRowPerChunk
      decreases numSplits - |splits|
    {
      i := i + numRowPerChunk;
      splits := splits + [i];
    }
  }

  /** What `cudf::split` demands: split points in order and within the table. */
  ghost predicate ValidSplits(splits: seq<int>, numRows: nat) {
    && (forall i :: 0 <= i < |splits| ==> 0 <= splits[i] <= numRows)
    && forall i, j :: 0 <= i < j < |splits| ==> splits[i] <= splits[j]
  }

  ghost predicate AreMultiples(splits: seq<int>, c: nat) {
    forall i :: 0 <= i < |splits| ==> splits[i] == (i + 1) * c
  }

  /** The split points are valid exactly when all but one of the chunks, filled up, fit into the table. */
  lemma SplitsValidIff(splits: seq<int>, numRows: nat, numSplits: nat)
    requires numSplits > 0 && |splits| == numSplits - 1 && AreMultiples(splits, CeilDiv(numRows, numSplits))
    ensures ValidSplits(splits, numRows) <==> (numSplits - 1) * CeilDiv(numRows, numSplits) <= numRows
  {
    var c := CeilDiv(numRows, numSplits);
    if numSplits > 1 {
      assert splits[numSplits - 2] == (numSplits - 1) * c;
    }
    forall i, j | 0 <= i <= j < |splits| ensures 0 <= splits[i] <= splits[j] <= (numSplits - 1) * c {
      MulMonotone(0, i + 1, c);
      MulMonotone(i + 1, j + 1, c);
      MulMonotone(j + 1, numSplits - 1, c);
    }
  }

  /** Enough rows make the split points valid: as many as the square of the number of split points. */
  lemma ManyRowsSuffice(numRows: nat, numSplits: nat)
    requires numSplits > 0 && numRows >= (numSplits - 1) * (numSplits - 1)
    ensures (numSplits - 1) * CeilDiv(numRows, numSplits) <= numRows
  {
    var k, c := numSplits - 1, CeilDiv(numRows, numSplits);
    CeilDivIsLeast(numRows, numSplits, c);
    if c > 0 {
      CeilDivIsLeast(numRows, numSplits, c - 1);
      assert (c - 1) * numSplits < numRows;
      RowsPerChunk(numRows, k, c);
    }
  }

  lemma RowsPerChunk(n: nat, k: nat, c: nat)
    requires n >= k * k && c > 0 && (c - 1) * (k + 1) < n
    ensures k * c <= n
  {
    if c - 1 >= k {
      assert (c - 1) * (k + 1) == (c - 1) * k + (c - 1);
      assert k * c == (c - 1) * k + k;
    } else {
      MulMonotone(c, k, k);
      assert k * c == c * k;
    }
  }

  /** The split points for one row in three chunks are 1 and 2, and the second lies beyond the table. */
  lemma FewRowsFail(splits: seq<int>)
    requires |splits| == 3 - 1 && AreMultiples(splits, CeilDiv(1, 3))
    ensures splits == [1, 2] && !ValidSplits(splits, 1)
  {
    assert splits[1] == 2;
  }

  /** `cudf::split`: the pieces between consecutive split points. */
  function Split<T>(rows: seq<T>, splits: seq<int>): (pieces: seq<seq<T>>)
    requires ValidSplits(splits, |rows|)
    ensures |pieces| == |splits| + 1
  {
    seq(|splits| + 1, i requires 0 <= i <= |splits| =>
      rows[if i == 0 then 0 else splits[i - 1]..if i == |splits| then |rows| else splits[i]])
  }

  lemma {:induction false} SplitPrefix<T>(rows: seq<T>, splits: seq<int>, k: nat)
    requires ValidSplits(splits, |rows|) && k <= |splits|
    ensures Flatten(Split(rows, splits)[..k]) == rows[..if k == 0 then 0 else splits[k - 1]]
  {
    var pieces := Split(rows, splits);
    if k > 0 {
      SplitPrefix(rows, splits, k - 1);
      assert pieces[..k][..k - 1] == pieces[..k - 1];
    }
  }

  /** The pieces of a valid split rebuild the table. */
  lemma SplitRebuilds<T>(rows: seq<T>, splits: seq<int>)
    requires ValidSplits(splits, |rows|)
    ensures Flatten(Split(rows, splits)) == rows
  {
    var pieces := Split(rows, splits);
    SplitPrefix(rows, splits, |splits|);
    assert pieces[..|pieces| - 1] == pieces[..|splits|];
  }

  lemma SplitSizes<T>(rows: seq<T>, splits: seq<int>, size: nat)
    requires ValidSplits(splits, |rows|) && AreMultiples(splits, size)
    ensures forall i :: 0 <= i < |splits| ==> |Split(rows, splits)[i]| == size
  {
    forall i | 0 <= i < |splits| ensures |Split(rows, splits)[i]| == size {
      if i > 0 {
        assert splits[i] - splits[i - 1] == size;
      }
    }
  }

  /** The chunked branch of write_to_parquet_device_buffer: it fails exactly when the chunks before the last,
      filled up, hold more rows than the table; otherwise the pieces it writes are the table. */
  method WriteChunked<T>(rows: seq<T>, numSplits: nat) returns (written: Option<seq<seq<T>>>)
    requires numSplits > 0
    ensures written.Some? <==> (numSplits - 1) * CeilDiv(|rows|, numSplits) <= |rows|
    ensures written.Some? ==> |written.value| == numSplits && Flatten(written.value) == rows
    ensures written.Some? ==>
              forall i :: 0 <= i < numSplits - 1 ==> |written.value[i]| == (|rows| + numSplits - 1) / numSplits
  {
    CeilDivMeans(|rows|, numSplits);
    var splits := SplitPoints(|rows|, numSplits);
    SplitsValidIff(splits, |rows|, numSplits);
    var inTable := forall i :: 0 <= i < |splits| ==> 0 <= splits[i] <= |rows|;
    if !inTable {
      return None;
    }
    forall i, j | 0 <= i < j < |splits| ensures splits[i] <= splits[j] {
      MulMonotone(i + 1, j + 1, CeilDiv(|rows|, numSplits));
    }
    SplitRebuilds(rows, splits);
    SplitSizes(rows, splits, CeilDiv(|rows|, numSplits));
    return Some(Split(rows, splits));
  }
}
