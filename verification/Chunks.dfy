/** Splitting a compressed value into allocator-sized chunks, and putting it together again. */
module Chunks {
  const BINS: seq<int> := [128, 256, 512, 1024, 2048, 4096, 8192, 16384]   // malloc_bin_sizes_
  const HEADER := 23                                                       // sizeof(CacheValueChunk) - 1

  // std::upper_bound: the number of bins not above x.
  method UpperBound(x: int) returns (u: nat)
    ensures u <= |BINS| && (forall i :: 0 <= i < u ==> BINS[i] <= x) && (forall i :: u <= i < |BINS| ==> x < BINS[i])
  {
    u := 0;
    while u < |BINS| && BINS[u] <= x
      invariant u <= |BINS| && forall i :: 0 <= i < u ==> BINS[i] <= x
    {
      u := u + 1;
    }
    assert u < |BINS| ==> x < BINS[u];
    assert forall i :: u <= i < |BINS| ==> u < |BINS| && BINS[u] <= BINS[i];
  }

  ghost function Joined(chunks: seq<seq<int>>): seq<int> {
    if chunks == [] then [] else Joined(chunks[..|chunks| - 1]) + chunks[|chunks| - 1]
  }

  // Chunks that are not the last fill a bin exactly, so that no allocation wastes space.
  ghost predicate FillsBin(chunk: seq<int>) {
    exists i :: 0 <= i < |BINS| && |chunk| + HEADER == BINS[i]
  }

  method SplitValueIntoChunks(value: seq<int>, compressed: bool) returns (chunks: seq<seq<int>>, charge: nat)
    ensures Joined(chunks) == value
    ensures forall i :: 0 <= i < |chunks| ==> chunks[i] != []
    ensures charge == |value| + HEADER * |chunks|
    ensures forall i :: 0 <= i < |chunks| - 1 ==> FillsBin(chunks[i])
    ensures !compressed && value != [] ==> chunks == [value]
  {
    chunks, charge := [], 0;
    var pos := 0;
    while pos < |value|
      invariant 0 <= pos <= |value| && Joined(chunks) == value[..pos] && charge == pos + HEADER * |chunks|
      invariant forall i :: 0 <= i < |chunks| ==> chunks[i] != []
      invariant forall i :: 0 <= i < |chunks| - (if pos == |value| then 1 else 0) ==> FillsBin(chunks[i])
      invariant !compressed ==> (pos == 0 && chunks == []) || (pos == |value| && chunks == [value])
      decreases |value| - pos
    {
      var left := |value| - pos;
      var predicted := HEADER + left;
      var upper := UpperBound(predicted);
      var size := predicted;
      if upper != 0 && upper != |BINS| && BINS[upper] - predicted >= BINS[0] && compressed {
        size := BINS[upper - 1];
      }
      var n := size - HEADER;
      var chunk := value[pos..pos + n];
      assert n != left ==> FillsBin(chunk) by {
        assert n != left ==> |chunk| + HEADER == BINS[upper - 1];
      }
      assert (chunks + [chunk])[..|chunks|] == chunks;
      assert value[..pos + n] == value[..pos] + chunk;
      assert !compressed ==> pos == 0 && chunk == value;
      chunks, charge, pos := chunks + [chunk], charge + size, pos + n;
    }
    assert value[..|value|] == value;
  }

  ghost function Length(chunks: seq<seq<int>>): nat {
    if chunks == [] then 0 else Length(chunks[..|chunks| - 1]) + |chunks[|chunks| - 1]|
  }

  lemma {:induction false} JoinedLength(chunks: seq<seq<int>>)
    ensures |Joined(chunks)| == Length(chunks)
  {
    if chunks != [] {
      JoinedLength(chunks[..|chunks| - 1]);
    }
  }

  // First the total size, then the bytes, copied one chunk after the other.
  method MergeChunksIntoValue(chunks: seq<seq<int>>) returns (value: array<int>, charge: nat)
    ensures value[..] == Joined(chunks) && charge == |Joined(chunks)| && fresh(value)
  {
    charge := 0;
    for i := 0 to |chunks|
      invariant charge == Length(chunks[..i])
    {
      assert chunks[..i + 1][..i] == chunks[..i];
      charge := charge + |chunks[i]|;
    }
    assert chunks[..|chunks|] == chunks;
    JoinedLength(chunks);
    value := new int[charge];
    var pos := 0;
    for i := 0 to |chunks|
      invariant pos == |Joined(chunks[..i])| <= charge == value.Length && value[..pos] == Joined(chunks[..i])
    {
      assert chunks[..i + 1][..i] == chunks[..i];
      Prefix(chunks, i + 1);
      var c := chunks[i];
      ghost var done := value[..pos];
      for j := 0 to |c|
        invariant pos + |c| <= value.Length && value[..pos] == done && value[pos..pos + j] == c[..j]
      {
        value[pos + j] := c[j];
      }
      assert value[..pos + |c|] == value[..pos] + value[pos..pos + |c|];
      pos := pos + |c|;
    }
  }

  lemma {:induction false} Prefix(chunks: seq<seq<int>>, i: nat)
    requires i <= |chunks|
    ensures |Joined(chunks[..i])| <= |Joined(chunks)|
    decreases |chunks| - i
  {
    if i == |chunks| {
      assert chunks[..i] == chunks;
    } else {
      Prefix(chunks, i + 1);
      assert chunks[..i + 1][..i] == chunks[..i];
    }
  }

  // Splitting and merging gives the value back, whatever the compression setting.
  method RoundTrip(value: seq<int>, compressed: bool) returns (back: seq<int>, charge: nat)
    ensures back == value && charge == |value|
  {
    var chunks, c := SplitValueIntoChunks(value, compressed);
    var merged;
    merged, charge := MergeChunksIntoValue(chunks);
    back := merged[..];
  }
}
