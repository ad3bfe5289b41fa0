/** The abstract view of a run of blocks.

    A deque stores its elements as the contents of its live blocks taken in
    run order.  This module states what that sequence of chunks means (their
    concatenation), where each chunk starts in it, and why the deque can find
    the chunk holding a logical index with one division: only the first and
    the last chunk may hold fewer than `BlockSize` elements. */
module BlockRun {

  /** Elements per block: 512 bytes of 4-byte `int`. */
  const BlockSize: nat := 128

  /** The concatenation of the chunks, in order. */
  function Flatten(chunks: seq<seq<int>>): seq<int>
  {
    if chunks == [] then [] else chunks[0] + Flatten(chunks[1..])
  }

  /** Logical index of the first element of chunk `k`. */
  function Start(chunks: seq<seq<int>>, k: nat): nat
    requires k <= |chunks|
  {
    |Flatten(chunks[..k])|
  }

  /** The density invariant: every chunk is nonempty and fits in a block,
      and every chunk other than the first and the last is full. */
  ghost predicate Dense(chunks: seq<seq<int>>)
  {
    && (forall k :: 0 <= k < |chunks| ==> 0 < |chunks[k]| <= BlockSize)
    && (forall k :: 0 < k < |chunks| - 1 ==> |chunks[k]| == BlockSize)
  }

  lemma {:induction false} FlattenAppend(a: seq<seq<int>>, b: seq<seq<int>>)
    ensures Flatten(a + b) == Flatten(a) + Flatten(b)
  {
    if a == [] {
      assert a + b == b;
    } else {
      assert (a + b)[1..] == a[1..] + b;
      FlattenAppend(a[1..], b);
    }
  }

  /** Appending a chunk appends its elements. */
  lemma FlattenSnoc(chunks: seq<seq<int>>, c: seq<int>)
    ensures Flatten(chunks + [c]) == Flatten(chunks) + c
  {
    FlattenAppend(chunks, [c]);
    assert Flatten([c]) == c + Flatten([]);
  }

  /** Appending to the last chunk appends to the run. */
  lemma PushLastChunk(chunks: seq<seq<int>>, v: int)
    requires 0 < |chunks|
    ensures Flatten(chunks[|chunks| - 1 := chunks[|chunks| - 1] + [v]]) == Flatten(chunks) + [v]
  {
    var last := |chunks| - 1;
    assert chunks == chunks[..last] + [chunks[last]];
    assert chunks[last := chunks[last] + [v]] == chunks[..last] + [chunks[last] + [v]];
    FlattenSnoc(chunks[..last], chunks[last]);
    FlattenSnoc(chunks[..last], chunks[last] + [v]);
  }

  /** Dropping the last element of the last chunk drops the last element of the run. */
  lemma PopLastChunk(chunks: seq<seq<int>>)
    requires 0 < |chunks| && chunks[|chunks| - 1] != []
    ensures Flatten(chunks) != []
    ensures Flatten(chunks[|chunks| - 1 := chunks[|chunks| - 1][..|chunks[|chunks| - 1]| - 1]])
            == Flatten(chunks)[..|Flatten(chunks)| - 1]
  {
    var last := |chunks| - 1;
    var c := chunks[last];
    assert chunks == chunks[..last] + [c];
    assert chunks[last := c[..|c| - 1]] == chunks[..last] + [c[..|c| - 1]];
    FlattenSnoc(chunks[..last], c);
    FlattenSnoc(chunks[..last], c[..|c| - 1]);
    assert c == c[..|c| - 1] + [c[|c| - 1]];
  }

  /** Prepending to the first chunk prepends to the run. */
  lemma PushFirstChunk(chunks: seq<seq<int>>, v: int)
    requires 0 < |chunks|
    ensures Flatten(chunks[0 := [v] + chunks[0]]) == [v] + Flatten(chunks)
  {
    assert chunks[0 := [v] + chunks[0]][1..] == chunks[1..];
  }

  /** Dropping the first element of the first chunk drops the first element of the run. */
  lemma PopFirstChunk(chunks: seq<seq<int>>)
    requires 0 < |chunks| && chunks[0] != []
    ensures Flatten(chunks) != []
    ensures Flatten(chunks[0 := chunks[0][1..]]) == Flatten(chunks)[1..]
  {
    assert chunks[0 := chunks[0][1..]][1..] == chunks[1..];
  }

  /** An empty last chunk contributes no elements. */
  lemma DropEmptyLast(chunks: seq<seq<int>>)
    requires 0 < |chunks| && chunks[|chunks| - 1] == []
    ensures Flatten(chunks[..|chunks| - 1]) == Flatten(chunks)
  {
    assert chunks == chunks[..|chunks| - 1] + [[]];
    FlattenSnoc(chunks[..|chunks| - 1], []);
  }

  /** A run of nonempty chunks has no elements only when it has no chunks. */
  lemma FlattenEmpty(chunks: seq<seq<int>>)
    requires forall k :: 0 <= k < |chunks| ==> chunks[k] != []
    ensures Flatten(chunks) == [] <==> chunks == []
  {
    if chunks != [] {
      assert |Flatten(chunks)| >= |chunks[0]| > 0;
    }
  }

  /** Each chunk starts where the previous one ends. */
  lemma StartNext(chunks: seq<seq<int>>, k: nat)
    requires k < |chunks|
    ensures Start(chunks, k + 1) == Start(chunks, k) + |chunks[k]|
  {
    assert chunks[..k + 1] == chunks[..k] + [chunks[k]];
    FlattenSnoc(chunks[..k], chunks[k]);
  }

  /** In a dense run, chunk `k >= 1` starts after the first chunk and
      `k - 1` full chunks. */
  lemma {:induction false} StartDense(chunks: seq<seq<int>>, k: nat)
    requires Dense(chunks) && 1 <= k < |chunks|
    ensures Start(chunks, k) == |chunks[0]| + (k - 1) * BlockSize
  {
    if k == 1 {
      StartNext(chunks, 0);
    } else {
      StartDense(chunks, k - 1);
      StartNext(chunks, k - 1);
    }
  }

  /** Element `off` of chunk `k` is element `Start(chunks, k) + off` of the run. */
  lemma FlattenAt(chunks: seq<seq<int>>, k: nat, off: nat)
    requires k < |chunks| && off < |chunks[k]|
    ensures Start(chunks, k) + off < |Flatten(chunks)|
    ensures Flatten(chunks)[Start(chunks, k) + off] == chunks[k][off]
  {
    assert chunks == chunks[..k] + chunks[k..];
    FlattenAppend(chunks[..k], chunks[k..]);
    assert Flatten(chunks[k..]) == chunks[k] + Flatten(chunks[k + 1..]);
  }

  /** Writing element `off` of chunk `k` writes element `Start(chunks, k) + off`
      of the run and nothing else. */
  lemma FlattenUpdate(chunks: seq<seq<int>>, k: nat, off: nat, v: int)
    requires k < |chunks| && off < |chunks[k]|
    ensures Start(chunks, k) + off < |Flatten(chunks)|
    ensures Flatten(chunks[k := chunks[k][off := v]]) == Flatten(chunks)[Start(chunks, k) + off := v]
  {
    var updated := chunks[k := chunks[k][off := v]];
    assert chunks == chunks[..k] + [chunks[k]] + chunks[k + 1..];
    assert updated == chunks[..k] + [chunks[k][off := v]] + chunks[k + 1..];
    FlattenAppend(chunks[..k] + [chunks[k]], chunks[k + 1..]);
    FlattenAppend(chunks[..k] + [chunks[k][off := v]], chunks[k + 1..]);
    FlattenSnoc(chunks[..k], chunks[k]);
    FlattenSnoc(chunks[..k], chunks[k][off := v]);
  }

  /** The sum of the chunk sizes. */
  function SumSizes(chunks: seq<seq<int>>): nat
  {
    if chunks == [] then 0 else |chunks[0]| + SumSizes(chunks[1..])
  }

  /** The run holds as many elements as its chunks hold together. */
  lemma {:induction false} FlattenLength(chunks: seq<seq<int>>)
    ensures |Flatten(chunks)| == SumSizes(chunks)
  {
    if chunks != [] {
      FlattenLength(chunks[1..]);
    }
  }

  /** `Start` past the last chunk is the length of the run. */
  lemma StartEnd(chunks: seq<seq<int>>)
    ensures |Flatten(chunks)| == Start(chunks, |chunks|)
  {
    assert chunks[..|chunks|] == chunks;
  }

  /** An index past the first chunk of a dense run lies in chunk
      `1 + (ind - |chunks[0]|) / BlockSize`, at the remainder of that division. */
  lemma LocateInRun(chunks: seq<seq<int>>, ind: nat)
    requires Dense(chunks) && |chunks| > 0
    requires |chunks[0]| <= ind < |Flatten(chunks)|
    ensures 1 + (ind - |chunks[0]|) / BlockSize < |chunks|
    ensures var k := 1 + (ind - |chunks[0]|) / BlockSize;
            var off := ind - |chunks[0]| - (k - 1) * BlockSize;
            Start(chunks, k) + off == ind && off < |chunks[k]|
  {
    var n := |chunks|;
    var first := |chunks[0]|;
    StartEnd(chunks);
    StartNext(chunks, n - 1);
    if n == 1 {
      assert false;
    }
    StartDense(chunks, n - 1);
    var full := (ind - first) / BlockSize;
    var off := ind - first - full * BlockSize;
    assert full * BlockSize <= ind - first < full * BlockSize + BlockSize;
    assert full < n - 1;
    StartDense(chunks, full + 1);
    assert Start(chunks, full + 1) + off == ind;
    if full + 1 < n - 1 {
      assert |chunks[full + 1]| == BlockSize;
    }
  }
}
