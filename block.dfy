/** A fixed-capacity storage segment of the deque.

    A block owns an array of `maxSize` integers; its live elements are the
    slice `data[begin .. begin + size]`.  Pushes and pops at either end move
    `begin` and `size` without shifting the stored elements. */
module Blocks {

  class Block {
    /** The element storage, allocated once and never resized. */
    const data: array<int>
    /** Fixed capacity of the block. */
    const maxSize: nat
    /** Storage offset of the first live element. */
    var begin: nat
    /** Number of live elements. */
    var size: nat
    /** The live elements, first to last. */
    ghost var Contents: seq<int>

    /** The live elements are the cells `begin .. begin + size` of the storage. */
    ghost predicate Valid()
      reads this, data
    {
      && data.Length == maxSize && begin + size <= maxSize
      && |Contents| == size
      && forall i :: 0 <= i < size ==> data[begin + i] == Contents[i]
    }

    /** An empty block of capacity `maxSize`, anchored at the start. */
    constructor (maxSize: nat)
      ensures Valid() && fresh(data)
      ensures this.maxSize == maxSize && begin == 0 && Contents == []
    {
      this.maxSize := maxSize;
      data := new int[maxSize];
      begin, size := 0, 0;
      Contents := [];
    }

    /** There is a free cell right after the last live element, where
        `PushBack` writes; when there is none, the elements end at the end
        of the storage. */
    predicate IsBackEmpty(): (r: bool)
      reads this, data
      ensures Valid() ==> (r <==> begin + |Contents| < data.Length)
      ensures Valid() && !r ==> begin + size == maxSize
    {
      begin + size < maxSize
    }

    /** There is a free cell right before the first live element, or the
        block is empty (and `PushFront` re-anchors it at the end): either
        way, in storage of at least one cell, the cell just before the new
        start lies inside the storage.  When there is no such cell, the
        elements start at cell 0. */
    predicate IsFrontEmpty(): (r: bool)
      reads this, data
      ensures Valid() && r && 0 < maxSize ==>
                0 < (if size == 0 then maxSize else begin) <= data.Length
      ensures Valid() && !r ==> begin == 0 && 0 < |Contents|
    {
      begin > 0 || size == 0
    }

    function Size(): (r: nat)
      reads this, data
      requires Valid()
      ensures r == |Contents|
    {
      size
    }

    /** Appends `elem`; an empty block is first re-anchored at the start. */
    method PushBack(elem: int)
      requires Valid() && IsBackEmpty()
      modifies this, data
      ensures Valid()
      ensures Contents == old(Contents) + [elem]
      ensures begin == if old(size) == 0 then 0 else old(begin)
    {
      if size == 0 {
        begin := 0;
      }
      data[begin + size] := elem;
      size := size + 1;
      Contents := Contents + [elem];
    }

    /** Prepends `elem`; an empty block is first re-anchored at the end. */
    method PushFront(elem: int)
      requires Valid() && IsFrontEmpty() && 0 < maxSize
      modifies this, data
      ensures Valid()
      ensures Contents == [elem] + old(Contents)
      ensures begin + size == if old(size) == 0 then maxSize else old(begin + size)
    {
      if size == 0 {
        begin := maxSize;
      }
      data[begin - 1] := elem;
      size := size + 1;
      begin := begin - 1;
      Contents := [elem] + Contents;
    }

    /** Drops the last element. */
    method PopBack()
      requires Valid() && 0 < size
      modifies this
      ensures Valid()
      ensures Contents == old(Contents)[..old(size) - 1]
      ensures begin == old(begin)
    {
      size := size - 1;
      Contents := Contents[..size];
    }

    /** Drops the first element. */
    method PopFront()
      requires Valid() && 0 < size
      modifies this
      ensures Valid()
      ensures Contents == old(Contents)[1..]
      ensures begin + size == old(begin + size)
    {
      begin := begin + 1;
      size := size - 1;
      Contents := Contents[1..];
    }

    /** The element at logical position `ind` of the block. */
    function Get(ind: nat): (r: int)
      reads this, data
      requires Valid() && ind < size
      ensures r == Contents[ind]
    {
      data[begin + ind]
    }

    /** Writes through the reference that the mutable `Get` returns. */
    method Set(ind: nat, value: int)
      requires Valid() && ind < size
      modifies this, data
      ensures Valid()
      ensures Contents == old(Contents)[ind := value]
      ensures begin == old(begin) && size == old(size)
    {
      data[begin + ind] := value;
      Contents := Contents[ind := value];
    }
  }
}
