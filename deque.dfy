/** The double-ended queue: a circular directory of block slots.

    The directory `blocks` has `capacity` slots.  The live blocks occupy the
    circular run of `size` slots that starts at slot `begin`; every other slot
    is null.  Blocks are created when a push finds no room at its end and
    released as soon as a pop empties them; the directory doubles when a new
    block is needed and every slot is taken.  The abstract value of a deque
    is `Elements()`, the contents of its live blocks in run order. */
module Deques {
  import opened Circular
  import opened Blocks
  import opened BlockRun
  import opened Slots

  /** Number of slots of the directory of a default-constructed deque. */
  const MinCapacity: nat := 1

  function Max(a: nat, b: nat): nat
  {
    if a < b then b else a
  }

  /** Block `b` holds chunk `c` as block `k` of a run of `n` blocks.  Every
      nonempty block but the first is filled from the start of its storage,
      and every nonempty block but the last up to its end. */
  ghost predicate Holds(b: Block, c: seq<int>, k: nat, n: nat)
    reads b, b.data
  {
    && b.Valid() && b.maxSize == BlockSize && b.Contents == c
    && (0 < k && 0 < b.size ==> b.begin == 0)
    && (k + 1 < n && 0 < b.size ==> b.begin + b.size == BlockSize)
  }

  /** The blocks of `run` hold `chunks`, one chunk each, in order. */
  ghost predicate Stored(run: seq<Block>, chunks: seq<seq<int>>)
    reads run, set b | b in run :: b.data
  {
    && |run| == |chunks|
    && forall k {:trigger run[k]} :: 0 <= k < |run| ==> Holds(run[k], chunks[k], k, |run|)
  }

  /** The blocks of `run` and their storage belong to `repr`, and no two
      blocks share an identity or a storage array. */
  ghost predicate Owned(run: seq<Block>, repr: set<object>)
  {
    && (forall b :: b in run ==> b in repr && b.data in repr)
    && (forall k, l :: 0 <= k < l < |run| ==> run[k] != run[l] && run[k].data != run[l].data)
  }

  /** A block that is not yet owned, with storage that is not yet owned, can
      join the run at its end. */
  lemma OwnedSnoc(run: seq<Block>, repr: set<object>, b: Block)
    requires Owned(run, repr) && b !in repr && b.data !in repr
    ensures Owned(run + [b], repr + {b, b.data})
  {
  }

  /** A block that is not yet owned, with storage that is not yet owned, can
      join the run at its start. */
  lemma OwnedCons(run: seq<Block>, repr: set<object>, b: Block)
    requires Owned(run, repr) && b !in repr && b.data !in repr
    ensures Owned([b] + run, repr + {b, b.data})
  {
  }

  /** An empty block can be appended to a run whose last block is filled to
      the end of its storage. */
  lemma StoredSnoc(run: seq<Block>, chunks: seq<seq<int>>, b: Block)
    requires Stored(run, chunks) && Holds(b, [], |run|, |run| + 1)
    requires 0 < |run| && 0 < run[|run| - 1].size ==>
               run[|run| - 1].begin + run[|run| - 1].size == BlockSize
    ensures Stored(run + [b], chunks + [[]])
  {
    forall k | 0 <= k < |run| + 1
      ensures Holds((run + [b])[k], (chunks + [[]])[k], k, |run| + 1)
    {
      if k < |run| {
        assert Holds(run[k], chunks[k], k, |run|);
      }
    }
  }

  /** An empty block can be prepended to a run whose first block is filled
      from the start of its storage. */
  lemma StoredCons(run: seq<Block>, chunks: seq<seq<int>>, b: Block)
    requires Stored(run, chunks) && Holds(b, [], 0, |run| + 1)
    requires 0 < |run| && 0 < run[0].size ==> run[0].begin == 0
    ensures Stored([b] + run, [[]] + chunks)
  {
    forall k | 0 <= k < |run| + 1
      ensures Holds(([b] + run)[k], ([[]] + chunks)[k], k, |run| + 1)
    {
      if 0 < k {
        assert Holds(run[k - 1], chunks[k - 1], k - 1, |run|);
      }
    }
  }

  /** Dropping the last block of a run leaves a run. */
  lemma StoredDropLast(run: seq<Block>, chunks: seq<seq<int>>)
    requires Stored(run, chunks) && 0 < |run|
    ensures Stored(run[..|run| - 1], chunks[..|run| - 1])
  {
    forall k | 0 <= k < |run| - 1
      ensures Holds(run[k], chunks[k], k, |run| - 1)
    {
      assert Holds(run[k], chunks[k], k, |run|);
    }
  }

  /** Dropping the first block of a run leaves a run. */
  lemma StoredDropFirst(run: seq<Block>, chunks: seq<seq<int>>)
    requires Stored(run, chunks) && 0 < |run|
    ensures Stored(run[1..], chunks[1..])
  {
    forall k | 0 <= k < |run| - 1
      ensures Holds(run[1..][k], chunks[1..][k], k, |run| - 1)
    {
      assert Holds(run[k + 1], chunks[k + 1], k + 1, |run|);
    }
  }

  class Deque {
    /** Number of live blocks, i.e. the length of the occupied run of slots. */
    var size: nat
    /** Slot of the first live block. */
    var begin: nat
    /** Number of slots of the directory. */
    var capacity: nat
    /** Total number of elements. */
    var countElem: nat
    /** The slot directory; each slot is null or owns one block. */
    var blocks: array<Block?>

    /** The live blocks in run order. */
    ghost var runBlocks: seq<Block>
    /** The contents of the live blocks in run order. */
    ghost var chunks: seq<seq<int>>
    /** The directory, the live blocks and their storage. */
    ghost var Repr: set<object>

    /** The representation invariant.  It admits the directory of zero slots
        that a constructor starts from, and live blocks that are still empty,
        which a push creates just before writing into them. */
    ghost predicate Sound()
      reads this, Repr
    {
      && this !in Repr
      && blocks in Repr
      && capacity == blocks.Length
      && size == |runBlocks|
      && Layout(blocks[..], begin, runBlocks)
      && Owned(runBlocks, Repr)
      && Stored(runBlocks, chunks)
      && countElem == |Flatten(chunks)|
    }

    /** The invariant between public operations: a directory of at least
        `MinCapacity` slots and no empty live block. */
    ghost predicate Valid()
      reads this, Repr
    {
      && Sound()
      && MinCapacity <= capacity
      && (forall k :: 0 <= k < |chunks| ==> chunks[k] != [])
    }

    /** The abstract value: the elements from front to back. */
    ghost function Elements(): seq<int>
      reads this
    {
      Flatten(chunks)
    }

    /** A push at the back must create a block: there is none, or the last
        one has no free cell after its elements. */
    ghost predicate NeedsBackBlock()
      reads this, Repr
      requires Sound()
    {
      size == 0 || !runBlocks[size - 1].IsBackEmpty()
    }

    /** A push at the front must create a block: there is none, or the first
        one has no free cell before its elements. */
    ghost predicate NeedsFrontBlock()
      reads this, Repr
      requires Sound()
    {
      size == 0 || !runBlocks[0].IsFrontEmpty()
    }

    /** Only the first and the last live block may be partially filled. */
    lemma DensityHolds()
      requires Valid()
      ensures Dense(chunks)
    {
      forall k | 0 <= k < size
        ensures Holds(runBlocks[k], chunks[k], k, size)
      {
      }
    }

    /** An empty deque of `MinCapacity` slots. */
    constructor ()
      ensures Valid() && fresh(Repr)
      ensures Elements() == [] && capacity == MinCapacity
    {
      size, begin, capacity, countElem := 0, 0, 0, 0;
      blocks := new Block?[0];
      runBlocks, chunks := [], [];
      Repr := {blocks};
      new;
      SetCapacity(MinCapacity);
    }

    /** A deque of `n` zeros. */
    constructor Sized(n: nat)
      ensures Valid() && fresh(Repr)
      ensures Elements() == seq(n, _ => 0)
      ensures Max(MinCapacity, n / BlockSize + 1) <= capacity
    {
      size, begin, capacity, countElem := 0, 0, 0, 0;
      blocks := new Block?[0];
      runBlocks, chunks := [], [];
      Repr := {blocks};
      new;
      InitSized(n);
    }

    /** A deep copy of `rhs`: same elements, storage of its own. */
    constructor Copy(rhs: Deque)
      requires rhs.Valid()
      ensures Valid() && fresh(Repr)
      ensures Elements() == rhs.Elements()
    {
      size, begin, capacity, countElem := 0, 0, 0, 0;
      blocks := new Block?[0];
      runBlocks, chunks := [], [];
      Repr := {blocks};
      new;
      InitSized(rhs.Size());
      // InitSized leaves rhs alone.  The disjunction with `false` is only a
      // proof-cost workaround: a plain `assert rhs.Valid()` is split into the
      // conjuncts of Valid(), each re-proved through the frame separately,
      // while this form is proved once, whole, from the frame of Valid().
      assert rhs.Valid() || false;
      CopyElements(rhs);
    }

    /** A deque holding `list`, front to back. */
    constructor FromList(list: seq<int>)
      ensures Valid() && fresh(Repr)
      ensures Elements() == list
    {
      size, begin, capacity, countElem := 0, 0, 0, 0;
      blocks := new Block?[0];
      runBlocks, chunks := [], [];
      Repr := {blocks};
      new;
      InitSized(|list|);
      WriteElements(list);
    }

    /** The loop of the copy constructor: element `i` of `rhs` is written to
        index `i`, for every index. */
    method CopyElements(rhs: Deque)
      requires Valid() && rhs.Valid() && Size() == rhs.Size()
      requires Repr !! rhs.Repr && rhs !in Repr && this != rhs
      modifies this, Repr
      ensures Valid() && Repr == old(Repr)
      ensures Elements() == rhs.Elements()
    {
      var i := 0;
      while i < Size()
        invariant Valid() && Repr == old(Repr) && i <= Size() == rhs.Size()
        invariant forall j :: 0 <= j < i ==> Elements()[j] == rhs.Elements()[j]
      {
        Set(i, rhs.Get(i));
        i := i + 1;
      }
    }

    /** The loop of the list constructor: the `i`-th value of `list` is
        written to index `i`, for every index. */
    method WriteElements(list: seq<int>)
      requires Valid() && Size() == |list|
      modifies this, Repr
      ensures Valid() && Repr == old(Repr)
      ensures Elements() == list
    {
      var i := 0;
      while i < |list|
        invariant Valid() && Repr == old(Repr) && i <= |list| == Size()
        invariant forall j :: 0 <= j < i ==> Elements()[j] == list[j]
      {
        Set(i, list[i]);
        i := i + 1;
      }
    }

    /** The body of the sized constructor, which the copy and list
        constructors delegate to: size the directory for `n` elements, then
        push `n` zeros at the back. */
    method InitSized(n: nat)
      requires Sound() && capacity == 0 && Repr == {blocks}
      modifies this, Repr
      ensures Valid() && fresh(Repr)
      ensures Elements() == seq(n, _ => 0)
      ensures Max(MinCapacity, n / BlockSize + 1) <= capacity
    {
      SetCapacity(Max(MinCapacity, n / BlockSize + 1));
      var i := 0;
      while i < n
        invariant i <= n
        invariant Valid() && fresh(Repr)
        invariant Elements() == seq(i, _ => 0)
        invariant Max(MinCapacity, n / BlockSize + 1) <= capacity
      {
        PushBack(0);
        assert seq(i + 1, _ => 0) == seq(i, _ => 0) + [0];
        i := i + 1;
      }
    }

    /** Exchanges the whole state of the two deques. */
    method Swap(rhs: Deque)
      requires Valid() && rhs.Valid()
      requires this !in rhs.Repr && rhs !in Repr
      modifies this, rhs
      ensures Valid() && rhs.Valid()
      ensures Elements() == old(rhs.Elements()) && rhs.Elements() == old(Elements())
      ensures Repr == old(rhs.Repr) && rhs.Repr == old(Repr)
    {
      ExchangeFields(rhs);
    }

    /** The field-by-field exchange that `Swap` performs. */
    method ExchangeFields(rhs: Deque)
      modifies this, rhs
      ensures size == old(rhs.size) && rhs.size == old(size)
      ensures begin == old(rhs.begin) && rhs.begin == old(begin)
      ensures capacity == old(rhs.capacity) && rhs.capacity == old(capacity)
      ensures countElem == old(rhs.countElem) && rhs.countElem == old(countElem)
      ensures blocks == old(rhs.blocks) && rhs.blocks == old(blocks)
      ensures runBlocks == old(rhs.runBlocks) && rhs.runBlocks == old(runBlocks)
      ensures chunks == old(rhs.chunks) && rhs.chunks == old(chunks)
      ensures Repr == old(rhs.Repr) && rhs.Repr == old(Repr)
    {
      size, rhs.size := rhs.size, size;
      begin, rhs.begin := rhs.begin, begin;
      capacity, rhs.capacity := rhs.capacity, capacity;
      countElem, rhs.countElem := rhs.countElem, countElem;
      blocks, rhs.blocks := rhs.blocks, blocks;
      runBlocks, rhs.runBlocks := rhs.runBlocks, runBlocks;
      chunks, rhs.chunks := rhs.chunks, chunks;
      Repr, rhs.Repr := rhs.Repr, Repr;
    }

    /** Copy-and-swap assignment: afterwards this deque holds a fresh copy of
        the elements of `rhs`. */
    method Assign(rhs: Deque)
      requires Valid() && rhs.Valid()
      modifies this
      ensures Valid() && fresh(Repr)
      ensures Elements() == old(rhs.Elements())
    {
      var copy := new Deque.Copy(rhs);
      Swap(copy);
    }

    method PushBack(value: int)
      requires Valid()
      modifies this, Repr
      ensures Valid() && fresh(Repr - old(Repr))
      ensures Elements() == old(Elements()) + [value]
      ensures size == old(size) + if old(NeedsBackBlock()) then 1 else 0
      ensures capacity ==
        if old(NeedsBackBlock()) && old(size) == old(capacity) then 2 * old(capacity) else old(capacity)
    {
      var ind: nat;
      if size == 0 {
        ind := PushBlockBack();
      } else {
        var lst := Next(begin, size - 1, capacity);
        LayoutAt(blocks[..], begin, runBlocks, size - 1);
        if blocks[lst].IsBackEmpty() {
          ind := lst;
        } else {
          ind := PushBlockBack();
        }
      }
      PushIntoLast(ind, value);
    }

    /** The last step of `PushBack`: `value` goes after the elements of the
        last block, which has room for it, and the element count grows. */
    method PushIntoLast(ind: nat, value: int)
      requires Sound() && 0 < size && ind == Next(begin, size - 1, capacity)
      requires runBlocks[size - 1].IsBackEmpty()
      modifies this, runBlocks[size - 1], runBlocks[size - 1].data
      ensures size == old(size) && begin == old(begin) && capacity == old(capacity)
      ensures Sound() && Elements() == old(Elements()) + [value]
      ensures chunks == old(chunks)[size - 1 := old(chunks)[size - 1] + [value]]
      ensures blocks == old(blocks) && runBlocks == old(runBlocks) && Repr == old(Repr)
    {
      LayoutAt(blocks[..], begin, runBlocks, size - 1);
      ghost var last := size - 1;
      ghost var c := chunks[last] + [value];
      PushLastChunk(chunks, value);
      label L:
      blocks[ind].PushBack(value);
      forall k | 0 <= k < |runBlocks|
        ensures Holds(runBlocks[k], chunks[last := c][k], k, |runBlocks|)
      {
        if k != last {
          assert old@L(Holds(runBlocks[k], chunks[k], k, |runBlocks|));
        }
      }
      countElem := countElem + 1;
      chunks := chunks[last := c];
    }

    /** Requires a nonempty deque. */
    method PopBack()
      requires Valid() && 0 < Size()
      modifies this, Repr
      ensures Valid() && Repr == old(Repr)
      ensures Elements() == old(Elements())[..|old(Elements())| - 1]
      ensures capacity == old(capacity) && begin == old(begin)
      ensures 0 < old(size)
      ensures if |old(chunks)[old(size) - 1]| == 1
              then size == old(size) - 1 && blocks[Next(begin, size, capacity)] == null
              else size == old(size)
    {
      var lst := Next(begin, size - 1, capacity);
      PopFromLast(lst);
      if blocks[lst].Size() == 0 {
        ReleaseLast(lst);
      }
    }

    /** The first step of `PopBack`: the last block drops its last element,
        and the element count shrinks with it. */
    method PopFromLast(lst: nat)
      requires Sound() && 0 < size && lst == Next(begin, size - 1, capacity)
      requires chunks[size - 1] != []
      modifies this, runBlocks[size - 1]
      ensures size == old(size) && begin == old(begin) && capacity == old(capacity)
      ensures old(Elements()) != []
      ensures Sound() && Elements() == old(Elements())[..|old(Elements())| - 1]
      ensures chunks == old(chunks)[size - 1 := old(chunks)[size - 1][..|old(chunks)[size - 1]| - 1]]
      ensures blocks == old(blocks) && runBlocks == old(runBlocks) && Repr == old(Repr)
      ensures blocks[lst] == runBlocks[size - 1]
    {
      LayoutAt(blocks[..], begin, runBlocks, size - 1);
      ghost var last := size - 1;
      ghost var c := chunks[last][..|chunks[last]| - 1];
      PopLastChunk(chunks);
      label L:
      blocks[lst].PopBack();
      forall k | 0 <= k < |runBlocks|
        ensures Holds(runBlocks[k], chunks[last := c][k], k, |runBlocks|)
      {
        if k != last {
          assert old@L(Holds(runBlocks[k], chunks[k], k, |runBlocks|));
        }
      }
      countElem := countElem - 1;
      chunks := chunks[last := c];
      assert Stored(runBlocks, chunks);
      assert blocks[..] == old(blocks[..]);
    }

    /** The release step of `PopBack`: the emptied last block leaves its slot. */
    method ReleaseLast(lst: nat)
      requires Sound() && 0 < size && lst == Next(begin, size - 1, capacity)
      requires chunks[size - 1] == []
      modifies this, blocks
      ensures Sound() && Elements() == old(Elements())
      ensures begin == old(begin) && capacity == old(capacity)
      ensures blocks == old(blocks) && Repr == old(Repr)
      ensures size == old(size) - 1 && blocks[lst] == null
      ensures runBlocks == old(runBlocks)[..size] && chunks == old(chunks)[..size]
    {
      LayoutDropLast(blocks[..], begin, runBlocks);
      StoredDropLast(runBlocks, chunks);
      DropEmptyLast(chunks);
      blocks[lst] := null;
      size := size - 1;
      runBlocks := runBlocks[..size];
      chunks := chunks[..size];
    }

    method PushFront(value: int)
      requires Valid()
      modifies this, Repr
      ensures Valid() && fresh(Repr - old(Repr))
      ensures Elements() == [value] + old(Elements())
      ensures size == old(size) + if old(NeedsFrontBlock()) then 1 else 0
      ensures capacity ==
        if old(NeedsFrontBlock()) && old(size) == old(capacity) then 2 * old(capacity) else old(capacity)
      // an empty deque places its first block at `begin`, as a push at the back does
      ensures old(size) == 0 ==> begin == old(begin)
    {
      var ind: nat;
      if size == 0 {
        ind := PushBlockBack();
      } else {
        var fst := begin;
        LayoutAt(blocks[..], begin, runBlocks, 0);
        if blocks[fst].IsFrontEmpty() {
          ind := fst;
        } else {
          ind := PushBlockFront();
        }
      }
      PushIntoFirst(ind, value);
    }

    /** The last step of `PushFront`: `value` goes before the elements of the
        first block, which has room for it, and the element count grows. */
    method PushIntoFirst(ind: nat, value: int)
      requires Sound() && 0 < size && ind == begin
      requires runBlocks[0].IsFrontEmpty()
      modifies this, runBlocks[0], runBlocks[0].data
      ensures Sound() && Elements() == [value] + old(Elements())
      ensures chunks == old(chunks)[0 := [value] + old(chunks)[0]]
      ensures size == old(size) && begin == old(begin) && capacity == old(capacity)
      ensures blocks == old(blocks) && runBlocks == old(runBlocks) && Repr == old(Repr)
    {
      LayoutAt(blocks[..], begin, runBlocks, 0);
      ghost var c := [value] + chunks[0];
      PushFirstChunk(chunks, value);
      label L:
      blocks[ind].PushFront(value);
      forall k | 0 <= k < |runBlocks|
        ensures Holds(runBlocks[k], chunks[0 := c][k], k, |runBlocks|)
      {
        if k != 0 {
          assert old@L(Holds(runBlocks[k], chunks[k], k, |runBlocks|));
        }
      }
      countElem := countElem + 1;
      chunks := chunks[0 := c];
    }

    /** Requires a nonempty deque. */
    method PopFront()
      requires Valid() && 0 < Size()
      modifies this, Repr
      ensures Valid() && Repr == old(Repr)
      ensures Elements() == old(Elements())[1..]
      ensures capacity == old(capacity)
      ensures 0 < old(size)
      ensures if |old(chunks)[0]| == 1
              then size == old(size) - 1 && blocks[old(begin)] == null
                   && begin == Next(old(begin), 1, capacity)
              else size == old(size) && begin == old(begin)
    {
      var fst := begin;
      PopFromFirst(fst);
      if blocks[fst].Size() == 0 {
        ReleaseFirst(fst);
      }
    }

    /** The first step of `PopFront`: the first block drops its first element,
        and the element count shrinks with it. */
    method PopFromFirst(fst: nat)
      requires Sound() && 0 < size && fst == begin
      requires chunks[0] != []
      modifies this, runBlocks[0]
      ensures size == old(size) && begin == old(begin) && capacity == old(capacity)
      ensures old(Elements()) != []
      ensures Sound() && Elements() == old(Elements())[1..]
      ensures chunks == old(chunks)[0 := old(chunks)[0][1..]]
      ensures blocks == old(blocks) && runBlocks == old(runBlocks) && Repr == old(Repr)
      ensures blocks[fst] == runBlocks[0]
    {
      LayoutAt(blocks[..], begin, runBlocks, 0);
      ghost var c := chunks[0][1..];
      PopFirstChunk(chunks);
      label L:
      blocks[fst].PopFront();
      forall k | 0 <= k < |runBlocks|
        ensures Holds(runBlocks[k], chunks[0 := c][k], k, |runBlocks|)
      {
        if k != 0 {
          assert old@L(Holds(runBlocks[k], chunks[k], k, |runBlocks|));
        }
      }
      countElem := countElem - 1;
      chunks := chunks[0 := c];
    }

    /** The release step of `PopFront`: the emptied first block leaves its
        slot and the run starts one slot later. */
    method ReleaseFirst(fst: nat)
      requires Sound() && 0 < size && fst == begin
      requires chunks[0] == []
      modifies this, blocks
      ensures Sound() && Elements() == old(Elements())
      ensures capacity == old(capacity) && blocks == old(blocks) && Repr == old(Repr)
      ensures size == old(size) - 1 && blocks[fst] == null && begin == Next(fst, 1, capacity)
      ensures runBlocks == old(runBlocks)[1..] && chunks == old(chunks)[1..]
    {
      LayoutDropFirst(blocks[..], begin, runBlocks);
      StoredDropFirst(runBlocks, chunks);
      blocks[fst] := null;
      begin := Next(begin, 1, capacity);
      size := size - 1;
      runBlocks := runBlocks[1..];
      chunks := chunks[1..];
    }

    /** The element at logical index `ind` (the read-only `operator[]`). */
    function Get(ind: nat): (r: int)
      reads this, Repr
      requires Valid() && ind < Size()
      ensures r == Elements()[ind]
    {
      var loc := FindLocalIndex(ind);
      FlattenAt(chunks, Dist(begin, loc.0, capacity), loc.1);
      blocks[loc.0].Get(loc.1)
    }

    /** Writes `value` at logical index `ind`, through the reference that the
        mutable `operator[]` returns. */
    method Set(ind: nat, value: int)
      requires Valid() && ind < Size()
      modifies this, Repr
      ensures Valid() && Repr == old(Repr)
      ensures Elements() == old(Elements())[ind := value]
      ensures size == old(size) && begin == old(begin) && capacity == old(capacity)
    {
      var loc := FindLocalIndex(ind);
      ghost var k := Dist(begin, loc.0, capacity);
      ghost var c := chunks[k][loc.1 := value];
      FlattenUpdate(chunks, k, loc.1, value);
      label L:
      blocks[loc.0].Set(loc.1, value);
      forall j | 0 <= j < |runBlocks|
        ensures Holds(runBlocks[j], chunks[k := c][j], j, |runBlocks|)
      {
        if j != k {
          assert old@L(Holds(runBlocks[j], chunks[j], j, |runBlocks|));
        }
      }
      chunks := chunks[k := c];
    }

    function Size(): (r: nat)
      reads this, Repr
      requires Valid()
      ensures r == |Elements()|
    {
      countElem
    }

    /** Pops from the back until the deque is empty; every block is released. */
    method Clear()
      requires Valid()
      modifies this, Repr
      ensures Valid() && Repr == old(Repr)
      ensures Elements() == [] && size == 0
      ensures capacity == old(capacity)
    {
      while Size() > 0
        invariant Valid() && Repr == old(Repr) && capacity == old(capacity)
        decreases Size()
      {
        PopBack();
      }
      FlattenEmpty(chunks);
    }

    /** Some slot of the directory is free: the run is shorter than the
        directory exactly when some slot is null. */
    predicate AnyBlockPlace(): (r: bool)
      reads this, Repr
      requires Sound()
      ensures r <==> exists j :: 0 <= j < capacity && blocks[j] == null
    {
      LayoutFreeSlot(blocks[..], begin, runBlocks);
      size < capacity
    }

    /** Installs a new empty block in slot `ind` unless it is occupied. */
    method MakeBlock(ind: nat)
      requires ind < blocks.Length
      modifies blocks
      ensures blocks[..] == old(blocks[..])[ind := blocks[ind]]
      ensures old(blocks[ind]) != null ==> blocks[ind] == old(blocks[ind])
      ensures old(blocks[ind]) == null ==>
        && blocks[ind] != null && fresh(blocks[ind]) && fresh(blocks[ind].data)
        && blocks[ind].Valid() && blocks[ind].maxSize == BlockSize
        && blocks[ind].begin == 0 && blocks[ind].size == 0
    {
      if blocks[ind] == null {
        blocks[ind] := new Block(BlockSize);
      }
    }

    /** Appends a new empty block to the run, doubling the directory first
        when every slot is taken.  Returns the slot of the new block. */
    method PushBlockBack() returns (ind: nat)
      requires Valid() && NeedsBackBlock()
      modifies this, blocks
      ensures Sound() && MinCapacity <= capacity && fresh(Repr - old(Repr))
      ensures size == old(size) + 1
      ensures capacity == if old(size) == old(capacity) then 2 * old(capacity) else old(capacity)
      ensures begin == if old(size) == old(capacity) then 0 else old(begin)
      ensures runBlocks == old(runBlocks) + [runBlocks[size - 1]] && fresh(runBlocks[size - 1])
      ensures chunks == old(chunks) + [[]] && countElem == old(countElem)
      ensures Elements() == old(Elements())
      ensures runBlocks[size - 1].begin == 0
      ensures ind == Next(begin, size - 1, capacity) && blocks[ind] == runBlocks[size - 1]
    {
      if !AnyBlockPlace() {
        DoubleCapacity();
      }
      ind := AttachBack();
    }

    /** The rest of `PushBlockBack`, once a slot is free: a new block in the
        slot right after the run becomes its last block. */
    method AttachBack() returns (ind: nat)
      requires Sound() && size < capacity && NeedsBackBlock()
      modifies this, blocks
      ensures Sound() && fresh(Repr - old(Repr))
      ensures size == old(size) + 1 && begin == old(begin) && capacity == old(capacity)
      ensures runBlocks == old(runBlocks) + [runBlocks[size - 1]] && fresh(runBlocks[size - 1])
      ensures chunks == old(chunks) + [[]] && countElem == old(countElem)
      ensures Elements() == old(Elements())
      ensures runBlocks[size - 1].begin == 0
      ensures ind == Next(begin, size - 1, capacity) && blocks[ind] == runBlocks[size - 1]
    {
      var slot := Next(begin, size, capacity);
      ghost var slots := blocks[..];
      LayoutFree(slots, begin, runBlocks, size);
      MakeBlock(slot);
      ghost var b := blocks[slot];
      assert b !in Repr && b.data !in Repr;
      OwnedSnoc(runBlocks, Repr, b);
      LayoutSnoc(slots, begin, runBlocks, b);
      StoredSnoc(runBlocks, chunks, b);
      FlattenSnoc(chunks, []);
      AdoptLast(b);
      ind := Next(begin, size - 1, capacity);
    }

    /** Makes `b`, with no elements, the last block of the run. */
    method AdoptLast(ghost b: Block)
      requires Stored(runBlocks + [b], chunks + [[]])
      modifies this
      ensures Stored(runBlocks, chunks)
      ensures size == old(size) + 1 && runBlocks == old(runBlocks) + [b]
      ensures chunks == old(chunks) + [[]] && Repr == old(Repr) + {b, b.data}
      ensures begin == old(begin) && capacity == old(capacity)
      ensures blocks == old(blocks) && countElem == old(countElem)
    {
      size, runBlocks, chunks, Repr := size + 1, runBlocks + [b], chunks + [[]], Repr + {b, b.data};
    }

    /** Prepends a new empty block to the run, doubling the directory first
        when every slot is taken.  Returns the slot of the new block. */
    method PushBlockFront() returns (ind: nat)
      requires Valid() && 0 < size && NeedsFrontBlock()
      modifies this, blocks
      ensures Sound() && MinCapacity <= capacity && fresh(Repr - old(Repr))
      ensures size == old(size) + 1
      ensures capacity == if old(size) == old(capacity) then 2 * old(capacity) else old(capacity)
      ensures begin == Prev(if old(size) == old(capacity) then 0 else old(begin), 1, capacity)
      ensures runBlocks == [runBlocks[0]] + old(runBlocks) && fresh(runBlocks[0])
      ensures chunks == [[]] + old(chunks) && countElem == old(countElem)
      ensures Elements() == old(Elements())
      ensures ind == begin && blocks[ind] == runBlocks[0]
    {
      if !AnyBlockPlace() {
        DoubleCapacity();
      }
      ind := AttachFront();
    }

    /** The rest of `PushBlockFront`, once a slot is free: the run starts one
        slot earlier, and a new block in that slot becomes its first block. */
    method AttachFront() returns (ind: nat)
      requires Sound() && size < capacity && NeedsFrontBlock()
      modifies this, blocks
      ensures Sound() && fresh(Repr - old(Repr))
      ensures size == old(size) + 1 && capacity == old(capacity)
      ensures begin == Prev(old(begin), 1, capacity)
      ensures runBlocks == [runBlocks[0]] + old(runBlocks) && fresh(runBlocks[0])
      ensures chunks == [[]] + old(chunks) && countElem == old(countElem)
      ensures Elements() == old(Elements())
      ensures ind == begin && blocks[ind] == runBlocks[0]
    {
      ghost var slots := blocks[..];
      ghost var oldBegin := begin;
      LayoutFree(slots, begin, runBlocks, capacity - 1);
      begin := Prev(begin, 1, capacity);
      size := size + 1;
      MakeBlock(begin);
      ghost var b := blocks[begin];
      assert b !in Repr && b.data !in Repr;
      OwnedCons(runBlocks, Repr, b);
      LayoutCons(slots, oldBegin, runBlocks, b);
      StoredCons(runBlocks, chunks, b);
      assert ([[]] + chunks)[1..] == chunks;
      AdoptFirst(b);
      ind := begin;
    }

    /** Makes `b`, with no elements, the first block of the run. */
    method AdoptFirst(ghost b: Block)
      requires Stored([b] + runBlocks, [[]] + chunks)
      modifies this
      ensures Stored(runBlocks, chunks)
      ensures runBlocks == [b] + old(runBlocks) && chunks == [[]] + old(chunks)
      ensures Repr == old(Repr) + {b, b.data}
      ensures size == old(size) && begin == old(begin) && capacity == old(capacity)
      ensures blocks == old(blocks) && countElem == old(countElem)
    {
      runBlocks, chunks, Repr := [b] + runBlocks, [[]] + chunks, Repr + {b, b.data};
    }

    /** Maps logical index `ind` to (slot, offset in that slot's block): the
        first block is tested directly, the rest is one division, which is
        correct because the blocks between the first and the last are full. */
    function FindLocalIndex(ind: nat): (r: (nat, nat))
      reads this, Repr
      requires Valid() && ind < Size()
      ensures r.0 < capacity && Dist(begin, r.0, capacity) < size
      ensures var k := Dist(begin, r.0, capacity);
              && blocks[r.0] == runBlocks[k]
              && r.1 < |chunks[k]|
              && Start(chunks, k) + r.1 == ind
    {
      DensityHolds();
      LayoutAt(blocks[..], begin, runBlocks, 0);
      var block := begin;
      if ind < blocks[block].Size() then
        (block, ind)
      else
        var rest := ind - blocks[block].Size();
        var next := Next(block, 1, capacity);
        var fullBlocks := rest / BlockSize;
        LocateInRun(chunks, ind);
        NextNext(block, 1, fullBlocks, capacity);
        LayoutAt(blocks[..], begin, runBlocks, 1 + fullBlocks);
        DistNext(begin, 1 + fullBlocks, capacity);
        (Next(next, fullBlocks, capacity), rest - fullBlocks * BlockSize)
    }

    method DoubleCapacity()
      requires Sound()
      modifies this
      ensures Sound() && capacity == 2 * old(capacity) && begin == 0
      ensures size == old(size) && countElem == old(countElem)
      ensures runBlocks == old(runBlocks) && chunks == old(chunks)
      ensures fresh(blocks) && Repr == old(Repr) - {old(blocks)} + {blocks}
    {
      SetCapacity(capacity * 2);
    }

    /** Moves the block handles, in run order, to slots 0.. of a new directory
        of `newCapacity` slots. */
    method SetCapacity(newCapacity: nat)
      requires Sound() && capacity <= newCapacity
      modifies this
      ensures Sound() && capacity == newCapacity && begin == 0
      ensures size == old(size) && countElem == old(countElem)
      ensures runBlocks == old(runBlocks) && chunks == old(chunks)
      ensures blocks[..] == Relocated(old(blocks[..]), old(begin), newCapacity)
      ensures fresh(blocks) && Repr == old(Repr) - {old(blocks)} + {blocks}
    {
      var newBlocks := MoveHandles(newCapacity);
      LayoutRelocate(blocks[..], begin, runBlocks, newCapacity);
      Repr := Repr - {blocks} + {newBlocks};
      begin := 0;
      capacity := newCapacity;
      blocks := newBlocks;
    }

    /** The loop of `SetCapacity`: a new directory of `newCapacity` slots
        whose slot `k` holds the handle `k` slots after `begin`. */
    method MoveHandles(newCapacity: nat) returns (newBlocks: array<Block?>)
      requires capacity == blocks.Length <= newCapacity
      requires begin < capacity || begin == capacity == 0
      ensures fresh(newBlocks)
      ensures newBlocks[..] == Relocated(blocks[..], begin, newCapacity)
    {
      newBlocks := new Block?[newCapacity](_ => null);
      var current := 0;
      var i := begin;
      while current < capacity
        invariant current <= capacity
        invariant current < capacity ==> i == Next(begin, current, capacity)
        invariant forall k :: 0 <= k < current ==> newBlocks[k] == blocks[Next(begin, k, capacity)]
        invariant forall k :: current <= k < newCapacity ==> newBlocks[k] == null
      {
        newBlocks[current] := blocks[i];
        NextNext(begin, current, 1, capacity);
        current := current + 1;
        i := Next(i, 1, capacity);
      }
    }
  }
}
