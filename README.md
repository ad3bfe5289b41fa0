# Block deque

A model, in Dafny, of the block-based double-ended queue of `deque.h`. The
model has two layers.

- A **`Block`** is a fixed buffer of `int` cells. Its live elements occupy
  `data[begin .. begin + size)`.
  - Elements are pushed and popped at either end without moving the others.
  - A push into an empty block first re-anchors it: to the start of the
    storage for a push at the back, to the end for a push at the front.
- A **`Deque`** is a circular directory `blocks` of `capacity` slots.
  - The live blocks occupy one circular run of `size` slots from slot `begin`.
    Every other slot is null.
  - `countElem` counts the elements.
  - A block is created when a push finds no room at its end, and released by
    the pop that empties it.
  - When a new block is needed and every slot is taken, the directory
    doubles. The block handles move, in run order, to slots `0..`, and
    `begin` becomes 0.
  - `FindLocalIndex` maps a logical index to a (slot, offset) pair with one
    division. This is correct because every block between the first and the
    last is full.

The abstract value of a deque is `Elements()`: the contents of its live
blocks, concatenated in run order. Pushes and pops become append, prepend,
drop-last and drop-first on that sequence. Indexing reads and writes its
elements.

Files:

- `circular.dfy` (module `Circular`): the branch-based ring arithmetic
  `Next`/`Prev`. It also holds `Dist`, the position of a slot in a run, and
  proves that `Next`/`Prev` are addition and subtraction modulo the capacity.
- `block.dfy` (module `Blocks`): the class `Block`. Its ghost `Contents` is
  the sequence of live cells.
- `slots.dfy` (module `Slots`): `Layout`, the shape of the directory (the run
  in its slots, null elsewhere). It proves that each directory move keeps
  that shape: adding or dropping a block at either end, and relocating
  during growth.
- `run.dfy` (module `BlockRun`): `Flatten`, the concatenation of block
  contents, and `Start`, the logical index of a block's first element. It
  defines the density predicate `Dense` and proves the index arithmetic
  that `FindLocalIndex` relies on.
- `deque.dfy` (module `Deques`): the class `Deque`, whose representation
  invariant combines the above.

Deque invariants:

- `Sound()` holds everywhere. It states:
  - the directory layout;
  - each live block is owned, with no sharing;
  - each live block holds its chunk and is anchored;
  - `countElem` is the element count.

  "Anchored" means that every nonempty block except the first starts at cell
  0, and every nonempty block except the last ends at cell `BlockSize`.
  These two anchoring facts give density.
- `Valid()` holds between public operations. It adds two facts to `Sound()`:
  the directory has at least `MinCapacity` slots, and no live block is empty.

As in the source, `PushFront` on an empty deque creates its first block
through `PushBlockBack`.

## Model

| member | source | states |
|---|---|---|
| Circular.Next | deque.h:193-198 | the slot `offset` places after `ind` is a slot of the directory |
| Circular.Prev | deque.h:200-205 | the slot `offset` places before `ind` is a slot of the directory |
| Circular.NextIsModular | deque.h:193-198 | the branch-based wraparound of `Next` is `(ind + offset) % capacity` |
| Circular.PrevIsModular | deque.h:200-205 | the branch-based wraparound of `Prev` is `(ind - offset) mod capacity` |
| Circular.NextPrev | deque.h:193-205 | `Next` and `Prev` by the same offset undo each other |
| Circular.NextNext | deque.h:242-244 | advancing by one and then by `full_blocks` is advancing by their sum, as `FindLocalIndex` does |
| Blocks.Block.constructor | deque.h:17-19 | a new block has `maxSize` cells of storage of its own and no elements |
| Blocks.Block.IsBackEmpty | deque.h:21-23 | there is a free storage cell right after the last element, where `PushBack` writes; when there is none, the elements end at the end of the storage |
| Blocks.Block.IsFrontEmpty | deque.h:25-27 | the cell `PushFront` writes, just before the start or at the end of an empty block, lies inside the storage; when there is none, the block is nonempty and starts at cell 0 |
| Blocks.Block.Size | deque.h:29-31 | the size is the number of live elements |
| Blocks.Block.PushBack | deque.h:33-39 | given room at the back, appends `elem` and keeps `begin + size <= maxSize`; an empty block is re-anchored at cell 0 |
| Blocks.Block.PushFront | deque.h:41-48 | given room at the front, prepends `elem`; an empty block is re-anchored so that its elements end at `maxSize`, otherwise the end does not move |
| Blocks.Block.PopBack | deque.h:50-52 | drops the last element; the start does not move |
| Blocks.Block.PopFront | deque.h:54-57 | drops the first element; the end does not move |
| Blocks.Block.Get | deque.h:63-65 | returns element `ind` of the contents |
| Blocks.Block.Set | deque.h:59-61 | a write through the returned reference replaces element `ind` and nothing else |
| Slots.LayoutAt | deque.h:187-191 | in a laid-out directory, slot `Next(begin, k)` holds the `k`-th live block |
| Slots.LayoutFree | deque.h:207-211 | every slot after the run is null, so `MakeBlock` there installs a new block |
| Slots.LayoutFreeSlot | deque.h:213-215 | the run is shorter than the directory exactly when some slot is null |
| Slots.LayoutSnoc | deque.h:217-224 | a block placed in the slot after the run extends the run at its end |
| Slots.LayoutCons | deque.h:226-234 | a block placed in the slot before `begin`, with `begin` moved back to it, extends the run at its start |
| Slots.LayoutDropLast | deque.h:129-135 | nulling the last slot of the run shortens the run by its last block |
| Slots.LayoutDropFirst | deque.h:155-162 | nulling slot `begin` and advancing `begin` shortens the run by its first block |
| Slots.LayoutRelocate | deque.h:254-268 | moving the handles in run order to slots `0..` of a directory at least as large gives the same run starting at slot 0 |
| BlockRun.PushLastChunk | deque.h:113-127 | appending to the last block appends to the whole sequence |
| BlockRun.PopLastChunk | deque.h:129-137 | dropping the last element of the last block drops the last element of the whole sequence |
| BlockRun.PushFirstChunk | deque.h:139-153 | prepending to the first block prepends to the whole sequence |
| BlockRun.PopFirstChunk | deque.h:155-164 | dropping the first element of the first block drops the first element of the whole sequence |
| BlockRun.DropEmptyLast | deque.h:132-135 | releasing an empty last block leaves the sequence unchanged |
| BlockRun.FlattenEmpty | deque.h:180-184 | with no empty block, the sequence is empty exactly when there are no blocks |
| BlockRun.FlattenLength | deque.h:176-178 | the length of the sequence, which `Size()` reports, is the sum of the block sizes |
| BlockRun.FlattenAt | deque.h:166-174 | offset `off` of block `k` is element `Start(k) + off` of the sequence |
| BlockRun.FlattenUpdate | deque.h:166-169 | writing offset `off` of block `k` writes element `Start(k) + off` of the sequence and no other |
| BlockRun.StartDense | deque.h:241-245 | in a dense run, block `k >= 1` starts at the first block's size plus `k - 1` full blocks |
| BlockRun.LocateInRun | deque.h:241-245 | past the first block, index `ind` lies in block `1 + (ind - first) / BlockSize` at offset `(ind - first) % BlockSize`, and that block exists |
| Deques.OwnedSnoc | deque.h:207-211 | a new block with new storage can join the end of the run without sharing |
| Deques.OwnedCons | deque.h:207-211 | a new block with new storage can join the start of the run without sharing |
| Deques.StoredSnoc | deque.h:217-224 | a new empty block after a last block that ends at the end of its storage keeps every block anchored |
| Deques.StoredCons | deque.h:226-234 | a new empty block before a first block that starts at cell 0 keeps every block anchored |
| Deques.StoredDropLast | deque.h:132-135 | releasing the last block keeps the rest anchored |
| Deques.StoredDropFirst | deque.h:158-161 | releasing the first block keeps the rest anchored |
| Deques.Deque.DensityHolds | deque.h:236-248 | between operations, every live block other than the first and the last is full |
| Deques.Deque.constructor | deque.h:74-76 | a default deque is empty, with a directory of `MinCapacity` slots |
| Deques.Deque.Sized | deque.h:83-88 | `Deque(n)` holds `n` zeros, with a directory of at least `max(MinCapacity, n / BlockSize + 1)` slots |
| Deques.Deque.InitSized | deque.h:83-88 | sizing the directory and then pushing `n` zeros at the back yields `n` zeros |
| Deques.Deque.Copy | deque.h:77-81 | the copy holds the elements of `rhs` in storage of its own |
| Deques.Deque.CopyElements | deque.h:78-80 | writing index `i` of `rhs` to index `i`, for every index, makes the two sequences equal |
| Deques.Deque.FromList | deque.h:90-98 | the deque holds the list, front to back, in storage of its own |
| Deques.Deque.WriteElements | deque.h:91-97 | writing the `i`-th list value to index `i`, for every index, makes the sequence the list |
| Deques.Deque.Swap | deque.h:105-111 | both deques stay valid, and they exchange their elements and their storage |
| Deques.Deque.ExchangeFields | deque.h:106-110 | each field of either deque takes the other deque's old value |
| Deques.Deque.Assign | deque.h:100-103 | after copy-and-swap the deque holds the elements of `rhs` in new storage |
| Deques.Deque.PushBack | deque.h:113-127 | the sequence becomes `E + [value]`; a block is added exactly when there is none or the last one has no room, and the directory doubles only if, in addition, every slot is taken |
| Deques.Deque.PushIntoLast | deque.h:125-126 | writing into the last block appends to the sequence and keeps the invariant |
| Deques.Deque.PopBack | deque.h:129-137 | on a nonempty deque the sequence becomes `E[..|E|-1]`; the last block is released and its slot nulled exactly when it held one element |
| Deques.Deque.PopFromLast | deque.h:130-136 | removing from the last block drops the last element of the sequence |
| Deques.Deque.ReleaseLast | deque.h:132-135 | an emptied last block leaves its slot, and the run shrinks by one |
| Deques.Deque.PushFront | deque.h:139-153 | the sequence becomes `[value] + E`; a block is added exactly when there is none or the first one has no room, and the directory doubles only if, in addition, every slot is taken |
| Deques.Deque.PushIntoFirst | deque.h:151-152 | writing into the first block prepends to the sequence and keeps the invariant |
| Deques.Deque.PopFront | deque.h:155-164 | on a nonempty deque the sequence becomes `E[1..]`; the first block is released and `begin` advances by `Next` exactly when it held one element |
| Deques.Deque.PopFromFirst | deque.h:156-163 | removing from the first block drops the first element of the sequence |
| Deques.Deque.ReleaseFirst | deque.h:158-161 | an emptied first block leaves its slot, and the run starts one slot later |
| Deques.Deque.Get | deque.h:171-174 | `operator[]` reads element `ind` of the sequence |
| Deques.Deque.Set | deque.h:166-169 | a write through `operator[]` replaces element `ind` of the sequence and nothing else |
| Deques.Deque.Size | deque.h:176-178 | the size is the length of the sequence |
| Deques.Deque.Clear | deque.h:180-184 | popping until empty ends with no elements, no live block and the same number of slots |
| Deques.Deque.AnyBlockPlace | deque.h:213-215 | `size_ < capacity_` holds exactly when some slot of the directory is null |
| Deques.Deque.MakeBlock | deque.h:207-211 | a null slot gets a new empty block with its own storage; an occupied slot is left alone |
| Deques.Deque.PushBlockBack | deque.h:217-224 | a new empty block joins the end of the run, after a doubling exactly when every slot was taken; the sequence is unchanged |
| Deques.Deque.AttachBack | deque.h:221-223 | with a free slot, the new block goes in the slot after the run and its index is returned |
| Deques.Deque.PushBlockFront | deque.h:226-234 | a new empty block joins the start of the run at `Prev(begin)`, after a doubling exactly when every slot was taken; the sequence is unchanged |
| Deques.Deque.AttachFront | deque.h:230-233 | with a free slot, `begin` moves back one slot and the new block goes there |
| Deques.Deque.FindLocalIndex | deque.h:236-248 | for `ind < Size()`, the result is a live block's slot and an offset inside that block, at logical index `ind` |
| Deques.Deque.DoubleCapacity | deque.h:250-252 | the directory doubles, the run moves to slot 0, and the blocks and elements are unchanged |
| Deques.Deque.SetCapacity | deque.h:254-268 | for a capacity at least the current one, the handle at logical position `k` moves to slot `k`, `begin` becomes 0, and the run and elements are unchanged |
| Deques.Deque.MoveHandles | deque.h:256-264 | the loop fills slot `k` of the new directory with the handle `k` slots after `begin`, and leaves the other slots null |

## Left out

- Deques.Deque.Sized: states that the directory has at least `max(MinCapacity, n / BlockSize + 1)` slots. In the source it has exactly that many, because the pushes never fill it. Proving this would need the block count of every push, which the loop invariant does not track.
- Deques.Deque.InitSized: bounds the capacity from below only, as `Sized` does.
- Deques.Deque.AnyBlockPlace: requires the representation invariant `Sound()`, which holds at both places the source calls it (`deque.h:218`, `deque.h:227`).
- Deques.Deque.Swap: requires that neither deque owns the other. C++ objects cannot own each other, so this holds of every pair of deques in the source.
- Blocks.Block.PushFront: requires a block of at least one cell. With zero cells the source writes before its buffer. Every block of a deque has `BlockSize` cells.
- The move constructor (`deque.h:82`) is not modelled. It copies the counters and nulls only the directory of the source. The source is left with counters but no directory, which is not a valid deque.
- `unique_ptr` ownership and allocation failure are not modelled. Slots hold nullable references, and the ghost `Repr` set bounds ownership from above. `release` and `reset` become plain reads and writes of a slot, and the old directory is simply dropped.
- Blocks released by a pop are not removed from the ghost `Repr` set, which may therefore keep blocks that no slot owns any more. `Repr` is only an upper bound on ownership, used for framing.
- `BlockSize` is fixed at 128. The source derives it from `BlockSizeBytes = 512` and `sizeof(int)`; 128 assumes a 4-byte `int`.
- The `std::initializer_list` constructor takes its values as a sequence. Iterator details are not modelled.
- Counters are unbounded naturals. Overflow of `size_t` is not modelled, e.g. in `capacity_ * 2`.
- Popping an empty deque and indexing out of range are preconditions, as in the source, which does not check them.
- `operator[]` is split into `Get` (reading) and `Set` (writing through the returned reference). `operator=` is `Assign`, which does not return the deque.
- The unused `#include <deque>` and thread safety are out of scope. The source is single-threaded.
