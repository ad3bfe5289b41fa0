/** Circular slot arithmetic of the block directory.

    The directory of a deque is an array of `capacity` slots used as a ring.
    `Next` and `Prev` move a slot index forwards and backwards with a single
    branch instead of a modulo operation; `Dist` is the inverse of `Next`: the
    logical position of a slot in a run that starts at a given slot. */
module Circular {

  /** Slot `offset` places after `ind`, wrapping around once. */
  function Next(ind: nat, offset: nat, capacity: nat): (r: nat)
    requires ind < capacity && offset <= capacity
    ensures r < capacity
  {
    if ind + offset < capacity then ind + offset else ind + offset - capacity
  }

  /** Slot `offset` places before `ind`, wrapping around once. */
  function Prev(ind: nat, offset: nat, capacity: nat): (r: nat)
    requires ind < capacity && offset <= capacity
    ensures r < capacity
  {
    if ind < offset then capacity + ind - offset else ind - offset
  }

  /** Position of slot `to` in the circular run that starts at slot `from`. */
  function Dist(from: nat, to: nat, capacity: nat): (r: nat)
    requires from < capacity && to < capacity
    ensures r < capacity
  {
    if from <= to then to - from else to + capacity - from
  }

  /** The branch in `Next` is addition modulo the capacity. */
  lemma NextIsModular(ind: nat, offset: nat, capacity: nat)
    requires ind < capacity && offset <= capacity
    ensures Next(ind, offset, capacity) == (ind + offset) % capacity
  {
  }

  /** The branch in `Prev` is subtraction modulo the capacity. */
  lemma PrevIsModular(ind: nat, offset: nat, capacity: nat)
    requires ind < capacity && offset <= capacity
    ensures Prev(ind, offset, capacity) == (ind - offset) % capacity
  {
  }

  /** `Next` undoes `Dist`: slot `to` is `Dist(from, to)` places after `from`. */
  lemma NextDist(from: nat, to: nat, capacity: nat)
    requires from < capacity && to < capacity
    ensures Next(from, Dist(from, to, capacity), capacity) == to
  {
  }

  /** `Dist` undoes `Next`: the slot `k` places after `from` is at position `k`. */
  lemma DistNext(from: nat, k: nat, capacity: nat)
    requires from < capacity && k < capacity
    ensures Dist(from, Next(from, k, capacity), capacity) == k
  {
  }

  /** Stepping forward twice is stepping forward by the sum. */
  lemma NextNext(ind: nat, a: nat, b: nat, capacity: nat)
    requires ind < capacity && a + b <= capacity
    ensures Next(Next(ind, a, capacity), b, capacity) == Next(ind, a + b, capacity)
  {
  }

  /** `Prev` and `Next` by the same offset undo each other. */
  lemma NextPrev(ind: nat, offset: nat, capacity: nat)
    requires ind < capacity && offset <= capacity
    ensures Next(Prev(ind, offset, capacity), offset, capacity) == ind
    ensures Prev(Next(ind, offset, capacity), offset, capacity) == ind
  {
  }
}
