/** The layout of the block directory.

    A directory of `|slots|` slots is used as a ring: the live blocks occupy
    the circular run of `|run|` slots that starts at slot `begin`, in run
    order, and every other slot is null.  Each operation of the deque moves
    one end of the run, or relocates the whole run to a larger directory;
    the lemmas here show that each of those moves yields a directory laid
    out in the same way. */
module Slots {
  import opened Circular
  import opened Blocks

  /** The run `run` sits in `slots` from slot `begin` on, and nothing else does. */
  ghost predicate Layout(slots: seq<Block?>, begin: nat, run: seq<Block>)
  {
    && (begin < |slots| || begin == |slots| == 0)
    && |run| <= |slots|
    && forall j :: 0 <= j < |slots| ==>
         slots[j] == if Dist(begin, j, |slots|) < |run| then run[Dist(begin, j, |slots|)] else null
  }

  /** Block `k` of the run sits `k` slots after `begin`. */
  lemma LayoutAt(slots: seq<Block?>, begin: nat, run: seq<Block>, k: nat)
    requires Layout(slots, begin, run) && k < |run|
    ensures begin < |slots|
    ensures slots[Next(begin, k, |slots|)] == run[k]
  {
    DistNext(begin, k, |slots|);
  }

  /** The slots after the end of the run, up to `begin`, are free. */
  lemma LayoutFree(slots: seq<Block?>, begin: nat, run: seq<Block>, k: nat)
    requires Layout(slots, begin, run) && |run| <= k < |slots|
    ensures slots[Next(begin, k, |slots|)] == null
  {
    DistNext(begin, k, |slots|);
  }

  /** Some slot is free exactly when the run does not fill the directory. */
  lemma LayoutFreeSlot(slots: seq<Block?>, begin: nat, run: seq<Block>)
    requires Layout(slots, begin, run)
    ensures |run| < |slots| <==> exists j :: 0 <= j < |slots| && slots[j] == null
  {
    if |run| < |slots| {
      LayoutFree(slots, begin, run, |run|);
    }
  }

  /** Installing a block in the first free slot after the run appends it to the run. */
  lemma LayoutSnoc(slots: seq<Block?>, begin: nat, run: seq<Block>, b: Block)
    requires Layout(slots, begin, run) && |run| < |slots|
    ensures Layout(slots[Next(begin, |run|, |slots|) := b], begin, run + [b])
  {
    var n := |slots|;
    var s := Next(begin, |run|, n);
    DistNext(begin, |run|, n);
    forall j | 0 <= j < n
      ensures Dist(begin, j, n) == |run| <==> j == s
    {
      NextDist(begin, j, n);
    }
  }

  /** Clearing the last slot of a nonempty run drops its last block. */
  lemma LayoutDropLast(slots: seq<Block?>, begin: nat, run: seq<Block>)
    requires Layout(slots, begin, run) && 0 < |run|
    ensures Layout(slots[Next(begin, |run| - 1, |slots|) := null], begin, run[..|run| - 1])
  {
    var n := |slots|;
    var s := Next(begin, |run| - 1, n);
    DistNext(begin, |run| - 1, n);
    forall j | 0 <= j < n
      ensures Dist(begin, j, n) == |run| - 1 <==> j == s
    {
      NextDist(begin, j, n);
    }
  }

  /** Installing a block in the free slot before `begin` prepends it to the
      run, which then starts one slot earlier. */
  lemma LayoutCons(slots: seq<Block?>, begin: nat, run: seq<Block>, b: Block)
    requires Layout(slots, begin, run) && |run| < |slots|
    ensures Layout(slots[Prev(begin, 1, |slots|) := b], Prev(begin, 1, |slots|), [b] + run)
  {
    var n := |slots|;
    var p := Prev(begin, 1, n);
    forall j | 0 <= j < n
      ensures Dist(p, j, n) == if j == p then 0 else Dist(begin, j, n) + 1
    {
    }
  }

  /** Clearing slot `begin` of a nonempty run drops its first block, and the
      run then starts one slot later. */
  lemma LayoutDropFirst(slots: seq<Block?>, begin: nat, run: seq<Block>)
    requires Layout(slots, begin, run) && 0 < |run|
    ensures Layout(slots[begin := null], Next(begin, 1, |slots|), run[1..])
  {
    var n := |slots|;
    var s := Next(begin, 1, n);
    forall j | 0 <= j < n
      ensures Dist(s, j, n) == if j == begin then n - 1 else Dist(begin, j, n) - 1
    {
    }
  }

  /** A directory of `n` slots holding, in slots 0.., the slots of `slots`
      taken in circular order from `begin`; the remaining slots are null. */
  ghost function Relocated(slots: seq<Block?>, begin: nat, n: nat): seq<Block?>
    requires begin < |slots| || begin == |slots| == 0
  {
    seq(n, k => if 0 <= k < |slots| then slots[Next(begin, k, |slots|)] else null)
  }

  /** Relocating to a directory at least as large keeps the same run, now
      starting at slot 0. */
  lemma LayoutRelocate(slots: seq<Block?>, begin: nat, run: seq<Block>, n: nat)
    requires Layout(slots, begin, run) && |slots| <= n
    ensures Layout(Relocated(slots, begin, n), 0, run)
  {
    var moved := Relocated(slots, begin, n);
    forall j | 0 <= j < n
      ensures moved[j] == if j < |run| then run[j] else null
    {
      if j < |slots| {
        DistNext(begin, j, |slots|);
      }
    }
  }
}
