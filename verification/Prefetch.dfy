/** iter_parsed_blocks: a window of futures, completed in any order and handed
    out in height order. */
module Prefetch {
  import opened Basics
  import opened Chain
  import opened Pass

  /** What the worker of a height returns: the block, or an exception. */
  function FetchResult(node: Node, h: nat): Option<Block> {
    if node.ok(Fetch(h)) then Some(node.served(h)) else None
  }

  class ParsedBlocks {
    const node: Node
    const end: int        // last height
    const window: nat     // most futures outstanding
    var pending: seq<nat> // heights of the outstanding futures, oldest first
    var ready: map<nat, Option<Block>> // results of the completed ones
    var toSubmit: nat
    var closed: bool
    ghost var next: nat   // height handed out next

    ghost predicate Valid()
      reads this
    {
      && window >= 1
      && (!closed ==>
            && next <= toSubmit <= Max(next, end + 1)
            && |pending| == toSubmit - next <= window
            && (forall i :: 0 <= i < |pending| ==> pending[i] == next + i)
            && (forall h :: h in ready ==> ready[h] == FetchResult(node, h)))
    }

    /** As many futures are outstanding as the window and the range allow. */
    ghost predicate Full()
      reads this
    {
      |pending| == Min(window, Max(end + 1 - next, 0))
    }

    constructor (node: Node, first: nat, end: int, workers: nat)
      requires workers >= 1
      ensures Valid() && !closed && next == first && pending == []
      ensures this.node == node && this.end == end && window == PREFETCH_PER_WORKER * workers
    {
      this.node, this.end, window := node, end, PREFETCH_PER_WORKER * workers;
      pending, ready, toSubmit, closed := [], map[], first, false;
      next := first;
    }

    /** Submits one more height to the pool. */
    method Submit()
      requires Valid() && !closed && toSubmit <= end && |pending| < window
      modifies this
      ensures Valid() && !closed && next == old(next) && toSubmit == old(toSubmit) + 1
      ensures pending == old(pending) + [old(toSubmit)] && ready == old(ready)
    {
      pending := pending + [toSubmit];
      toSubmit := toSubmit + 1;
    }

    /** Some running future completes, whichever the pool finishes first. */
    method CompleteAny()
      requires Valid() && !closed && exists h :: h in pending && h !in ready
      modifies `ready
      ensures Valid()
      ensures exists h :: h in pending && h !in old(ready) && ready.Keys == old(ready.Keys) + {h}
    {
      var h :| h in pending && h !in ready;
      ready := ready[h := FetchResult(node, h)];
    }

    ghost function Running(): set<nat>
      reads this
    {
      set h | h in pending && h !in ready
    }

    /** The result of the oldest future, once it has completed; the next height
        is submitted in its place.  A failed fetch is raised here and ends the
        iteration. */
    method Next() returns (r: Option<Block>)
      requires Valid() && !closed && next <= end
      modifies this
      ensures Valid()
      ensures r == FetchResult(node, old(next))
      ensures r.Some? ==> !closed && next == old(next) + 1 && Full() && |pending| <= window
      ensures r.None? ==> closed
    {
      while |pending| < window && toSubmit <= end
        invariant Valid() && !closed && next == old(next)
        decreases end + 1 - toSubmit
      {
        Submit();
      }
      label Filled:
      var head := pending[0];
      assert head in pending;
      while head !in ready
        invariant Valid() && !closed && next == old(next) && toSubmit == old@Filled(toSubmit)
        invariant pending == old@Filled(pending) && head in pending
        decreases Running()
      {
        ghost var before := Running();
        label Wait: CompleteAny();
        ghost var h :| h in pending && h !in old@Wait(ready) && ready.Keys == old@Wait(ready.Keys) + {h};
        assert h in before && h !in Running();
      }
      r := ready[head];
      if r.None? {
        Close();
        return;
      }
      pending := pending[1..];
      ready := ready - {head};
      next := next + 1;
      if toSubmit <= end {
        Submit();
      }
    }

    /** Cancels what is outstanding. */
    method Close()
      requires window >= 1
      modifies this
      ensures Valid() && closed && pending == []
    {
      closed := true;
      pending := [];
      ready := map[];
    }
  }
}
