/** The disk as the classes of rpc-ingest share it.  `done` records every
    durable step in order. */
module DiskIO {
  import opened DiskModel

  class Disk {
    var state: DiskState
    ghost var done: seq<Action>

    constructor (initial: DiskState)
      ensures state == initial && done == []
    {
      state := initial;
      done := [];
    }

    /** From state `before` with `history`, exactly `acts` were performed. */
    ghost predicate Performed(before: DiskState, history: seq<Action>, acts: seq<Action>)
      reads this
    {
      done == history + acts && state == DoAll(before, acts)
    }

    method Perform(a: Action)
      modifies this
      ensures Performed(old(state), old(done), [a])
      ensures state == Do(old(state), a)
    {
      state := Do(state, a);
      done := done + [a];
      DoOne(old(state), a);
    }
  }

  lemma NothingPerformed(d: Disk)
    ensures d.Performed(d.state, d.done, [])
  {
    assert d.done + [] == d.done;
  }

  lemma PerformedMeans(before: DiskState, history: seq<Action>, acts: seq<Action>, d: Disk)
    requires d.Performed(before, history, acts)
    ensures d.done == history + acts && d.state == DoAll(before, acts)
  {
  }

  /** Two stretches of work are one. */
  lemma PerformedThen(before: DiskState, history: seq<Action>, xs: seq<Action>, mid: DiskState, ys: seq<Action>,
                      d: Disk)
    requires mid == DoAll(before, xs) && d.Performed(mid, history + xs, ys)
    ensures d.Performed(before, history, xs + ys)
  {
    DoAppend(before, xs, ys);
    assert history + xs + ys == history + (xs + ys);
  }
}
