/** The worker pool only moves work: on a chain that is stable within the pass
    the number of workers changes nothing, and whatever the workers return,
    only blocks that build on each other are applied. */
module ParallelCatchup {
  import opened Basics
  import opened Chain
  import opened IndexFile
  import opened DiskModel
  import opened Pass
  import opened PassFacts
  import opened CrashSafety
  import opened Runs
  import opened Progress

  /** Up to the end of the prefetched heights every applied block builds on the
      one before it. */
  ghost predicate Linked(blocks: seq<Block>, last: Option<Hash>, count: int) {
    && (count > 0 && |blocks| > 0 && last.Some? ==> blocks[0].prev == last.value)
    && (forall i :: 0 < i < |blocks| && i < count ==> blocks[i].prev == blocks[i - 1].hash)
  }

  /** Whatever the workers return: the prefetched blocks that are applied are
      linked to the position and to each other, the loop stops at the first one
      that is not, and it applies a prefix of what was served, in order. */
  lemma {:induction false} PrefetchedBlocksAreLinked(node: Node, stopAt: nat, parallelEnd: int, latest: int, h: nat,
                                                     last: Option<Hash>)
    ensures var v := VisitsFrom(node, stopAt, parallelEnd, latest, h, last);
            && Linked(v.blocks, last, parallelEnd + 1 - h)
            && (forall i :: 0 <= i < |v.blocks| ==>
                  v.blocks[i] == node.served(h + i) && h + i <= latest && h + i < stopAt)
            && (v.ending.Mismatch? <==>
                  var n := h + |v.blocks|;
                  var before := if v.blocks == [] then last else Some(v.blocks[|v.blocks| - 1].hash);
                  n <= latest && n < stopAt && node.ok(Fetch(n)) && n <= parallelEnd
                  && before.Some? && node.served(n).prev != before.value)
    decreases latest + 1 - h
  {
    if h <= latest && h < stopAt && node.ok(Fetch(h)) {
      var b := node.served(h);
      if !(h <= parallelEnd && last.Some? && b.prev != last.value) {
        PrefetchedBlocksAreLinked(node, stopAt, parallelEnd, latest, h + 1, Some(b.hash));
        var rest := VisitsFrom(node, stopAt, parallelEnd, latest, h + 1, Some(b.hash)).blocks;
        var blocks := [b] + rest;
        forall i | 0 <= i < |blocks|
          ensures blocks[i] == node.served(h + i) && h + i <= latest && h + i < stopAt
        {
          if i > 0 { assert rest[i - 1] == node.served(h + 1 + (i - 1)); }
        }
        forall i | 0 < i < |blocks| && i < parallelEnd + 1 - h
          ensures blocks[i].prev == blocks[i - 1].hash
        {
          if i > 1 { assert rest[i - 1].prev == rest[i - 2].hash; }
        }
      }
    }
  }

  /** From a position on the chain, how much of it is prefetched is irrelevant. */
  lemma {:induction false} PrefetchingIsIrrelevant(t: Tree, node: Node, stopAt: nat, end: int, latest: int, h: nat,
                                                   last: Option<Hash>)
    requires Stable(t, node) && latest < |node.chain| && AtTip(node.chain, h, last) && (h == 0 ==> last == None)
    ensures VisitsFrom(node, stopAt, end, latest, h, last) == VisitsFrom(node, stopAt, -1, latest, h, last)
    decreases latest + 1 - h
  {
    if h <= latest && h < stopAt && node.ok(Fetch(h)) {
      var b := node.chain[h];
      assert node.served(h) == b;
      if h > 0 && last.Some? {
        assert b.prev == node.chain[h - 1].hash;
      }
      PrefetchingIsIrrelevant(t, node, stopAt, end, latest, h + 1, Some(b.hash));
    }
  }

  /** Exactly when prefetching the next height changes what the loop visits: if
      the position is not on the chain, as after a rewind below a stale block of
      a detached branch.  The sequential loop does not notice this. */
  lemma PrefetchingIsIrrelevantIff(t: Tree, node: Node, stopAt: nat, end: int, latest: int, h: nat, last: Hash)
    requires Stable(t, node) && latest < |node.chain| && 0 < h <= end
    requires h <= latest && h < stopAt && node.ok(Fetch(h))
    ensures VisitsFrom(node, stopAt, end, latest, h, Some(last)) == VisitsFrom(node, stopAt, -1, latest, h, Some(last))
            <==> node.chain[h - 1].hash == last
  {
    assert node.served(h) == node.chain[h] && node.chain[h].prev == node.chain[h - 1].hash;
    if node.chain[h - 1].hash == last {
      PrefetchingIsIrrelevant(t, node, stopAt, end, latest, h, Some(last));
    }
  }

  // --- One pass --------------------------------------------------------------

  lemma SameLoop(t: Tree, cfg: Config, node: Node, workers: nat, stopAt: nat, d: DiskState, p: Prep)
    requires Stable(t, node) && p.Ready? && OnActive(node.chain, p.at) && (p.at.hash.Some? <==> p.at.height >= 0)
    ensures RunLoop(cfg, node, workers, stopAt, d, p) == RunLoop(cfg, node, 1, stopAt, d, p)
  {
    hide VisitsFrom, FinishWalk, StartWalk, VisitAll;
    var latest := Latest(cfg, node);
    PrefetchingIsIrrelevant(t, node, stopAt, ParallelEnd(cfg, node, workers, p.at, latest), latest, p.at.height + 1,
                            p.at.hash);
  }

  /** A pass with any number of workers is the pass with one, from any disk that
      a run with kills can leave, unless the lowest stale row is on a detached
      branch. */
  lemma WorkersAreIrrelevant(t: Tree, cfg: Config, node: Node, workers: nat, stopAt: nat, picks: Picks, d: DiskState,
                             flags: Flags)
    requires WellFormedTree(t) && Stable(t, node) && Sound(t, d) && ValidPicks(picks, d)
    requires StaleOnChain(node.chain, picks.stale)
    ensures RunPass(cfg, node, workers, stopAt, picks, d, flags) == RunPass(cfg, node, 1, stopAt, picks, d, flags)
  {
    hide RunLoop, Prepare, Position, Sound, IndexClosed, IsEarliestStale, OnChain, Rewind, StaleOnChain, OnActive;
    var p := Prepare(cfg, node, picks, d, flags);
    PreparedPosition(t, cfg, node, picks, d, flags);
    if p.Ready? {
      RewoundOnActive(t, node.chain, LoadIndex(DoAll(d, Locate(d, picks.top).acts).index),
                      Position(cfg, node, picks, d, flags), picks.stale);
      SameLoop(t, cfg, node, workers, stopAt, d, p);
    }
  }

  /** The prefetcher is used, and the loop gets as far as its first block. */
  ghost predicate Prefetches(cfg: Config, node: Node, workers: nat, stopAt: nat, p: Prep) {
    && p.Ready?
    && ParallelEnd(cfg, node, workers, p.at, Latest(cfg, node)) >= 0
    && p.at.height + 1 < stopAt && node.ok(Fetch(p.at.height + 1))
  }

  /** Off the chain the loop with workers stops before its first block. */
  lemma MismatchAtOnce(t: Tree, cfg: Config, node: Node, workers: nat, stopAt: nat, d: DiskState, p: Prep)
    requires Stable(t, node) && Prefetches(cfg, node, workers, stopAt, p) && p.at.height < Latest(cfg, node)
    requires !OnActive(node.chain, p.at) && (p.at.hash.Some? <==> p.at.height >= 0)
    ensures var r := RunLoop(cfg, node, workers, stopAt, d, p);
            && r.outcome.Again? && r.acts != []
            && r.acts[|r.acts| - 1] == CurrentReplace(Pointer(p.at.height, p.at.hash.value))
  {
    hide Drain, FlushIndex, FlushFlags, DoAll;
    var latest, h := Latest(cfg, node), p.at.height + 1;
    var end := ParallelEnd(cfg, node, workers, p.at, latest);
    assert node.served(h) == node.chain[h] && node.chain[h].prev == node.chain[h - 1].hash;
    assert VisitsFrom(node, stopAt, end, latest, h, p.at.hash) == Visits([], Mismatch);
    var w := StartWalk(node, d, p);
    assert VisitAll(cfg, ModeFor(cfg, p.at, latest), w, []) == w;
  }

  /** The loop with one worker visits at least that block. */
  lemma SequentialGoesOn(t: Tree, cfg: Config, node: Node, stopAt: nat, d: DiskState, p: Prep)
    requires Stable(t, node) && p.Ready? && p.at.height < Latest(cfg, node)
    requires p.at.height + 1 < stopAt && node.ok(Fetch(p.at.height + 1))
    ensures var r := RunLoop(cfg, node, 1, stopAt, d, p);
            r.outcome.Aborted? ||
            (r.acts != [] && r.acts[|r.acts| - 1].CurrentReplace? && r.acts[|r.acts| - 1].pointer.height > p.at.height)
  {
    hide VisitAll, FinishWalk, StartWalk, DoAll;
    var latest, h := Latest(cfg, node), p.at.height + 1;
    var v := VisitsFrom(node, stopAt, -1, latest, h, p.at.hash);
    VisitsAreChain(t, node, stopAt, -1, latest, h, p.at.hash);
    assert |v.blocks| >= 1;
    var mode, w := ModeFor(cfg, p.at, latest), StartWalk(node, d, p);
    StartsAt(node, d, p);
    LoopEndsAt(cfg, mode, node.chain, w, |v.blocks|);
    FinishSaves(cfg, mode, VisitAll(cfg, mode, w, v.blocks), v.ending, latest);
  }

  /** Exactly when the number of workers matters to a pass that prefetches: if
      it rewinds below a stale row that does not hang on the active chain.  The
      sequential loop does not notice this. */
  lemma WorkersMatterIff(t: Tree, cfg: Config, node: Node, workers: nat, stopAt: nat, picks: Picks, d: DiskState,
                         flags: Flags)
    requires WellFormedTree(t) && Stable(t, node) && Sound(t, d) && ValidPicks(picks, d)
    requires Prefetches(cfg, node, workers, stopAt, Prepare(cfg, node, picks, d, flags))
    ensures var r := RunPass(cfg, node, workers, stopAt, picks, d, flags);
            var s := RunPass(cfg, node, 1, stopAt, picks, d, flags);
            (r.acts != s.acts || r.outcome != s.outcome) <==>
            Rewinds(Position(cfg, node, picks, d, flags), picks.stale) && !StaleOnChain(node.chain, picks.stale)
  {
    hide RunLoop, Prepare, Position, Sound, IndexClosed, IsEarliestStale, OnChain, Rewind, Rewinds, StaleOnChain,
      OnActive;
    var p := Prepare(cfg, node, picks, d, flags);
    PreparedPosition(t, cfg, node, picks, d, flags);
    RewoundOnActive(t, node.chain, LoadIndex(DoAll(d, Locate(d, picks.top).acts).index),
                    Position(cfg, node, picks, d, flags), picks.stale);
    if OnActive(node.chain, p.at) {
      SameLoop(t, cfg, node, workers, stopAt, d, p);
    } else {
      MismatchAtOnce(t, cfg, node, workers, stopAt, d, p);
      SequentialGoesOn(t, cfg, node, stopAt, d, p);
    }
  }

  // --- Whole runs --------------------------------------------------------------

  /** The same run with other worker counts. */
  ghost predicate SameButWorkers(xs: seq<PassEvent>, ys: seq<PassEvent>) {
    |xs| == |ys| && forall i :: 0 <= i < |xs| ==> ys[i] == xs[i].(workers := ys[i].workers)
  }

  /** No pass finds its lowest stale row on a detached branch. */
  ghost predicate StaleOnChains(events: seq<PassEvent>) {
    forall i :: 0 <= i < |events| ==> StaleOnChain(events[i].node.chain, events[i].picks.stale)
  }

  lemma StepSameButWorkers(t: Tree, cfg: Config, p: Process, e: PassEvent, f: PassEvent)
    requires WellFormedTree(t) && Sound(t, p.d) && StaleOnChain(e.node.chain, e.picks.stale)
    requires ValidEvent(t, cfg, p, e) && f == e.(workers := f.workers)
    ensures ValidEvent(t, cfg, p, f) && Step(t, cfg, p, f) == Step(t, cfg, p, e)
  {
    hide RunPass, Sound, StaleOnChain, Stable, ValidPicks, DoWoven;
    WorkersAreIrrelevant(t, cfg, e.node, e.workers, e.stopAt, e.picks, p.d, p.flags);
    WorkersAreIrrelevant(t, cfg, e.node, f.workers, e.stopAt, e.picks, p.d, p.flags);
  }

  lemma {:induction false} RunsAgree(t: Tree, cfg: Config, p: Process, xs: seq<PassEvent>, ys: seq<PassEvent>)
    requires WellFormedTree(t) && Sound(t, p.d) && StaleOnChains(xs)
    requires ValidRun(t, cfg, p, xs) && SameButWorkers(xs, ys)
    ensures ValidRun(t, cfg, p, ys) && Run(t, cfg, p, ys) == Run(t, cfg, p, xs)
    decreases |xs|
  {
    hide RunPass, Sound, Step, ValidEvent, StaleOnChain;
    if xs != [] {
      StepSameButWorkers(t, cfg, p, xs[0], ys[0]);
      StepKeepsSound(t, cfg, p, xs[0]);
      RunsAgree(t, cfg, Step(t, cfg, p, xs[0]), xs[1..], ys[1..]);
    }
  }

  /** Whole runs with kills, restarts, RPC outages, stop requests, reorgs and a
      consumer: any choice of worker counts, pass by pass, ends with the same
      disk and the same flags as any other. */
  lemma ParallelRefinesSequential(t: Tree, cfg: Config, xs: seq<PassEvent>, ys: seq<PassEvent>)
    requires WellFormedTree(t) && ValidRun(t, cfg, FRESH, xs) && StaleOnChains(xs) && SameButWorkers(xs, ys)
    ensures ValidRun(t, cfg, FRESH, ys) && Run(t, cfg, FRESH, ys) == Run(t, cfg, FRESH, xs)
  {
    EmptyIsSound(t);
    RunsAgree(t, cfg, FRESH, xs, ys);
  }

  // --- One chain ---------------------------------------------------------------

  /** There is one block at each height. */
  ghost predicate OneBranch(t: Tree) {
    forall x, y :: x in t && y in t && t[x].height == t[y].height ==> x == y
  }

  lemma OneBranchHangs(t: Tree, chain: seq<Block>, idx: ByHash, stale: Option<IndexRow>)
    requires WellFormedTree(t) && OneBranch(t) && ActiveChain(t, chain) && IndexClosed(t, idx)
    requires IsEarliestStale(idx, stale)
    ensures StaleOnChain(chain, stale)
  {
    if stale.Some? && 0 < stale.value.height <= |chain| {
      assert idx[stale.value.hash] == stale.value;
      var below := chain[stale.value.height - 1];
      assert InTree(t, below) && below.height == stale.value.height - 1;
      assert stale.value.prev in t && t[stale.value.prev].height == below.height;
    }
  }

  lemma {:induction false} OneBranchRun(t: Tree, cfg: Config, p: Process, events: seq<PassEvent>)
    requires WellFormedTree(t) && OneBranch(t) && Sound(t, p.d) && ValidRun(t, cfg, p, events)
    ensures StaleOnChains(events)
    decreases |events|
  {
    hide RunPass, Sound, Step, OneBranch, IndexClosed, IsEarliestStale, StaleOnChain;
    if events != [] {
      var e := events[0];
      SeededFacts(t, p.d, e.picks);
      OneBranchHangs(t, e.node.chain, LoadIndex(DoAll(p.d, Locate(p.d, e.picks.top).acts).index), e.picks.stale);
      StepKeepsSound(t, cfg, p, e);
      OneBranchRun(t, cfg, Step(t, cfg, p, e), events[1..]);
      assert forall i :: 1 <= i < |events| ==> events[i] == events[1..][i - 1];
    }
  }

  /** The blocks of a chain, as a tree. */
  ghost function Branch(t: Tree, chain: seq<Block>): Tree {
    map x | x in t && (exists i :: 0 <= i < |chain| && chain[i].hash == x) :: t[x]
  }

  lemma BranchBlock(t: Tree, chain: seq<Block>, x: Hash)
    requires WellFormedTree(t) && ActiveChain(t, chain) && x in Branch(t, chain)
    ensures 0 <= t[x].height < |chain| && chain[t[x].height].hash == x
    ensures t[x].height > 0 ==> t[x].prev in Branch(t, chain)
  {
    var i :| 0 <= i < |chain| && chain[i].hash == x;
    assert InTree(t, chain[i]);
    if i > 0 {
      assert InTree(t, chain[i - 1]) && chain[i].prev == chain[i - 1].hash;
    }
  }

  lemma BranchServes(t: Tree, chain: seq<Block>, c: seq<Block>)
    requires ActiveChain(t, chain) && c <= chain && c != []
    ensures ActiveChain(Branch(t, chain), c)
  {
    forall i | 0 <= i < |c|
      ensures InTree(Branch(t, chain), c[i]) && c[i].height == i
    {
      assert c[i] == chain[i] && InTree(t, chain[i]);
    }
  }

  lemma BranchIsOne(t: Tree, chain: seq<Block>)
    requires WellFormedTree(t) && ActiveChain(t, chain)
    ensures WellFormedTree(Branch(t, chain)) && OneBranch(Branch(t, chain))
    ensures forall c :: c <= chain && c != [] ==> ActiveChain(Branch(t, chain), c)
  {
    hide ActiveChain;
    var b := Branch(t, chain);
    assert forall x :: x in b ==> x in t && b[x] == t[x];
    forall x | x in b
      ensures 0 <= t[x].height < |chain| && chain[t[x].height].hash == x
      ensures t[x].height > 0 ==> t[x].prev in b
    {
      BranchBlock(t, chain, x);
    }
    forall c | c <= chain && c != []
      ensures ActiveChain(b, c)
    {
      BranchServes(t, chain, c);
    }
  }

  /** A run whose nodes all serve one chain, as far as it goes, is a run on the
      blocks of that chain. */
  lemma {:induction false} RunOnBranch(t: Tree, cfg: Config, p: Process, events: seq<PassEvent>, chain: seq<Block>)
    requires WellFormedTree(t) && ActiveChain(t, chain) && ValidRun(t, cfg, p, events)
    requires forall i :: 0 <= i < |events| ==> events[i].node.chain <= chain
    ensures ValidRun(Branch(t, chain), cfg, p, events)
    decreases |events|
  {
    hide RunPass, ValidPicks, DoWoven, WellFormedTree;
    if events != [] {
      var e, b := events[0], Branch(t, chain);
      BranchIsOne(t, chain);
      assert ValidEvent(b, cfg, p, e);
      RunOnBranch(t, cfg, Step(t, cfg, p, e), events[1..], chain);
      assert Step(b, cfg, p, e) == Step(t, cfg, p, e);
    }
  }

  /** On one linked chain, which may grow and shrink between the passes, the
      worker counts never matter, kills included. */
  lemma OneChainRefines(t: Tree, cfg: Config, xs: seq<PassEvent>, ys: seq<PassEvent>, chain: seq<Block>)
    requires WellFormedTree(t) && ActiveChain(t, chain) && ValidRun(t, cfg, FRESH, xs) && SameButWorkers(xs, ys)
    requires forall i :: 0 <= i < |xs| ==> xs[i].node.chain <= chain
    ensures StaleOnChains(xs)
    ensures ValidRun(t, cfg, FRESH, ys) && Run(t, cfg, FRESH, ys) == Run(t, cfg, FRESH, xs)
  {
    hide Run, ValidRun;
    var b := Branch(t, chain);
    BranchIsOne(t, chain);
    RunOnBranch(t, cfg, FRESH, xs, chain);
    EmptyIsSound(b);
    OneBranchRun(b, cfg, FRESH, xs);
    ParallelRefinesSequential(t, cfg, xs, ys);
  }
}
