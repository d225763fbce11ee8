/** How far a pass gets: where its loop starts and, if it completes, exactly
    where it ends. */
module Progress {
  import opened Basics
  import opened Chain
  import opened IndexFile
  import opened DiskModel
  import opened Pass
  import opened PassFacts
  import opened CrashSafety
  import PF = PartFiles

  predicate Completed(r: PassResult) {
    r.outcome.CaughtUp? || r.outcome.Again?
  }

  /** The pass gets past the first two calls. */
  predicate Begun(cfg: Config, node: Node) {
    node.ok(BlockCount) && Latest(cfg, node) >= 0 && node.ok(LatestHash)
  }

  // --- Where the loop starts -----------------------------------------------

  ghost predicate AtTip(chain: seq<Block>, h: nat, last: Option<Hash>) {
    h > 0 && last.Some? ==> h <= |chain| && chain[h - 1].hash == last.value
  }

  /** The position, if it has a hash, is the block of the chain at its height. */
  predicate OnActive(chain: seq<Block>, at: Cursor) {
    at.hash.Some? ==> 0 <= at.height < |chain| && chain[at.height].hash == at.hash.value
  }

  /** The stale row, if there is one above height 0, hangs on the chain. */
  ghost predicate StaleOnChain(chain: seq<Block>, stale: Option<IndexRow>) {
    stale.Some? && 0 < stale.value.height <= |chain| ==> chain[stale.value.height - 1].hash == stale.value.prev
  }

  /** Whether the pass rewinds to parse the stale row again. */
  predicate Rewinds(at: Cursor, stale: Option<IndexRow>) {
    stale.Some? && stale.value.height - 1 < at.height
  }

  /** Where the pass continues before it rewinds: the stored or seeded position,
      or the common ancestor. */
  ghost function Position(cfg: Config, node: Node, picks: Picks, d: DiskState, flags: Flags): Cursor {
    var found := Locate(d, picks.top);
    Reconcile(cfg, node, LoadIndex(DoAll(d, found.acts).index), flags, found.pointer).at
  }

  lemma EnterPosition(cfg: Config, node: Node, stale: Option<IndexRow>, p: Prep)
    requires p.Ready?
    ensures var q := Enter(cfg, node, stale, p);
            q.Ready? ==> q.at == Rewind(p.at, stale) && q.at.height < Latest(cfg, node)
  {
  }

  /** The loop starts at that position, rewound if need be. */
  lemma PreparedPosition(t: Tree, cfg: Config, node: Node, picks: Picks, d: DiskState, flags: Flags)
    requires WellFormedTree(t) && ActiveChain(t, node.chain) && Sound(t, d) && ValidPicks(picks, d)
    ensures var idx := LoadIndex(DoAll(d, Locate(d, picks.top).acts).index);
            var p, from := Prepare(cfg, node, picks, d, flags), Position(cfg, node, picks, d, flags);
            && IndexClosed(t, idx) && IsEarliestStale(idx, picks.stale)
            && (p.Ready? ==>
                  && OnChain(t, idx, node.chain, from)
                  && p.at == Rewind(from, picks.stale) && p.at.height < Latest(cfg, node))
  {
    hide Reconcile, Enter, Sound, IsEarliestStale, IndexClosed, OnChain, PointerIndexed;
    SeededFacts(t, d, picks);
    var found, latest := Locate(d, picks.top), Latest(cfg, node);
    if node.ok(BlockCount) && latest >= 0 && node.ok(LatestHash) {
      var pointer := Pointer(latest, node.chain[latest].hash);
      BeginKeepsSound(t, d, pointer, picks.top);
      var idx := LoadIndex(DoAll(d, found.acts).index);
      var p := Reconcile(cfg, node, idx, flags, found.pointer);
      ReconcileOnChain(t, cfg, node, idx, flags, found.pointer);
      if p.Ready? {
        EnterPosition(cfg, node, picks.stale, p);
      }
    }
  }

  lemma SeededFacts(t: Tree, d: DiskState, picks: Picks)
    requires WellFormedTree(t) && Sound(t, d) && ValidPicks(picks, d)
    ensures var idx := LoadIndex(DoAll(d, Locate(d, picks.top).acts).index);
            IndexClosed(t, idx) && IsEarliestStale(idx, picks.stale)
    ensures d.current.None? && FoundRows(d.parts.blocks) != [] ==> IsTop(FoundRows(d.parts.blocks), picks.top)
  {
    LocateKeepsSound(t, d, picks.top);
  }

  /** A rewound position is on the chain if and only if the stale row is. */
  lemma RewoundOnActive(t: Tree, chain: seq<Block>, idx: ByHash, from: Cursor, stale: Option<IndexRow>)
    requires WellFormedTree(t) && ActiveChain(t, chain) && IndexClosed(t, idx) && IsEarliestStale(idx, stale)
    requires OnChain(t, idx, chain, from)
    ensures OnActive(chain, Rewind(from, stale)) <==> (Rewinds(from, stale) ==> StaleOnChain(chain, stale))
    ensures Rewind(from, stale).hash.Some? <==> Rewind(from, stale).height >= 0
  {
    if Rewinds(from, stale) {
      assert idx[stale.value.hash] == stale.value;
    }
  }

  /** Preparing does not move the stored position unless the pass ends there. */
  lemma PrepareKeepsPosition(cfg: Config, node: Node, picks: Picks, d: DiskState, flags: Flags)
    ensures var p := Prepare(cfg, node, picks, d, flags); p.Ready? ==> DoAll(d, p.acts).current == d.current
  {
    hide WalkBackFrom, FlagDetached, LoadIndex, FoundRows, DoAll;
    var p := Prepare(cfg, node, picks, d, flags);
    if p.Ready? {
      assert forall i :: 0 <= i < |p.acts| ==> !p.acts[i].CurrentReplace?;
      NoPointerKeeps(d, p.acts);
    }
  }

  lemma {:induction false} NoPointerKeeps(d: DiskState, acts: seq<Action>)
    requires forall i :: 0 <= i < |acts| ==> !acts[i].CurrentReplace?
    ensures DoAll(d, acts).current == d.current
    decreases |acts|
  {
    if acts != [] {
      NoPointerKeeps(d, acts[..|acts| - 1]);
    }
  }

  // --- Where the loop ends -------------------------------------------------

  lemma StartsAt(node: Node, d: DiskState, p: Prep)
    requires p.Ready?
    ensures StartWalk(node, d, p).at == p.at
  {
  }

  /** The loop ends at the last block it visits. */
  lemma LoopEndsAt(cfg: Config, mode: PF.Mode, chain: seq<Block>, w: Walk, n: nat)
    requires w.at.height + 1 + n <= |chain| && forall i :: 0 <= i < |chain| ==> chain[i].height == i
    ensures var v := VisitAll(cfg, mode, w, chain[w.at.height + 1..w.at.height + 1 + n]);
            && v.at.height == w.at.height + n
            && (if n == 0 then v.at == w.at else v.at.hash == Some(chain[v.at.height].hash))
  {
    hide Checkpoint;
    var step := (v, b) => VisitAndCheckpoint(cfg, mode, v, b);
    var Inv := (v: Walk) =>
      v.at.height < |chain|
      && (v.at == w.at || (v.at.height > w.at.height && v.at.hash == Some(chain[v.at.height].hash)));
    forall v: Walk, b: Block {:trigger step(v, b)}
      | Inv(v) && w.at.height <= v.at.height && v.at.height + 1 < |chain| && b == chain[v.at.height + 1]
      ensures Inv(step(v, b)) && step(v, b).at.height == v.at.height + 1
    {
      CheckpointKeepsPosition(cfg, mode, Visit(v, b));
    }
    FoldInduction(step, chain, w, n, Inv);
  }

  lemma CheckpointKeepsPosition(cfg: Config, mode: PF.Mode, w: Walk)
    ensures Checkpoint(cfg, mode, w).at == w.at
  {
  }

  lemma FinishSaves(cfg: Config, mode: PF.Mode, w: Walk, ending: Ending, latest: int)
    requires w.at.hash.Some? && w.at.height >= 0
    ensures var r := FinishWalk(cfg, mode, w, ending, latest);
            r.outcome.Aborted? ||
            (r.acts != [] && r.acts[|r.acts| - 1] == CurrentReplace(Pointer(w.at.height, w.at.hash.value)))
  {
    hide Drain, FlushIndex, FlushFlags, DoAll;
  }

  /** Without the prefetcher, and on the chain with it, the loop ends below the
      target or the stop flag, unless a fetch fails. */
  lemma {:induction false} VisitsEnd(t: Tree, node: Node, stopAt: nat, end: int, latest: int, h: nat,
                                     last: Option<Hash>)
    requires Stable(t, node) && latest < |node.chain|
    requires end < 0 || (AtTip(node.chain, h, last) && (h == 0 ==> last == None))
    ensures var v := VisitsFrom(node, stopAt, end, latest, h, last);
            !v.ending.Failed? ==> h + |v.blocks| == Max(h, Min(latest + 1, stopAt))
    decreases latest + 1 - h
  {
    if h <= latest && h < stopAt && node.ok(Fetch(h)) {
      var b := node.chain[h];
      assert node.served(h) == b;
      if h > 0 && last.Some? && end >= 0 {
        assert b.prev == node.chain[h - 1].hash;
      }
      VisitsEnd(t, node, stopAt, end, latest, h + 1, Some(b.hash));
    }
  }

  /** Off the chain the prefetcher stops the loop before its first block. */
  lemma VisitsNone(t: Tree, node: Node, stopAt: nat, end: int, latest: int, h: nat, last: Hash)
    requires Stable(t, node) && h <= latest < |node.chain| && 0 < h <= end && node.chain[h - 1].hash != last
    ensures VisitsFrom(node, stopAt, end, latest, h, Some(last)).blocks == []
  {
    if h < stopAt && node.ok(Fetch(h)) {
      assert node.served(h) == node.chain[h] && node.chain[h].prev == node.chain[h - 1].hash;
    }
  }

  lemma {:induction false} VisitsSucceed(t: Tree, node: Node, stopAt: nat, end: int, latest: int, h: nat,
                                         last: Option<Hash>)
    requires latest < |node.chain| && forall i: nat :: i < |node.chain| ==> node.ok(Fetch(i))
    ensures !VisitsFrom(node, stopAt, end, latest, h, last).ending.Failed?
    decreases latest + 1 - h
  {
    if h <= latest && h < stopAt {
      VisitsSucceed(t, node, stopAt, end, latest, h + 1, Some(node.served(h).hash));
    }
  }

  /** The height a pass that continues from height `from` of the chain ends at,
      if the node answers. */
  function EndHeight(cfg: Config, node: Node, stopAt: nat, from: int): int {
    Max(from + 1, Min(Latest(cfg, node) + 1, stopAt)) - 1
  }

  /** Where a pass that continues from `from` ends, if the node answers: at once
      if the prefetcher finds it off the chain. */
  function EndCursor(cfg: Config, node: Node, workers: nat, stopAt: nat, from: Cursor): (end: Cursor) {
    var top := EndHeight(cfg, node, stopAt, from.height);
    var parallel := ParallelEnd(cfg, node, workers, from, Latest(cfg, node)) >= 0;
    if (parallel && !OnActive(node.chain, from)) || !(from.height < top < |node.chain|) then from
    else Cursor(top, Some(node.chain[top].hash))
  }

  /** On the chain it ends at the end height whatever the workers, and on it. */
  lemma EndIsOnChain(cfg: Config, node: Node, workers: nat, stopAt: nat, from: Cursor)
    requires OnActive(node.chain, from)
    ensures var end := EndCursor(cfg, node, workers, stopAt, from);
            && end.height == EndHeight(cfg, node, stopAt, from.height) && OnActive(node.chain, end)
            && (end.hash.Some? || end == from)
  {
  }

  lemma FinishReaches(cfg: Config, mode: PF.Mode, w: Walk, ending: Ending, latest: int)
    ensures var r := FinishWalk(cfg, mode, w, ending, latest);
            && r.reached == w.at
            && (Completed(r) <==> !ending.Failed?)
            && (r.outcome.CaughtUp? <==> !ending.Failed? && w.at.height >= latest)
  {
  }

  lemma LoopVisits(t: Tree, cfg: Config, node: Node, workers: nat, stopAt: nat, p: Prep)
    requires Stable(t, node) && p.Ready? && p.at.height < Latest(cfg, node)
    requires p.at.hash.Some? <==> p.at.height >= 0
    ensures var latest, h := Latest(cfg, node), p.at.height + 1;
            var v := VisitsFrom(node, stopAt, ParallelEnd(cfg, node, workers, p.at, latest), latest, h, p.at.hash);
            var end := EndCursor(cfg, node, workers, stopAt, p.at);
            && h + |v.blocks| <= |node.chain| && v.blocks == node.chain[h..h + |v.blocks|]
            && (!v.ending.Failed? ==>
                  end == if v.blocks == [] then p.at else Cursor(p.at.height + |v.blocks|, end.hash))
            && (!v.ending.Failed? && v.blocks != [] ==> end.hash == Some(node.chain[end.height].hash))
  {
    hide VisitsFrom, ParallelEnd;
    var latest, h := Latest(cfg, node), p.at.height + 1;
    var end := ParallelEnd(cfg, node, workers, p.at, latest);
    VisitsAreChain(t, node, stopAt, end, latest, h, p.at.hash);
    if end >= 0 && !OnActive(node.chain, p.at) {
      ParallelStart(cfg, node, workers, p.at, latest);
      VisitsNone(t, node, stopAt, end, latest, h, p.at.hash.value);
    } else {
      VisitsEnd(t, node, stopAt, end, latest, h, p.at.hash);
    }
  }

  lemma ParallelStart(cfg: Config, node: Node, workers: nat, at: Cursor, latest: int)
    ensures var end := ParallelEnd(cfg, node, workers, at, latest); end >= 0 ==> at.height + 1 <= end
  {
  }

  lemma LoopReaches(t: Tree, cfg: Config, node: Node, workers: nat, stopAt: nat, d: DiskState, p: Prep)
    requires Stable(t, node) && p.Ready? && p.at.height < Latest(cfg, node)
    requires p.at.hash.Some? <==> p.at.height >= 0
    ensures var r := RunLoop(cfg, node, workers, stopAt, d, p);
            && (Completed(r) ==> r.reached == EndCursor(cfg, node, workers, stopAt, p.at))
            && ((forall i: nat :: i < |node.chain| ==> node.ok(Fetch(i))) ==> Completed(r))
            && (r.outcome.CaughtUp? <==> Completed(r) && r.reached.height >= Latest(cfg, node))
  {
    hide VisitAll, FinishWalk, StartWalk, VisitsFrom, ParallelEnd, ModeFor, EndCursor;
    var latest, h := Latest(cfg, node), p.at.height + 1;
    var end := ParallelEnd(cfg, node, workers, p.at, latest);
    var v := VisitsFrom(node, stopAt, end, latest, h, p.at.hash);
    LoopVisits(t, cfg, node, workers, stopAt, p);
    var mode, w := ModeFor(cfg, p.at, latest), StartWalk(node, d, p);
    assert |node.chain| > 0 && forall i :: 0 <= i < |node.chain| ==> node.chain[i].height == i;
    hide Stable, ActiveChain;
    StartsAt(node, d, p);
    LoopEndsAt(cfg, mode, node.chain, w, |v.blocks|);
    FinishReaches(cfg, mode, VisitAll(cfg, mode, w, v.blocks), v.ending, latest);
    if forall i: nat :: i < |node.chain| ==> node.ok(Fetch(i)) {
      VisitsSucceed(t, node, stopAt, end, latest, h, p.at.hash);
    }
  }

  /** The recovery went through. */
  ghost predicate Reconciles(cfg: Config, node: Node, picks: Picks, d: DiskState, flags: Flags) {
    var found := Locate(d, picks.top);
    Reconcile(cfg, node, LoadIndex(DoAll(d, found.acts).index), flags, found.pointer).Ready?
  }

  /** A pass that halts before its loop, having begun. */
  lemma PreparedHalt(t: Tree, cfg: Config, node: Node, picks: Picks, d: DiskState, flags: Flags)
    requires WellFormedTree(t) && ActiveChain(t, node.chain) && Sound(t, d) && ValidPicks(picks, d) && Begun(cfg, node)
    ensures var p, from := Prepare(cfg, node, picks, d, flags), Position(cfg, node, picks, d, flags);
            && (p.Halt? && (p.outcome.CaughtUp? || p.outcome.Again?) ==>
                  p.outcome.CaughtUp? && p.at == Rewind(from, picks.stale) && p.at.height >= Latest(cfg, node))
            && (p.Ready? || p.outcome.CaughtUp? || p.outcome.Again? ==>
                  && Reconciles(cfg, node, picks, d, flags)
                  && OnChain(t, LoadIndex(DoAll(d, Locate(d, picks.top).acts).index), node.chain, from))
            && (Reconciles(cfg, node, picks, d, flags) && node.ok(CurrentHeader) ==> p.Ready? || p.outcome.CaughtUp?)
  {
    hide Reconcile, Enter, Sound, IsEarliestStale, IndexClosed, OnChain, PointerIndexed;
    SeededFacts(t, d, picks);
    var found, latest := Locate(d, picks.top), Latest(cfg, node);
    var pointer := Pointer(latest, node.chain[latest].hash);
    BeginKeepsSound(t, d, pointer, picks.top);
    var idx := LoadIndex(DoAll(d, found.acts).index);
    var p := Reconcile(cfg, node, idx, flags, found.pointer);
    ReconcileOnChain(t, cfg, node, idx, flags, found.pointer);
    HaltsFailing(cfg, node, idx, flags, found.pointer);
    if p.Ready? {
      EnterHalt(cfg, node, picks.stale, p);
    }
  }

  lemma HaltsFailing(cfg: Config, node: Node, idx: ByHash, flags: Flags, pos: Option<Pointer>)
    ensures var p := Reconcile(cfg, node, idx, flags, pos);
            p.Halt? ==> !p.outcome.CaughtUp? && !p.outcome.Again?
  {
  }

  lemma EnterHalt(cfg: Config, node: Node, stale: Option<IndexRow>, p: Prep)
    requires p.Ready?
    ensures var q := Enter(cfg, node, stale, p);
            && (q.Halt? && (q.outcome.CaughtUp? || q.outcome.Again?) ==>
                  q.outcome.CaughtUp? && q.at == Rewind(p.at, stale) && q.at.height >= Latest(cfg, node))
            && (node.ok(CurrentHeader) ==> q.Ready? || q.outcome.CaughtUp?)
  {
  }

  /** The node answers what a pass asks after the recovery. */
  ghost predicate AnswersRest(node: Node) {
    node.ok(CurrentHeader) && forall i: nat :: i < |node.chain| ==> node.ok(Fetch(i))
  }

  /** A pass that completes ends at a position that is known before it: the one
      it continues from, or the block of the chain at the target or below the
      stop flag. */
  lemma CompletedReaches(t: Tree, cfg: Config, node: Node, workers: nat, stopAt: nat, picks: Picks, d: DiskState,
                         flags: Flags)
    requires WellFormedTree(t) && Stable(t, node) && Sound(t, d) && ValidPicks(picks, d) && Begun(cfg, node)
    ensures var r := RunPass(cfg, node, workers, stopAt, picks, d, flags);
            var from := Rewind(Position(cfg, node, picks, d, flags), picks.stale);
            && (Completed(r) ==> r.reached == EndCursor(cfg, node, workers, stopAt, from))
            && (Completed(r) ==> (from.hash.Some? <==> from.height >= 0))
            && (Completed(r) ==> Reconciles(cfg, node, picks, d, flags))
            && (r.outcome.CaughtUp? <==> Completed(r) && r.reached.height >= Latest(cfg, node))
            && (Reconciles(cfg, node, picks, d, flags) && AnswersRest(node) ==> Completed(r))
  {
    hide RunLoop, Prepare, Position, Sound, IndexClosed, IsEarliestStale, OnChain, Rewind, Rewinds, OnActive,
      Reconciles;
    var p := Prepare(cfg, node, picks, d, flags);
    PreparedPosition(t, cfg, node, picks, d, flags);
    PreparedHalt(t, cfg, node, picks, d, flags);
    var from := Position(cfg, node, picks, d, flags);
    if p.Ready? || p.outcome.CaughtUp? || p.outcome.Again? {
      RewoundOnActive(t, node.chain, LoadIndex(DoAll(d, Locate(d, picks.top).acts).index), from, picks.stale);
    }
    if p.Ready? {
      LoopReaches(t, cfg, node, workers, stopAt, d, p);
    }
  }

  /** Where its loop starts on the chain, the height alone says where it ends. */
  lemma CompletedOnChain(t: Tree, cfg: Config, node: Node, workers: nat, stopAt: nat, picks: Picks, d: DiskState,
                         flags: Flags)
    requires WellFormedTree(t) && Stable(t, node) && Sound(t, d) && ValidPicks(picks, d) && Begun(cfg, node)
    requires StaleOnChain(node.chain, picks.stale) && Completed(RunPass(cfg, node, workers, stopAt, picks, d, flags))
    ensures var at := RunPass(cfg, node, workers, stopAt, picks, d, flags).reached;
            var from := Rewind(Position(cfg, node, picks, d, flags), picks.stale);
            at.height == EndHeight(cfg, node, stopAt, from.height) && OnActive(node.chain, at)
  {
    hide RunPass, Prepare, Position, Sound, IndexClosed, IsEarliestStale, OnChain, Rewind, Rewinds, OnActive,
      Reconciles, StaleOnChain;
    PreparedPosition(t, cfg, node, picks, d, flags);
    PreparedHalt(t, cfg, node, picks, d, flags);
    CompletedReaches(t, cfg, node, workers, stopAt, picks, d, flags);
    var from := Position(cfg, node, picks, d, flags);
    CompletedPrepares(cfg, node, workers, stopAt, picks, d, flags);
    RewoundOnActive(t, node.chain, LoadIndex(DoAll(d, Locate(d, picks.top).acts).index), from, picks.stale);
    EndIsOnChain(cfg, node, workers, stopAt, Rewind(from, picks.stale));
  }

  lemma CompletedPrepares(cfg: Config, node: Node, workers: nat, stopAt: nat, picks: Picks, d: DiskState, flags: Flags)
    requires Completed(RunPass(cfg, node, workers, stopAt, picks, d, flags))
    ensures var p := Prepare(cfg, node, picks, d, flags); p.Ready? || p.outcome.CaughtUp? || p.outcome.Again?
  {
    hide Prepare, RunLoop;
  }
}
