/** How far and how fast a pass goes: it parses up to the target depth below the
    tip and no further, in the mode that its backlog calls for, and saves its
    position as often as that mode says. */
module TargetDepth {
  import opened Basics
  import opened Chain
  import opened IndexFile
  import opened DiskModel
  import opened Pass
  import opened PassFacts
  import opened CrashSafety
  import opened Runs
  import opened Progress
  import opened Unvisited
  import opened ExportOrder
  import Arithmetic
  import EO = ExactlyOnce
  import PF = PartFiles

  // --- No further than the target ----------------------------------------------

  /** At least `confirmations` blocks are on top of height `h`. */
  ghost predicate Deep(cfg: Config, node: Node, h: int) {
    h + cfg.confirmations <= |node.chain| - 1
  }

  /** What the action exports, or indexes as exported, is deep enough, and so is a
      position it saves, unless it is not above the one the pass found; latest.csv
      is the block at exactly that depth. */
  ghost predicate DeepAct(cfg: Config, node: Node, found: Option<Pointer>, a: Action) {
    match a
    case OnPart(k, act) => forall r :: r in RowsIn(act) ==> Deep(cfg, node, r.height)
    case IndexAppend(rows) =>
      forall i :: 0 <= i < |rows| && rows[i].version >= CURRENT_SCHEMA ==> Deep(cfg, node, rows[i].height)
    case CurrentReplace(p) => Deep(cfg, node, p.height) || (found.Some? && p.height <= found.value.height)
    case LatestReplace(p) =>
      |node.chain| > cfg.confirmations
      && p == Pointer(|node.chain| - 1 - cfg.confirmations, node.chain[|node.chain| - 1 - cfg.confirmations].hash)
    case _ => true
  }

  ghost predicate AllDeep(cfg: Config, node: Node, found: Option<Pointer>, acts: seq<Action>) {
    forall i :: 0 <= i < |acts| ==> DeepAct(cfg, node, found, acts[i])
  }

  lemma {:induction false} RowHeights(batch: seq<Staged>, k: Kind, top: int)
    requires forall i :: 0 <= i < |batch| ==> batch[i].block.height <= top
    ensures forall r :: r in RowsFor(batch, k) ==> r.height <= top
    decreases |batch|
  {
    if batch != [] {
      RowHeights(batch[..|batch| - 1], k, top);
    }
  }

  ghost predicate DeepBatch(cfg: Config, node: Node, batch: seq<Staged>) {
    forall i :: 0 <= i < |batch| ==> Deep(cfg, node, batch[i].block.height)
  }

  lemma DrainIsDeep(cfg: Config, node: Node, found: Option<Pointer>, mode: PF.Mode, d: DiskState, batch: seq<Staged>)
    requires DeepBatch(cfg, node, batch)
    ensures AllDeep(cfg, node, found, Drain(cfg, mode, d, batch))
  {
    hide RowsFor, PF.WriteActions, RowsIn;
    var Inv := (ks: seq<Kind>, acts: seq<Action>) => AllDeep(cfg, node, found, acts);
    forall i, acts | 0 <= i < |KINDS| && Inv(KINDS[..i], acts)
      ensures Inv(KINDS[..i + 1], acts + DrainActs(cfg, mode, d, batch, KINDS[i]))
    {
      var f := d.parts.At(KINDS[i]);
      WrittenRows(cfg.parts, f, PF.Load(f), mode, RowsFor(batch, KINDS[i]));
      RowHeights(batch, KINDS[i], |node.chain| - 1 - cfg.confirmations);
    }
    DrainInduction(cfg, mode, d, batch, KINDS, Inv);
  }

  /** The position is deep enough, or not above the one found. */
  ghost predicate DeepAt(cfg: Config, node: Node, found: Option<Pointer>, at: Cursor) {
    at.hash.Some? && at.height >= 0 ==> Deep(cfg, node, at.height) || (found.Some? && at.height <= found.value.height)
  }

  ghost predicate DeepWalk(cfg: Config, node: Node, found: Option<Pointer>, w: Walk) {
    AllDeep(cfg, node, found, w.acts) && DeepBatch(cfg, node, w.batch) && DeepAt(cfg, node, found, w.at)
  }

  lemma CheckpointIsDeep(cfg: Config, node: Node, found: Option<Pointer>, mode: PF.Mode, w: Walk)
    requires DeepWalk(cfg, node, found, w)
    ensures DeepWalk(cfg, node, found, Checkpoint(cfg, mode, w))
  {
    hide DoAll, Drain, Deep;
    DrainIsDeep(cfg, node, found, mode, w.d, w.batch);
  }

  lemma StepIsDeep(cfg: Config, node: Node, found: Option<Pointer>, mode: PF.Mode, w: Walk, b: Block)
    requires DeepWalk(cfg, node, found, w) && Deep(cfg, node, b.height)
    ensures var v := VisitAndCheckpoint(cfg, mode, w, b);
            DeepWalk(cfg, node, found, v) && v.at.height == b.height
  {
    hide CheckpointActs, DeepAct, Deep, NeedsExport, LoadIndex, SetCanonicalIfPresent;
    if CheckpointDue(cfg, mode, w.processed + 1) {
      CheckpointIsDeep(cfg, node, found, mode, Visit(w, b));
    }
  }

  lemma LoopIsDeep(cfg: Config, node: Node, found: Option<Pointer>, mode: PF.Mode, w: Walk, n: nat)
    requires DeepWalk(cfg, node, found, w) && w.at.height + 1 + n <= |node.chain| - cfg.confirmations
    requires forall i :: 0 <= i < |node.chain| ==> node.chain[i].height == i
    ensures DeepWalk(cfg, node, found, VisitAll(cfg, mode, w, node.chain[w.at.height + 1..w.at.height + 1 + n]))
  {
    hide DeepWalk, Visit, Checkpoint;
    var from := w.at.height + 1;
    var upTo := node.chain[..from + n];
    var step := (v, b) => VisitAndCheckpoint(cfg, mode, v, b);
    var Inv := v => DeepWalk(cfg, node, found, v);
    forall v: Walk, b: Block {:trigger step(v, b)}
      | Inv(v) && w.at.height <= v.at.height && v.at.height + 1 < |upTo| && b == upTo[v.at.height + 1]
      ensures Inv(step(v, b)) && step(v, b).at.height == v.at.height + 1
    {
      StepIsDeep(cfg, node, found, mode, v, b);
    }
    FoldInduction(step, upTo, w, n, Inv);
    assert upTo[from..from + n] == node.chain[from..from + n];
  }

  lemma RunLoopIsDeep(t: Tree, cfg: Config, node: Node, found: Option<Pointer>, workers: nat, stopAt: nat,
                      d: DiskState, p: Prep)
    requires Stable(t, node) && p.Ready? && p.at.height < Latest(cfg, node)
    requires AllDeep(cfg, node, found, p.acts) && DeepAt(cfg, node, found, p.at)
    ensures AllDeep(cfg, node, found, RunLoop(cfg, node, workers, stopAt, d, p).acts)
  {
    hide VisitAll, VisitsFrom, ParallelEnd, ModeFor, DoAll, DeepAct, Drain;
    var latest := Latest(cfg, node);
    var end := ParallelEnd(cfg, node, workers, p.at, latest);
    var v := VisitsFrom(node, stopAt, end, latest, p.at.height + 1, p.at.hash);
    VisitsAreChain(t, node, stopAt, end, latest, p.at.height + 1, p.at.hash);
    VisitsStayBelow(node, stopAt, end, latest, p.at.height + 1, p.at.hash);
    var mode, w := ModeFor(cfg, p.at, latest), StartWalk(node, d, p);
    LoopIsDeep(cfg, node, found, mode, w, |v.blocks|);
    CheckpointIsDeep(cfg, node, found, mode, VisitAll(cfg, mode, w, v.blocks));
  }

  // --- Before the loop ---------------------------------------------------------

  lemma SeedingIsDeep(t: Tree, cfg: Config, node: Node, d: DiskState, top: Row)
    requires Sound(t, d)
    ensures var found := Locate(d, top); AllDeep(cfg, node, found.pointer, found.acts)
  {
    var rows, idx := FoundRows(d.parts.blocks), LoadIndex(d.index);
    if d.current.None? && rows != [] {
      var pending := SeedPending(idx, [], rows);
      assert Versioned(idx);
      SeedStages(idx, [], rows, rows);
      forall i | 0 <= i < |pending|
        ensures pending[i].version < CURRENT_SCHEMA
      {
        assert RowFound(rows, pending[i]);
      }
    }
  }

  lemma {:induction false} AncestorBelow(byHash: ByHash, node: Node, depth: nat, at: Pointer, seen: seq<Pointer>)
    ensures var r := WalkBackFrom(byHash, node, depth, at, seen); r.Ancestor? ==> r.at.height < at.height
    decreases at.height
  {
    if |seen + [at]| <= depth && at.hash in byHash && at.height > 0 {
      AncestorBelow(byHash, node, depth, Pointer(at.height - 1, byHash[at.hash].prev), seen + [at]);
    }
  }

  /** Up to the rewind the position only goes down. */
  lemma ReconcileIsDeep(cfg: Config, node: Node, byHash: ByHash, flags: Flags, found: Option<Pointer>)
    ensures var p := Reconcile(cfg, node, byHash, flags, found);
            && AllDeep(cfg, node, found, p.acts)
            && (p.Ready? ==> p.at == NOWHERE || (found.Some? && p.at.height <= found.value.height))
  {
    hide WalkBackFrom, FlagDetached, Deep;
    if found.Some? {
      AncestorBelow(byHash, node, cfg.maxReorgDepth, found.value, []);
    }
  }

  lemma EnterIsDeep(cfg: Config, node: Node, found: Option<Pointer>, stale: Option<IndexRow>, p: Prep)
    requires p.Ready? && AllDeep(cfg, node, found, p.acts)
    requires p.at == NOWHERE || (found.Some? && p.at.height <= found.value.height)
    ensures var q := Enter(cfg, node, stale, p);
            AllDeep(cfg, node, found, q.acts) && DeepAt(cfg, node, found, q.at)
  {
    hide Deep;
  }

  /** The node answers the first two calls, and the chain is long enough. */
  ghost predicate WritesLatest(cfg: Config, node: Node) {
    node.ok(BlockCount) && node.ok(LatestHash) && |node.chain| > cfg.confirmations
  }

  lemma PrepareIsDeep(t: Tree, cfg: Config, node: Node, picks: Picks, d: DiskState, flags: Flags)
    requires Sound(t, d)
    ensures var p, found := Prepare(cfg, node, picks, d, flags), Locate(d, picks.top).pointer;
            && AllDeep(cfg, node, found, p.acts)
            && (p.Ready? ==> DeepAt(cfg, node, found, p.at) && p.at.height < Latest(cfg, node))
            && (|node.chain| <= cfg.confirmations ==> p.Halt? && p.acts == [])
            && (WritesLatest(cfg, node) ==> p.acts != [] && p.acts[0].LatestReplace?)
  {
    hide Reconcile, Enter, Locate, Sound, DoAll, LoadIndex;
    SeedingIsDeep(t, cfg, node, d, picks.top);
    var found := Locate(d, picks.top);
    var latest := Latest(cfg, node);
    if node.ok(BlockCount) && latest >= 0 && node.ok(LatestHash) {
      var begun := [LatestReplace(Pointer(latest, node.chain[latest].hash))] + found.acts;
      var byHash := LoadIndex(DoAll(d, begun).index);
      ReconcileIsDeep(cfg, node, byHash, flags, found.pointer);
      var p := Reconcile(cfg, node, byHash, flags, found.pointer);
      if p.Ready? {
        EnterIsDeep(cfg, node, found.pointer, picks.stale, p);
        EnterPosition(cfg, node, picks.stale, p);
      }
    }
  }

  lemma StepGoesOn(cfg: Config, mode: PF.Mode, w: Walk, b: Block)
    ensures var v := VisitAndCheckpoint(cfg, mode, w, b); w.acts <= v.acts && v.at.height == b.height
  {
    hide CheckpointActs, DoAll, NeedsExport, LoadIndex, SetCanonicalIfPresent;
  }

  /** The loop goes on from what was done before it. */
  lemma RunLoopGoesOn(t: Tree, cfg: Config, node: Node, workers: nat, stopAt: nat, d: DiskState, p: Prep)
    requires Stable(t, node) && p.Ready? && p.at.height < Latest(cfg, node)
    ensures p.acts <= RunLoop(cfg, node, workers, stopAt, d, p).acts
  {
    hide VisitsFrom, ParallelEnd, ModeFor, DoAll, CheckpointActs, Visit, VisitAndCheckpoint;
    var latest := Latest(cfg, node);
    var end := ParallelEnd(cfg, node, workers, p.at, latest);
    var v := VisitsFrom(node, stopAt, end, latest, p.at.height + 1, p.at.hash);
    VisitsAreChain(t, node, stopAt, end, latest, p.at.height + 1, p.at.hash);
    var mode, w, chain := ModeFor(cfg, p.at, latest), StartWalk(node, d, p), node.chain;
    var step := (v, b) => VisitAndCheckpoint(cfg, mode, v, b);
    var Inv := (v: Walk) => p.acts <= v.acts;
    forall v: Walk, b: Block {:trigger step(v, b)}
      | Inv(v) && w.at.height <= v.at.height && v.at.height + 1 < |chain| && b == chain[v.at.height + 1]
      ensures Inv(step(v, b)) && step(v, b).at.height == v.at.height + 1
    {
      StepGoesOn(cfg, mode, v, b);
    }
    FoldInduction(step, chain, w, |v.blocks|, Inv);
  }

  // --- Passes and runs -----------------------------------------------------------

  /** A pass against any node, from any disk that a run can leave. */
  lemma PassIsDeep(t: Tree, cfg: Config, node: Node, workers: nat, stopAt: nat, picks: Picks, d: DiskState,
                   flags: Flags)
    requires Stable(t, node) && Sound(t, d)
    ensures var acts := RunPass(cfg, node, workers, stopAt, picks, d, flags).acts;
            && AllDeep(cfg, node, Locate(d, picks.top).pointer, acts)
            && (|node.chain| <= cfg.confirmations ==> acts == [])
            && (WritesLatest(cfg, node) ==> acts != [] && acts[0].LatestReplace?)
  {
    hide Prepare, RunLoop, Locate, Sound, DeepAct, DeepAt, Stable;
    PrepareIsDeep(t, cfg, node, picks, d, flags);
    var p := Prepare(cfg, node, picks, d, flags);
    if p.Ready? {
      RunLoopIsDeep(t, cfg, node, Locate(d, picks.top).pointer, workers, stopAt, d, p);
      RunLoopGoesOn(t, cfg, node, workers, stopAt, d, p);
    }
  }

  lemma VisitedAreDeep(t: Tree, cfg: Config, p: Process, e: PassEvent)
    requires WellFormedTree(t) && Stable(t, e.node) && Sound(t, p.d) && ValidPicks(e.picks, p.d)
    ensures forall i :: 0 <= i < |VisitedIn(cfg, p, e)| ==> Deep(cfg, e.node, VisitedIn(cfg, p, e)[i].height)
  {
    hide Prepare, VisitsFrom, ParallelEnd, Sound, Locate;
    PrepareIsDeep(t, cfg, e.node, e.picks, p.d, p.flags);
    match Prepare(cfg, e.node, e.picks, p.d, p.flags)
    case Halt(_, _, _, _) =>
    case Ready(acts, flags, at) =>
      var latest := Latest(cfg, e.node);
      var end := ParallelEnd(cfg, e.node, e.workers, at, latest);
      VisitsAreChain(t, e.node, e.stopAt, end, latest, at.height + 1, at.hash);
      VisitsStayBelow(e.node, e.stopAt, end, latest, at.height + 1, at.hash);
  }

  /** In every run from nothing: what a pass visits, exports or indexes, wherever
      it is killed, has at least `confirmations` blocks on top in the chain it met, and
      so has the position it saves, unless that is not above the one it found; it
      writes latest.csv with exactly that many on top, and it does nothing on a
      chain that is too short. */
  lemma EveryPassIsDeep(t: Tree, cfg: Config, events: seq<PassEvent>, e: PassEvent)
    requires WellFormedTree(t) && ValidRun(t, cfg, FRESH, events)
    requires ValidEvent(t, cfg, Run(t, cfg, FRESH, events), e)
    ensures var q := Run(t, cfg, FRESH, events);
            && AllDeep(cfg, e.node, Locate(q.d, e.picks.top).pointer, Performed(cfg, q, e))
            && (forall i :: 0 <= i < |VisitedIn(cfg, q, e)| ==> Deep(cfg, e.node, VisitedIn(cfg, q, e)[i].height))
            && (|e.node.chain| <= cfg.confirmations ==> Performed(cfg, q, e) == [])
            && (WritesLatest(cfg, e.node) && Performed(cfg, q, e) != [] ==> Performed(cfg, q, e)[0].LatestReplace?)
            && (WritesLatest(cfg, e.node) ==> Result(cfg, q, e).acts != [])
  {
    hide Run, ValidRun, RunPass, Locate, Sound, DeepAct, VisitedIn, ValidPicks;
    EmptyIsSound(t);
    RunKeepsSound(t, cfg, FRESH, events);
    var q := Run(t, cfg, FRESH, events);
    PassIsDeep(t, cfg, e.node, e.workers, e.stopAt, e.picks, q.d, q.flags);
    VisitedAreDeep(t, cfg, q, e);
  }

  // --- As far as the target ------------------------------------------------------

  lemma LastActionSaves(d: DiskState, acts: seq<Action>, p: Pointer)
    requires acts != [] && acts[|acts| - 1] == CurrentReplace(p)
    ensures DoAll(d, acts).current == Some(p)
  {
  }

  /** A completed loop saves where it ends. */
  lemma LoopSaves(t: Tree, cfg: Config, node: Node, workers: nat, stopAt: nat, d: DiskState, p: Prep)
    requires Stable(t, node) && p.Ready? && p.at.height < Latest(cfg, node) && (p.at.hash.Some? <==> p.at.height >= 0)
    ensures var r := RunLoop(cfg, node, workers, stopAt, d, p);
            Completed(r) && r.reached.hash.Some? && r.reached.height >= 0 ==>
              DoAll(d, r.acts).current == Some(Pointer(r.reached.height, r.reached.hash.value))
  {
    hide VisitAll, FinishWalk, StartWalk, VisitsFrom, ParallelEnd, ModeFor, DoAll;
    var latest, h := Latest(cfg, node), p.at.height + 1;
    var end := ParallelEnd(cfg, node, workers, p.at, latest);
    var v := VisitsFrom(node, stopAt, end, latest, h, p.at.hash);
    var mode, w := ModeFor(cfg, p.at, latest), StartWalk(node, d, p);
    var last := VisitAll(cfg, mode, w, v.blocks);
    FinishReaches(cfg, mode, last, v.ending, latest);
    var r := FinishWalk(cfg, mode, last, v.ending, latest);
    if Completed(r) && last.at.hash.Some? && last.at.height >= 0 {
      FinishSaves(cfg, mode, last, v.ending, latest);
      LastActionSaves(d, r.acts, Pointer(last.at.height, last.at.hash.value));
    }
  }

  /** If the node answers, no stop flag is seen and the pass continues from a
      shallower position on the chain, it ends at exactly the target depth, saves
      that and is caught up. */
  lemma PassReachesTarget(t: Tree, cfg: Config, node: Node, workers: nat, stopAt: nat, picks: Picks, d: DiskState,
                          flags: Flags)
    requires WellFormedTree(t) && Stable(t, node) && Sound(t, d) && ValidPicks(picks, d)
    requires node.ok(BlockCount) && node.ok(LatestHash) && AnswersRest(node) && Reconciles(cfg, node, picks, d, flags)
    requires stopAt >= |node.chain| - cfg.confirmations > 0
    requires var from := Rewind(Position(cfg, node, picks, d, flags), picks.stale);
             OnActive(node.chain, from) && from.height < |node.chain| - 1 - cfg.confirmations
    ensures var r := RunPass(cfg, node, workers, stopAt, picks, d, flags);
            var target := |node.chain| - 1 - cfg.confirmations;
            && r.outcome.CaughtUp? && r.reached == Cursor(target, Some(node.chain[target].hash))
            && DoAll(d, r.acts).current == Some(Pointer(target, node.chain[target].hash))
  {
    hide RunLoop, Prepare, Position, Sound, IndexClosed, IsEarliestStale, OnChain, Rewind, Rewinds, Reconciles, DoAll,
      LoadIndex;
    var p := Prepare(cfg, node, picks, d, flags);
    CompletedReaches(t, cfg, node, workers, stopAt, picks, d, flags);
    PreparedPosition(t, cfg, node, picks, d, flags);
    PreparedHalt(t, cfg, node, picks, d, flags);
    var from := Position(cfg, node, picks, d, flags);
    EndIsOnChain(cfg, node, workers, stopAt, Rewind(from, picks.stale));
    RewoundOnActive(t, node.chain, LoadIndex(DoAll(d, Locate(d, picks.top).acts).index), from, picks.stale);
    if p.Ready? {
      LoopSaves(t, cfg, node, workers, stopAt, d, p);
    }
  }

  // --- In which mode -------------------------------------------------------------

  /** What is left to parse from `at` on is at most `confirmations`, or one block. */
  predicate NearTip(cfg: Config, node: Node, at: Cursor) {
    |node.chain| - 1 - cfg.confirmations - at.height <= (if cfg.confirmations == 0 then 1 else cfg.confirmations)
  }

  /** The prefetcher gets the heights that are at least `maxReorgDepth` below the
      tip and not beyond the target, far from the tip, if there are more of them
      than four for each of several workers. */
  lemma PrefetchedHeights(cfg: Config, node: Node, workers: nat, at: Cursor, h: nat)
    requires h > at.height
    ensures var Fits := (k: int) => k + cfg.maxReorgDepth <= |node.chain| - 1 && Deep(cfg, node, k);
            h <= ParallelEnd(cfg, node, workers, at, Latest(cfg, node)) <==>
              workers > 1 && !NearTip(cfg, node, at) && Fits(h) && Fits(at.height + 4 * workers + 1)
  {
  }

  /** How many blocks one write may have, and how many may wait for a checkpoint. */
  function Limit(cfg: Config, near: bool): nat {
    if near then 1 else cfg.batchSize
  }

  function Waiting(cfg: Config, near: bool, processed: nat): nat {
    if near then 0 else processed % cfg.batchSize
  }

  /** The rows of at most `limit` blocks of the chain above height `from`. */
  ghost predicate RowsOfFew(limit: nat, chain: seq<Block>, from: int, k: Kind, rows: seq<Row>) {
    exists batch :: |batch| <= limit && FewBlocks(chain, from, batch) && rows == RowsFor(batch, k)
  }

  ghost predicate FewBlocks(chain: seq<Block>, from: int, batch: seq<Staged>) {
    forall i :: 0 <= i < |batch| ==> batch[i].block in chain && batch[i].block.height > from
  }

  /** Near the tip a write is a part of its own for each block, published at once;
      otherwise it is appended to the open part, a batch at a time. */
  ghost predicate InMode(cfg: Config, near: bool, chain: seq<Block>, from: int, a: Action) {
    match a
    case OnPart(k, Append(_, rows)) => !near && RowsOfFew(Limit(cfg, near), chain, from, k, rows)
    case OnPart(k, Publish(_, rows)) => near && RowsOfFew(Limit(cfg, near), chain, from, k, rows)
    case _ => true
  }

  ghost predicate AllInMode(cfg: Config, near: bool, chain: seq<Block>, from: int, acts: seq<Action>) {
    forall i :: 0 <= i < |acts| ==> InMode(cfg, near, chain, from, acts[i])
  }

  lemma WritesInMode(cfg: PF.PartConfig, f: PF.Files, m: PF.Counter, mode: PF.Mode, rows: seq<Row>)
    ensures forall a :: a in PF.WriteActions(cfg, f, m, mode, rows) ==>
              && (a.Append? ==> mode.Batched? && a.rows == rows)
              && (a.Publish? ==> mode.Atomic? && a.rows == rows)
  {
  }

  lemma DrainInMode(cfg: Config, mode: PF.Mode, chain: seq<Block>, from: int, d: DiskState, batch: seq<Staged>)
    requires FewBlocks(chain, from, batch) && |batch| <= Limit(cfg, mode.Atomic?)
    ensures AllInMode(cfg, mode.Atomic?, chain, from, Drain(cfg, mode, d, batch))
  {
    hide RowsFor, PF.WriteActions;
    var Inv := (ks: seq<Kind>, acts: seq<Action>) => AllInMode(cfg, mode.Atomic?, chain, from, acts);
    forall i, acts | 0 <= i < |KINDS| && Inv(KINDS[..i], acts)
      ensures Inv(KINDS[..i + 1], acts + DrainActs(cfg, mode, d, batch, KINDS[i]))
    {
      var f := d.parts.At(KINDS[i]);
      WritesInMode(cfg.parts, f, PF.Load(f), mode, RowsFor(batch, KINDS[i]));
      assert RowsOfFew(Limit(cfg, mode.Atomic?), chain, from, KINDS[i], RowsFor(batch, KINDS[i]));
    }
    DrainInduction(cfg, mode, d, batch, KINDS, Inv);
  }

  /** After so many blocks from `from` on: the position on disk is behind by those
      that wait for the next checkpoint, or as it was if there was none yet. */
  ghost predicate SavedBehind(chain: seq<Block>, before: Option<Pointer>, from: int, at: Cursor, waiting: nat,
                              current: Option<Pointer>)
    requires -1 <= from <= at.height < |chain|
  {
    if at.height - from <= waiting then current == before
    else current == Some(Pointer(at.height - waiting, chain[at.height - waiting].hash))
  }

  ghost predicate PacedWalk(cfg: Config, near: bool, chain: seq<Block>, before: Option<Pointer>, from: Cursor,
                            w: Walk) {
    && AllInMode(cfg, near, chain, from.height, w.acts) && FewBlocks(chain, from.height, w.batch)
    && from.height <= w.at.height < |chain| && w.processed == w.at.height - from.height
    && |w.batch| <= Waiting(cfg, near, w.processed) <= w.processed
    && SavedBehind(chain, before, from.height, w.at, Waiting(cfg, near, w.processed), w.d.current)
    && (w.at.height > from.height ==> w.at.hash == Some(chain[w.at.height].hash))
  }

  lemma CheckpointInMode(cfg: Config, mode: PF.Mode, chain: seq<Block>, from: int, w: Walk)
    requires AllInMode(cfg, mode.Atomic?, chain, from, w.acts) && FewBlocks(chain, from, w.batch)
    requires |w.batch| <= Limit(cfg, mode.Atomic?)
    ensures var c := Checkpoint(cfg, mode, w);
            && AllInMode(cfg, mode.Atomic?, chain, from, c.acts) && c.batch == [] && c.at == w.at
            && c.d.current == PointerAfter(w.d, w.at)
  {
    hide DoAll, Drain, RowsOfFew, FewBlocks, Limit;
    DrainInMode(cfg, mode, chain, from, w.d, w.batch);
    CheckpointFacts(cfg, mode, w);
  }

  lemma OneMoreWaits(cfg: Config, near: bool, n: nat)
    ensures var now, next := Waiting(cfg, near, n), Waiting(cfg, near, n + 1);
            && now + 1 <= Limit(cfg, near) && next <= n + 1
            && (next == 0 || next == now + 1)
            && (next == 0 <==> near || (n + 1) % cfg.batchSize == 0)
  {
    if !near {
      Arithmetic.NextMod(n, cfg.batchSize);
    }
  }

  lemma StepIsPaced(cfg: Config, mode: PF.Mode, chain: seq<Block>, before: Option<Pointer>, from: Cursor, w: Walk)
    requires PacedWalk(cfg, mode.Atomic?, chain, before, from, w) && w.at.height + 1 < |chain|
    requires chain[w.at.height + 1].height == w.at.height + 1
    ensures var v := VisitAndCheckpoint(cfg, mode, w, chain[w.at.height + 1]);
            PacedWalk(cfg, mode.Atomic?, chain, before, from, v) && v.at.height == w.at.height + 1
  {
    hide AllInMode, Limit, Waiting, Checkpoint, NeedsExport, LoadIndex, SetCanonicalIfPresent;
    OneMoreWaits(cfg, mode.Atomic?, w.processed);
    var v := Visit(w, chain[w.at.height + 1]);
    if CheckpointDue(cfg, mode, v.processed) {
      CheckpointInMode(cfg, mode, chain, from.height, v);
      CheckpointKeepsCount(cfg, mode, v);
    }
  }

  lemma CheckpointKeepsCount(cfg: Config, mode: PF.Mode, w: Walk)
    ensures Checkpoint(cfg, mode, w).processed == w.processed
  {
  }

  lemma LoopIsPaced(cfg: Config, mode: PF.Mode, chain: seq<Block>, before: Option<Pointer>, w: Walk, n: nat)
    requires PacedWalk(cfg, mode.Atomic?, chain, before, w.at, w) && w.at.height + 1 + n <= |chain|
    requires forall i :: 0 <= i < |chain| ==> chain[i].height == i
    ensures PacedWalk(cfg, mode.Atomic?, chain, before, w.at,
                      VisitAll(cfg, mode, w, chain[w.at.height + 1..w.at.height + 1 + n]))
  {
    hide PacedWalk, Visit, Checkpoint;
    var step := (v, b) => VisitAndCheckpoint(cfg, mode, v, b);
    var Inv := v => PacedWalk(cfg, mode.Atomic?, chain, before, w.at, v);
    forall v: Walk, b: Block {:trigger step(v, b)}
      | Inv(v) && w.at.height <= v.at.height && v.at.height + 1 < |chain| && b == chain[v.at.height + 1]
      ensures Inv(step(v, b)) && step(v, b).at.height == v.at.height + 1
    {
      PacedInRange(cfg, mode, chain, before, w.at, v);
      StepIsPaced(cfg, mode, chain, before, w.at, v);
    }
    FoldInduction(step, chain, w, n, Inv);
  }

  lemma PacedInRange(cfg: Config, mode: PF.Mode, chain: seq<Block>, before: Option<Pointer>, from: Cursor, w: Walk)
    requires PacedWalk(cfg, mode.Atomic?, chain, before, from, w)
    ensures from.height <= w.at.height < |chain|
  {
  }

  /** What a loop that starts at `from` does, and leaves undone if it is cut short
      by the node. */
  ghost predicate PacedResult(cfg: Config, node: Node, d: DiskState, from: Cursor, r: PassResult) {
    var near := NearTip(cfg, node, from);
    && AllInMode(cfg, near, node.chain, from.height, r.acts)
    && from.height <= r.reached.height < |node.chain|
    && (r.outcome.Aborted? ==>
          SavedBehind(node.chain, d.current, from.height, r.reached, Waiting(cfg, near, r.reached.height - from.height),
                      DoAll(d, r.acts).current))
  }

  lemma StartIsPaced(cfg: Config, node: Node, d: DiskState, p: Prep, near: bool)
    requires p.Ready? && -1 <= p.at.height < |node.chain|
    requires AllInMode(cfg, near, node.chain, p.at.height, p.acts) && DoAll(d, p.acts).current == d.current
    ensures PacedWalk(cfg, near, node.chain, d.current, p.at, StartWalk(node, d, p))
  {
    hide AllInMode, DoAll;
    assert cfg.batchSize > 0 && 0 % cfg.batchSize == 0;
  }

  lemma FinishIsPaced(cfg: Config, node: Node, d: DiskState, from: Cursor, w: Walk, ending: Ending, latest: int,
                      mode: PF.Mode)
    requires mode.Atomic? == NearTip(cfg, node, from) && w.d == DoAll(d, w.acts)
    requires PacedWalk(cfg, mode.Atomic?, node.chain, d.current, from, w)
    ensures PacedResult(cfg, node, d, from, FinishWalk(cfg, mode, w, ending, latest))
  {
    hide AllInMode, DoAll, Checkpoint, NearTip, RowsOfFew, FewBlocks;
    if !ending.Failed? {
      WaitingFits(cfg, mode.Atomic?, w.processed);
      CheckpointInMode(cfg, mode, node.chain, from.height, w);
    }
  }

  lemma WaitingFits(cfg: Config, near: bool, n: nat)
    ensures Waiting(cfg, near, n) <= Limit(cfg, near)
  {
  }

  lemma ModeIs(cfg: Config, node: Node, at: Cursor)
    ensures ModeFor(cfg, at, Latest(cfg, node)).Atomic? <==> NearTip(cfg, node, at)
  {
  }

  lemma RunLoopIsPaced(t: Tree, cfg: Config, node: Node, workers: nat, stopAt: nat, d: DiskState, p: Prep)
    requires Stable(t, node) && p.Ready? && -1 <= p.at.height < |node.chain|
    requires AllInMode(cfg, NearTip(cfg, node, p.at), node.chain, p.at.height, p.acts)
    requires DoAll(d, p.acts).current == d.current
    ensures PacedResult(cfg, node, d, p.at, RunLoop(cfg, node, workers, stopAt, d, p))
  {
    hide VisitAll, FinishWalk, VisitsFrom, ParallelEnd, ModeFor, DoAll, PacedResult, PacedWalk, AllInMode, NearTip,
      Latest;
    var latest := Latest(cfg, node);
    var end := ParallelEnd(cfg, node, workers, p.at, latest);
    var v := VisitsFrom(node, stopAt, end, latest, p.at.height + 1, p.at.hash);
    LatestIsBelow(cfg, node);
    VisitsAreChain(t, node, stopAt, end, latest, p.at.height + 1, p.at.hash);
    var mode, w := ModeFor(cfg, p.at, latest), StartWalk(node, d, p);
    ModeIs(cfg, node, p.at);
    StartIsPaced(cfg, node, d, p, mode.Atomic?);
    LoopIsPaced(cfg, mode, node.chain, d.current, w, |v.blocks|);
    EO.LoopTracksDisk(cfg, mode, node.chain, d, w, |v.blocks|);
    FinishIsPaced(cfg, node, d, p.at, VisitAll(cfg, mode, w, v.blocks), v.ending, latest, mode);
  }

  lemma LatestIsBelow(cfg: Config, node: Node)
    ensures Latest(cfg, node) < |node.chain|
  {
  }

  lemma NothingWritten(cfg: Config, near: bool, chain: seq<Block>, from: int, acts: seq<Action>)
    requires NoParts(acts)
    ensures AllInMode(cfg, near, chain, from, acts)
  {
  }

  /** A pass that gets to its loop: near the tip each write publishes the rows of
      one block as a part of its own; otherwise each appends those of at most
      `batchSize` blocks.  If a fetch then fails, the position on disk is behind
      the last block by none near the tip, and otherwise by the blocks since the
      last full batch.  A pass that halts before its loop writes no rows. */
  lemma PassIsPaced(t: Tree, cfg: Config, node: Node, workers: nat, stopAt: nat, picks: Picks, d: DiskState,
                    flags: Flags)
    requires WellFormedTree(t) && Stable(t, node) && Sound(t, d) && ValidPicks(picks, d)
    ensures var r := RunPass(cfg, node, workers, stopAt, picks, d, flags);
            if Prepare(cfg, node, picks, d, flags).Ready?
            then PacedResult(cfg, node, d, Rewind(Position(cfg, node, picks, d, flags), picks.stale), r)
            else forall i :: 0 <= i < |r.acts| ==> !r.acts[i].OnPart?
  {
    hide RunLoop, Prepare, Position, Sound, ValidPicks, IndexClosed, IsEarliestStale, OnChain, Rewind, PacedResult,
      DoAll,
      NearTip, AllInMode;
    var p := Prepare(cfg, node, picks, d, flags);
    PreparedPosition(t, cfg, node, picks, d, flags);
    PrepareHasNoParts(cfg, node, picks, d, flags);
    PrepareKeepsPosition(cfg, node, picks, d, flags);
    if p.Ready? {
      NothingWritten(cfg, NearTip(cfg, node, p.at), node.chain, p.at.height, p.acts);
      RunLoopIsPaced(t, cfg, node, workers, stopAt, d, p);
    }
  }
}
