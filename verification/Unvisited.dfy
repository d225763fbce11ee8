/** A block that no pass visits keeps its index row, and stays non-canonical if
    it is flagged so: whatever else the passes do, and wherever they are
    killed. */
module Unvisited {
  import opened Basics
  import opened Chain
  import opened IndexFile
  import opened DiskModel
  import opened Pass
  import opened PassFacts
  import opened CrashSafety
  import opened Runs
  import Rec = Recovery
  import PF = PartFiles

  /** The blocks the loop of a pass visits. */
  ghost function VisitedIn(cfg: Config, p: Process, e: PassEvent): seq<Block> {
    match Prepare(cfg, e.node, e.picks, p.d, p.flags)
    case Halt(_, _, _, _) => []
    case Ready(acts, flags, at) =>
      var latest := Latest(cfg, e.node);
      VisitsFrom(e.node, e.stopAt, ParallelEnd(cfg, e.node, e.workers, at, latest), latest, at.height + 1,
                 at.hash).blocks
  }

  ghost predicate Without(blocks: seq<Block>, x: Hash) {
    forall i :: 0 <= i < |blocks| ==> blocks[i].hash != x
  }

  /** No pass of the run visits block `x`. */
  ghost predicate NeverVisited(t: Tree, cfg: Config, p: Process, events: seq<PassEvent>, x: Hash)
    requires ValidRun(t, cfg, p, events)
    decreases |events|
  {
    events == [] ||
    (Without(VisitedIn(cfg, p, events[0]), x) && NeverVisited(t, cfg, Step(t, cfg, p, events[0]), events[1..], x))
  }

  /** A block with its height, and whether it is flagged non-canonical. */
  datatype Subject = Subject(height: nat, hash: Hash, flagged: bool)

  ghost predicate FlagKept(s: Subject, status: Status) {
    s.flagged ==> !Canonical(status, s.height, s.hash)
  }

  /** The action has no index row for the block and does not clear its flag. */
  ghost predicate Spares(s: Subject, a: Action) {
    match a
    case IndexAppend(rows) => forall i :: 0 <= i < |rows| ==> rows[i].hash != s.hash
    case StatusReplace(status) => FlagKept(s, status)
    case _ => true
  }

  ghost predicate AllSpare(s: Subject, acts: seq<Action>) {
    forall i :: 0 <= i < |acts| ==> Spares(s, acts[i])
  }

  lemma {:induction false} SparedStays(s: Subject, d: DiskState, acts: seq<Action>)
    requires AllSpare(s, acts) && s.hash in LoadIndex(d.index) && FlagKept(s, d.status)
    ensures var e := DoAll(d, acts);
            && s.hash in LoadIndex(e.index) && LoadIndex(e.index)[s.hash] == LoadIndex(d.index)[s.hash]
            && FlagKept(s, e.status)
    decreases |acts|
  {
    if acts != [] {
      var n := |acts| - 1;
      SparedStays(s, d, acts[..n]);
      assert Spares(s, acts[n]);
      if acts[n].IndexAppend? {
        LoadIndexAppend(DoAll(d, acts[..n]).index, acts[n].rows);
        LoadIndexKeys(acts[n].rows);
      }
    }
  }

  // --- Before the loop -----------------------------------------------------

  lemma SeedingSpares(t: Tree, s: Subject, d: DiskState, top: Row)
    requires Sound(t, d) && s.hash in LoadIndex(d.index)
    ensures AllSpare(s, Locate(d, top).acts)
  {
    var rows, idx := FoundRows(d.parts.blocks), LoadIndex(d.index);
    if d.current.None? && rows != [] {
      var pending := SeedPending(idx, [], rows);
      assert Versioned(idx);
      SeedStages(idx, [], rows, rows);
      forall i | 0 <= i < |pending|
        ensures pending[i].hash != s.hash
      {
        assert pending[i] in pending;
      }
    }
  }

  lemma ReconcileSpares(s: Subject, cfg: Config, node: Node, byHash: ByHash, flags: Flags, pointer: Option<Pointer>)
    requires FlagKept(s, flags.entries)
    ensures var p := Reconcile(cfg, node, byHash, flags, pointer);
            AllSpare(s, p.acts) && FlagKept(s, p.flags.entries)
  {
    hide WalkBackFrom, FlagDetached, Canonical;
    if pointer.Some? && HashAt(node, CurrentHash, pointer.value.height).Some? {
      var walk := WalkBackFrom(byHash, node, cfg.maxReorgDepth, pointer.value, []);
      if walk.Ancestor? {
        Rec.FlagDetachedIsExact(flags, walk.detached);
      }
    }
  }

  lemma PrepareSpares(t: Tree, s: Subject, cfg: Config, node: Node, picks: Picks, d: DiskState, flags: Flags)
    requires Sound(t, d) && s.hash in LoadIndex(d.index) && FlagKept(s, flags.entries)
    ensures var p := Prepare(cfg, node, picks, d, flags);
            AllSpare(s, p.acts) && FlagKept(s, p.flags.entries)
  {
    hide Reconcile, Locate, Sound, FlagKept, DoAll;
    SeedingSpares(t, s, d, picks.top);
    var found := Locate(d, picks.top);
    var latest := Latest(cfg, node);
    if node.ok(BlockCount) && latest >= 0 && node.ok(LatestHash) {
      var begun := [LatestReplace(Pointer(latest, node.chain[latest].hash))] + found.acts;
      var byHash := LoadIndex(DoAll(d, begun).index);
      ReconcileSpares(s, cfg, node, byHash, flags, found.pointer);
    }
  }

  // --- The loop ------------------------------------------------------------

  ghost predicate SparingWalk(s: Subject, w: Walk) {
    && AllSpare(s, w.acts)
    && FlagKept(s, w.flags.entries)
    && forall i :: 0 <= i < |w.batch| ==> w.batch[i].block.hash != s.hash
  }

  lemma DrainSpares(s: Subject, cfg: Config, mode: PF.Mode, d: DiskState, batch: seq<Staged>)
    ensures AllSpare(s, Drain(cfg, mode, d, batch))
  {
    DrainInduction(cfg, mode, d, batch, KINDS, (ks, acts) => AllSpare(s, acts));
  }

  lemma CheckpointSpares(s: Subject, cfg: Config, mode: PF.Mode, w: Walk)
    requires SparingWalk(s, w)
    ensures SparingWalk(s, Checkpoint(cfg, mode, w))
  {
    hide DoAll, Drain, FlagKept;
    DrainSpares(s, cfg, mode, w.d, w.batch);
  }

  lemma VisitSpares(s: Subject, w: Walk, b: Block)
    requires SparingWalk(s, w) && b.hash != s.hash
    ensures SparingWalk(s, Visit(w, b))
  {
  }

  lemma LoopSpares(s: Subject, cfg: Config, mode: PF.Mode, chain: seq<Block>, w: Walk, n: nat)
    requires SparingWalk(s, w) && w.at.height + 1 + n <= |chain|
    requires forall i :: 0 <= i < |chain| ==> chain[i].height == i
    requires Without(chain[w.at.height + 1..w.at.height + 1 + n], s.hash)
    ensures SparingWalk(s, VisitAll(cfg, mode, w, chain[w.at.height + 1..w.at.height + 1 + n]))
  {
    hide SparingWalk, Visit, Checkpoint;
    var from := w.at.height + 1;
    var upTo := chain[..from + n];
    var step := (v, b) => VisitAndCheckpoint(cfg, mode, v, b);
    var Inv := v => SparingWalk(s, v);
    forall v: Walk, b: Block {:trigger step(v, b)}
      | Inv(v) && w.at.height <= v.at.height && v.at.height + 1 < |upTo| && b == upTo[v.at.height + 1]
      ensures Inv(step(v, b)) && step(v, b).at.height == v.at.height + 1
    {
      assert b == chain[from..from + n][v.at.height + 1 - from] && b.height == v.at.height + 1;
      StepSpares(s, cfg, mode, v, b);
    }
    FoldInduction(step, upTo, w, n, Inv);
    assert upTo[from..from + n] == chain[from..from + n];
  }

  lemma StepSpares(s: Subject, cfg: Config, mode: PF.Mode, w: Walk, b: Block)
    requires SparingWalk(s, w) && b.hash != s.hash
    ensures var v := VisitAndCheckpoint(cfg, mode, w, b);
            SparingWalk(s, v) && v.at.height == b.height
  {
    hide SparingWalk, CheckpointActs;
    VisitSpares(s, w, b);
    if CheckpointDue(cfg, mode, w.processed + 1) {
      CheckpointSpares(s, cfg, mode, Visit(w, b));
    }
  }

  ghost predicate SparingResult(s: Subject, r: PassResult) {
    AllSpare(s, r.acts) && FlagKept(s, r.flags.entries)
  }

  lemma FinishSpares(s: Subject, cfg: Config, mode: PF.Mode, w: Walk, ending: Ending, latest: int)
    requires SparingWalk(s, w)
    ensures SparingResult(s, FinishWalk(cfg, mode, w, ending, latest))
  {
    hide CheckpointActs;
    CheckpointSpares(s, cfg, mode, w);
  }

  lemma RunLoopSpares(t: Tree, s: Subject, cfg: Config, node: Node, workers: nat, stopAt: nat, d: DiskState, p: Prep)
    requires Stable(t, node) && p.Ready? && p.at.height < |node.chain| && AllSpare(s, p.acts)
    requires FlagKept(s, p.flags.entries)
    requires var latest := Latest(cfg, node);
             Without(VisitsFrom(node, stopAt, ParallelEnd(cfg, node, workers, p.at, latest), latest, p.at.height + 1,
                                p.at.hash).blocks, s.hash)
    ensures SparingResult(s, RunLoop(cfg, node, workers, stopAt, d, p))
  {
    hide VisitAll, FinishWalk, VisitsFrom, ParallelEnd, ModeFor, FlagKept, DoAll;
    var latest := Latest(cfg, node);
    var end := ParallelEnd(cfg, node, workers, p.at, latest);
    var v := VisitsFrom(node, stopAt, end, latest, p.at.height + 1, p.at.hash);
    VisitsAreChain(t, node, stopAt, end, latest, p.at.height + 1, p.at.hash);
    var mode, w := ModeFor(cfg, p.at, latest), StartWalk(node, d, p);
    LoopSpares(s, cfg, mode, node.chain, w, |v.blocks|);
    FinishSpares(s, cfg, mode, VisitAll(cfg, mode, w, v.blocks), v.ending, latest);
  }

  // --- Runs ----------------------------------------------------------------

  lemma PassSpares(t: Tree, s: Subject, cfg: Config, p: Process, e: PassEvent)
    requires WellFormedTree(t) && Stable(t, e.node) && Sound(t, p.d) && ValidPicks(e.picks, p.d)
    requires s.hash in LoadIndex(p.d.index) && FlagKept(s, p.flags.entries) && Without(VisitedIn(cfg, p, e), s.hash)
    ensures SparingResult(s, Result(cfg, p, e))
  {
    hide Prepare, RunLoop, Sound, FlagKept, VisitsFrom, Stable, ValidPicks;
    PrepareSpares(t, s, cfg, e.node, e.picks, p.d, p.flags);
    ReadyIsOnChain(t, cfg, e.node, e.picks, p.d, p.flags);
    var prep := Prepare(cfg, e.node, e.picks, p.d, p.flags);
    if prep.Ready? {
      RunLoopSpares(t, s, cfg, e.node, e.workers, e.stopAt, p.d, prep);
    }
  }

  lemma ReducedStays(e: DiskState, d: DiskState)
    requires DiskReduced(e, d)
    ensures e.index == d.index && e.status == d.status
  {
  }

  /** What the process knows of the block. */
  ghost predicate Keeps(s: Subject, row: IndexRow, p: Process) {
    && s.hash in LoadIndex(p.d.index) && LoadIndex(p.d.index)[s.hash] == row
    && FlagKept(s, p.d.status) && FlagKept(s, p.flags.entries)
  }

  lemma StepKeeps(t: Tree, s: Subject, row: IndexRow, cfg: Config, p: Process, e: PassEvent)
    requires WellFormedTree(t) && Sound(t, p.d) && ValidEvent(t, cfg, p, e)
    requires Keeps(s, row, p) && Without(VisitedIn(cfg, p, e), s.hash)
    ensures Keeps(s, row, Step(t, cfg, p, e))
  {
    hide RunPass, Sound, FlagKept, VisitedIn, DoWoven, DiskReduced, LoadIndex;
    PassSpares(t, s, cfg, p, e);
    var acts := Performed(cfg, p, e);
    SparedStays(s, p.d, acts);
    WovenReduces(p.d, acts, e.eats);
    ReducedStays(DoWoven(p.d, acts, e.eats), DoAll(p.d, acts));
  }

  lemma {:induction false} RunKeeps(t: Tree, s: Subject, row: IndexRow, cfg: Config, p: Process, events: seq<PassEvent>)
    requires WellFormedTree(t) && Sound(t, p.d) && ValidRun(t, cfg, p, events)
    requires Keeps(s, row, p) && NeverVisited(t, cfg, p, events, s.hash)
    ensures Keeps(s, row, Run(t, cfg, p, events))
    decreases |events|
  {
    hide Sound, Step, ValidEvent, Keeps, VisitedIn, Without;
    if events != [] {
      StepKeeps(t, s, row, cfg, p, events[0]);
      StepKeepsSound(t, cfg, p, events[0]);
      RunKeeps(t, s, row, cfg, Step(t, cfg, p, events[0]), events[1..]);
    }
  }

  /** Over every run, with kills, restarts, aborts and reorgs, none of whose
      passes visits block `x`: its index row stays as it is, so a stale one
      stays stale, and if its flag is non-canonical in memory and on disk, it
      stays so in both. */
  lemma UnvisitedStays(t: Tree, cfg: Config, p: Process, events: seq<PassEvent>, h: nat, x: Hash)
    requires WellFormedTree(t) && Sound(t, p.d) && ValidRun(t, cfg, p, events)
    requires x in LoadIndex(p.d.index) && NeverVisited(t, cfg, p, events, x)
    ensures var q := Run(t, cfg, p, events);
            && x in LoadIndex(q.d.index) && LoadIndex(q.d.index)[x] == LoadIndex(p.d.index)[x]
            && (!Canonical(p.d.status, h, x) && !Canonical(p.flags.entries, h, x) ==>
                  !Canonical(q.d.status, h, x) && !Canonical(q.flags.entries, h, x))
  {
    hide Run, NeverVisited, Sound;
    var s := Subject(h, x, !Canonical(p.d.status, h, x) && !Canonical(p.flags.entries, h, x));
    RunKeeps(t, s, LoadIndex(p.d.index)[x], cfg, p, events);
  }
}
