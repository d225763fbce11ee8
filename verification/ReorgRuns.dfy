/** Reorg recovery over whole runs: exactly when a pass stops for manual
    intervention, and where it continues otherwise. */
module ReorgRuns {
  import opened Basics
  import opened Chain
  import opened IndexFile
  import opened DiskModel
  import opened Pass
  import opened PassFacts
  import opened CrashSafety
  import opened Recovery
  import opened Runs
  import opened Progress
  import EO = ExactlyOnce
  import PF = PartFiles

  /** The `n`-th ancestor of `x` is the highest one on the chain, and `x` is not
      on it. */
  ghost predicate ForkAt(t: Tree, chain: seq<Block>, x: Hash, n: nat)
    requires WellFormedTree(t) && x in t && t[x].height < |chain|
  {
    && 1 <= n <= t[x].height
    && AncestorAt(t, x, n) == chain[t[x].height - n].hash
    && forall m :: 0 < m < n ==> AncestorAt(t, x, m) != chain[t[x].height - m].hash
  }

  ghost predicate ForkInDepth(t: Tree, chain: seq<Block>, x: Hash, depth: nat)
    requires WellFormedTree(t) && x in t && t[x].height < |chain|
  {
    exists n: nat :: ForkAt(t, chain, x, n) && n <= depth
  }

  lemma {:induction false} AncestorsIndexed(t: Tree, idx: ByHash, x: Hash, n: nat)
    requires WellFormedTree(t) && IndexClosed(t, idx) && x in idx && x in t && n <= t[x].height
    ensures AncestorAt(t, x, n) in idx
    decreases n
  {
    hide WellFormedTree, IndexClosed;
    Parent(t, x);
    if n > 0 {
      ParentIndexed(t, idx, x);
      AncestorsIndexed(t, idx, t[x].prev, n - 1);
    }
  }

  lemma ParentIndexed(t: Tree, idx: ByHash, x: Hash)
    requires WellFormedTree(t) && IndexClosed(t, idx) && x in idx && x in t && t[x].height > 0
    ensures t[x].prev in idx
  {
  }

  /** Over a closed index being indexed is no condition. */
  lemma ForksAgree(t: Tree, idx: ByHash, chain: seq<Block>, x: Hash, n: nat)
    requires WellFormedTree(t) && IndexClosed(t, idx) && x in idx && x in t && t[x].height < |chain|
    ensures ForkAfter(t, idx, chain, x, n) <==> ForkAt(t, chain, x, n)
  {
    if ForkAt(t, chain, x, n) {
      forall m | 0 <= m < n
        ensures AncestorAt(t, x, m) in idx
      {
        AncestorsIndexed(t, idx, x, m);
      }
    }
  }

  /** The node answers what a pass asks up to the end of the walk back. */
  ghost predicate AnswersWalk(node: Node) {
    node.ok(CurrentHash) && WalkAnswered(node)
  }

  lemma WalkBackIff(t: Tree, idx: ByHash, node: Node, depth: nat, at: Pointer)
    requires WellFormedTree(t) && IndexClosed(t, idx) && WalkAnswered(node)
    requires at.hash in idx && at.hash in t && t[at.hash].height == at.height < |node.chain|
    ensures var r := WalkBackFrom(idx, node, depth, at, []);
            && (r.Ancestor? <==> ForkInDepth(t, node.chain, at.hash, depth))
            && !r.NoAnswer?
            && (r.Ancestor? ==>
                  var n := |r.detached|;
                  ForkAt(t, node.chain, at.hash, n) && r.at == Pointer(at.height - n, AncestorAt(t, at.hash, n)))
  {
    hide ForkAt, ForkAfter;
    WalkBackIsExact(t, idx, node, depth, at, []);
    WalkBackDetaches(t, idx, node, depth, at, []);
    WalkIsAnswered(t, idx, node, depth, at, []);
    forall n: nat
      ensures ForkAfter(t, idx, node.chain, at.hash, n) <==> ForkAt(t, node.chain, at.hash, n)
    {
      ForksAgree(t, idx, node.chain, at.hash, n);
    }
    var r := WalkBackFrom(idx, node, depth, at, []);
    if r.Ancestor? {
      assert r.detached[0..] == r.detached;
    }
  }

  lemma {:induction false} WalkIsAnswered(t: Tree, idx: ByHash, node: Node, depth: nat, at: Pointer, seen: seq<Pointer>)
    requires WalkAnswered(node) && at.height < |node.chain|
    ensures !WalkBackFrom(idx, node, depth, at, seen).NoAnswer?
    decreases at.height
  {
    if |seen + [at]| <= depth && at.hash in idx && at.height > 0 {
      WalkIsAnswered(t, idx, node, depth, Pointer(at.height - 1, idx[at.hash].prev), seen + [at]);
    }
  }

  /** The position is on disk or seeded, the node still has that height, and has
      another block there. */
  ghost predicate OffChain(chain: seq<Block>, found: Option<Pointer>) {
    found.Some? && found.value.height < |chain| && chain[found.value.height].hash != found.value.hash
  }

  lemma ReconcileIff(t: Tree, cfg: Config, node: Node, idx: ByHash, flags: Flags, found: Option<Pointer>)
    requires WellFormedTree(t) && IndexClosed(t, idx) && PointerIndexed(t, idx, found) && AnswersWalk(node)
    ensures var p := Reconcile(cfg, node, idx, flags, found);
            if !OffChain(node.chain, found) then !(p.Halt? && p.outcome.Fatal?)
            else
              && (p.Halt? && p.outcome.Fatal? <==> !ForkInDepth(t, node.chain, found.value.hash, cfg.maxReorgDepth))
              && (p.Ready? ==> AtFork(t, node.chain, found.value, cfg.maxReorgDepth, p.at))
  {
    hide WalkBackFrom, ForkInDepth, ForkAt, IndexClosed;
    if OffChain(node.chain, found) {
      WalkBackIff(t, idx, node, cfg.maxReorgDepth, found.value);
      var r := WalkBackFrom(idx, node, cfg.maxReorgDepth, found.value, []);
      if r.Ancestor? {
        DetachedWithin(idx, node, cfg.maxReorgDepth, found.value, []);
      }
    }
  }

  lemma {:induction false} DetachedWithin(idx: ByHash, node: Node, depth: nat, at: Pointer, seen: seq<Pointer>)
    ensures var r := WalkBackFrom(idx, node, depth, at, seen); r.Ancestor? ==> |r.detached| <= depth
    decreases at.height
  {
    if |seen + [at]| <= depth && at.hash in idx && at.height > 0 {
      DetachedWithin(idx, node, depth, Pointer(at.height - 1, idx[at.hash].prev), seen + [at]);
    }
  }

  /** `at` is the highest ancestor of the pointer on the chain, at most `depth`
      blocks below it. */
  ghost predicate AtFork(t: Tree, chain: seq<Block>, found: Pointer, depth: nat, at: Cursor)
    requires WellFormedTree(t) && found.hash in t && t[found.hash].height < |chain|
  {
    exists n: nat :: n <= depth && ForkAt(t, chain, found.hash, n)
                     && at == Cursor(t[found.hash].height - n, Some(AncestorAt(t, found.hash, n)))
  }

  lemma FatalInRecovery(cfg: Config, node: Node, workers: nat, stopAt: nat, picks: Picks, d: DiskState, flags: Flags,
                        p: Prep)
    requires Begun(cfg, node)
    requires var found, tip := Locate(d, picks.top), Pointer(Latest(cfg, node), node.chain[Latest(cfg, node)].hash);
             var idx := LoadIndex(DoAll(d, [LatestReplace(tip)] + found.acts).index);
             p == Reconcile(cfg, node, idx, flags, found.pointer)
    ensures RunPass(cfg, node, workers, stopAt, picks, d, flags).outcome.Fatal? <==> p.Halt? && p.outcome.Fatal?
  {
    hide Reconcile, VisitAll, VisitsFrom, StartWalk, Checkpoint, LoadIndex, DoAll;
  }

  /** After any run from nothing, killed, reorganised and resumed as it may be: a
      pass whose node answers up to the end of the walk back stops for manual
      intervention if and only if the position it finds has left the active
      chain and no ancestor of it within the maximal depth is on that chain; if
      it gets past the recovery instead, it continues from the highest one. */
  lemma RecoveryIff(t: Tree, cfg: Config, events: seq<PassEvent>, e: PassEvent)
    requires WellFormedTree(t) && ValidRun(t, cfg, FRESH, events)
    requires ValidEvent(t, cfg, Run(t, cfg, FRESH, events), e) && Begun(cfg, e.node) && AnswersWalk(e.node)
    ensures var q := Run(t, cfg, FRESH, events);
            var found, chain := Locate(q.d, e.picks.top).pointer, e.node.chain;
            && (found.Some? ==> found.value.hash in t && t[found.value.hash].height == found.value.height)
            && (Result(cfg, q, e).outcome.Fatal? <==>
                  OffChain(chain, found) && !ForkInDepth(t, chain, found.value.hash, cfg.maxReorgDepth))
            && (OffChain(chain, found) && Reconciles(cfg, e.node, e.picks, q.d, q.flags) ==>
                  AtFork(t, chain, found.value, cfg.maxReorgDepth, Position(cfg, e.node, e.picks, q.d, q.flags)))
  {
    hide Run, ValidRun, Reconcile, ForkInDepth, AtFork, RunPass, LoadIndex, DoAll, IndexClosed, Sound;
    EmptyIsSound(t);
    RunKeepsSound(t, cfg, FRESH, events);
    var q := Run(t, cfg, FRESH, events);
    SeededIndex(t, cfg, e.node, e.picks, q.d);
    var found := Locate(q.d, e.picks.top);
    var idx := LoadIndex(DoAll(q.d, found.acts).index);
    ReconcileIff(t, cfg, e.node, idx, q.flags, found.pointer);
    FatalInRecovery(cfg, e.node, e.workers, e.stopAt, e.picks, q.d, q.flags,
                    Reconcile(cfg, e.node, idx, q.flags, found.pointer));
  }

  lemma SeededIndex(t: Tree, cfg: Config, node: Node, picks: Picks, d: DiskState)
    requires WellFormedTree(t) && Sound(t, d) && ValidPicks(picks, d) && Begun(cfg, node)
    ensures var found := Locate(d, picks.top);
            var idx := LoadIndex(DoAll(d, found.acts).index);
            var pointer := Pointer(Latest(cfg, node), node.chain[Latest(cfg, node)].hash);
            && IndexClosed(t, idx) && PointerIndexed(t, idx, found.pointer)
            && LoadIndex(DoAll(d, [LatestReplace(pointer)] + found.acts).index) == idx
  {
    LocateKeepsSound(t, d, picks.top);
    var pointer := Pointer(Latest(cfg, node), node.chain[Latest(cfg, node)].hash);
    BeginKeepsSound(t, d, pointer, picks.top);
  }

  // --- The audit log -------------------------------------------------------------

  /** The log of a recovery from `was` to the block at height `fork`: the detached
      blocks are the ancestors of the old position above the fork, the attached
      ones those of the chain at the same heights, both from the lowest up. */
  ghost predicate IsLogOf(t: Tree, chain: seq<Block>, was: Pointer, fork: int, log: ReorgLog)
    requires WellFormedTree(t) && was.hash in t && t[was.hash].height == was.height < |chain|
  {
    && 0 <= fork < was.height
    && log.lowest == fork + 1 && log.highest == was.height
    && |log.detached| == |log.attached| == was.height - fork
    && forall i :: 0 <= i < was.height - fork ==>
         var h := fork + 1 + i;
         && log.detached[i] == Pointer(h, AncestorAt(t, was.hash, was.height - h))
         && log.attached[i] == Pointer(h, chain[h].hash)
  }

  lemma {:induction false} ReversedAt<T>(xs: seq<T>)
    ensures |Reversed(xs)| == |xs| && forall i :: 0 <= i < |xs| ==> Reversed(xs)[i] == xs[|xs| - 1 - i]
    decreases |xs|
  {
    if xs != [] {
      ReversedAt(xs[1..]);
    }
  }

  lemma LogOfWalk(t: Tree, idx: ByHash, node: Node, was: Pointer, detached: seq<Pointer>, anc: Pointer)
    requires WellFormedTree(t) && was.hash in t && t[was.hash].height == was.height < |node.chain|
    requires Detaches(t, idx, node.chain, was, detached, anc)
    ensures var attached := AttachedRange(node, anc.height + 1, was.height);
            IsLogOf(t, node.chain, was, anc.height, ReorgLog(anc.height + 1, was.height, Reversed(detached), attached))
  {
    hide AncestorAt, WellFormedTree;
    ReversedAt(detached);
    var n := |detached|;
    forall i | 0 <= i < n
      ensures Reversed(detached)[i]
              == Pointer(anc.height + 1 + i, AncestorAt(t, was.hash, was.height - (anc.height + 1 + i)))
    {
      assert was.height - (n - 1 - i) == anc.height + 1 + i;
      assert detached[n - 1 - i] == Pointer(was.height - (n - 1 - i), AncestorAt(t, was.hash, n - 1 - i));
    }
  }

  /** A recovery writes one log, of what it found; without one there is none. */
  lemma ReconcileLogs(t: Tree, cfg: Config, node: Node, idx: ByHash, flags: Flags, found: Option<Pointer>, d: DiskState)
    requires WellFormedTree(t) && IndexClosed(t, idx) && PointerIndexed(t, idx, found)
    ensures var p := Reconcile(cfg, node, idx, flags, found);
            var logs := DoAll(d, p.acts).reorgs;
            if OffChain(node.chain, found) && p.Ready?
            then |logs| == |d.reorgs| + 1 && d.reorgs <= logs
                 && IsLogOf(t, node.chain, found.value, p.at.height, logs[|d.reorgs|])
            else logs == d.reorgs
  {
    hide WalkBackFrom, FlagDetached, IndexClosed, AncestorAt, DoAll, IsLogOf, WellFormedTree, Detaches, AttachedRange;
    var p := Reconcile(cfg, node, idx, flags, found);
    NoActs(d);
    if OffChain(node.chain, found) && p.Ready? {
      var r := WalkBackFrom(idx, node, cfg.maxReorgDepth, found.value, []);
      IndexedAgrees(t, idx);
      WalkBackDetaches(t, idx, node, cfg.maxReorgDepth, found.value, []);
      assert r.detached[0..] == r.detached;
      LogOfWalk(t, idx, node, found.value, r.detached, r.at);
      var flagged := FlagDetached(flags, r.detached);
      FlushFlagsDoes(d, flagged);
      var log := p.acts[|p.acts| - 1];
      assert p.acts == FlushFlags(flagged) + [log];
      DoAppend(d, FlushFlags(flagged), [log]);
      DoOne(DoAll(d, FlushFlags(flagged)), log);
    }
  }

  /** The log comes last, when the detached blocks are already flagged on disk. */
  lemma LogComesLast(t: Tree, cfg: Config, node: Node, idx: ByHash, flags: Flags, found: Option<Pointer>, d: DiskState)
    requires OffChain(node.chain, found) && (!flags.dirty ==> d.status == flags.entries)
    ensures var p := Reconcile(cfg, node, idx, flags, found);
            p.Ready? ==>
              && p.acts != [] && p.acts[|p.acts| - 1].ReorgLogWrite?
              && var log, e := p.acts[|p.acts| - 1].log, DoAll(d, p.acts[..|p.acts| - 1]);
                 && e.status == p.flags.entries && !p.flags.dirty
                 && forall i :: 0 <= i < |log.detached| ==>
                      !Canonical(e.status, log.detached[i].height, log.detached[i].hash)
  {
    hide WalkBackFrom, DoAll, Canonical, FlagDetached;
    var p := Reconcile(cfg, node, idx, flags, found);
    if p.Ready? {
      var r := WalkBackFrom(idx, node, cfg.maxReorgDepth, found.value, []);
      var flagged := FlagDetached(flags, r.detached);
      FlagDetachedIsExact(flags, r.detached);
      UndirtiedFlags(flags, r.detached);
      FlushFlagsDoes(d, flagged);
      assert p.acts[..|p.acts| - 1] == FlushFlags(flagged);
      ReversedAt(r.detached);
    }
  }

  lemma NoActs(d: DiskState)
    ensures DoAll(d, []) == d
  {
  }

  lemma IndexedAgrees(t: Tree, idx: ByHash)
    requires IndexClosed(t, idx)
    ensures IndexAgrees(t, idx)
  {
  }

  lemma {:induction false} NoLogsKeep(d: DiskState, acts: seq<Action>)
    requires forall i :: 0 <= i < |acts| ==> !acts[i].ReorgLogWrite?
    ensures DoAll(d, acts).reorgs == d.reorgs
    decreases |acts|
  {
    if acts != [] {
      NoLogsKeep(d, acts[..|acts| - 1]);
    }
  }

  /** Preparing writes what the recovery does, and no other log. */
  lemma PrepareLogs(cfg: Config, node: Node, picks: Picks, d: DiskState, flags: Flags)
    requires Begun(cfg, node)
    ensures var found, tip := Locate(d, picks.top), Pointer(Latest(cfg, node), node.chain[Latest(cfg, node)].hash);
            var e := DoAll(d, [LatestReplace(tip)] + found.acts);
            var p := Reconcile(cfg, node, LoadIndex(e.index), flags, found.pointer);
            && e.reorgs == d.reorgs
            && DoAll(d, Prepare(cfg, node, picks, d, flags).acts).reorgs == DoAll(e, p.acts).reorgs
  {
    hide Reconcile, LoadIndex, DoAll, FoundRows;
    var found, tip := Locate(d, picks.top), Pointer(Latest(cfg, node), node.chain[Latest(cfg, node)].hash);
    var begun := [LatestReplace(tip)] + found.acts;
    NoLogsKeep(d, begun);
    var e := DoAll(d, begun);
    var p := Reconcile(cfg, node, LoadIndex(e.index), flags, found.pointer);
    var q := if p.Halt? then p else Enter(cfg, node, picks.stale, p);
    var rest := q.acts[|p.acts|..];
    assert q.acts == p.acts + rest;
    NoLogsKeep(DoAll(e, p.acts), rest);
    DoAppend(e, p.acts, rest);
    DoAppend(d, begun, q.acts);
  }

  lemma LoopKeepsLogs(cfg: Config, mode: PF.Mode, chain: seq<Block>, w: Walk, n: nat)
    requires w.at.height + 1 + n <= |chain| && forall i :: 0 <= i < |chain| ==> chain[i].height == i
    ensures VisitAll(cfg, mode, w, chain[w.at.height + 1..w.at.height + 1 + n]).d.reorgs == w.d.reorgs
  {
    hide CheckpointActs, DoAll;
    var step := (v, b) => VisitAndCheckpoint(cfg, mode, v, b);
    var Inv := (v: Walk) => v.d.reorgs == w.d.reorgs;
    forall v: Walk, b: Block {:trigger step(v, b)}
      | Inv(v) && w.at.height <= v.at.height && v.at.height + 1 < |chain| && b == chain[v.at.height + 1]
      ensures Inv(step(v, b)) && step(v, b).at.height == v.at.height + 1
    {
      CheckpointFacts(cfg, mode, Visit(v, b));
    }
    FoldInduction(step, chain, w, n, Inv);
  }

  lemma RunLoopKeepsLogs(t: Tree, cfg: Config, node: Node, workers: nat, stopAt: nat, d: DiskState, p: Prep)
    requires Stable(t, node) && p.Ready? && p.at.height < |node.chain|
    ensures DoAll(d, RunLoop(cfg, node, workers, stopAt, d, p).acts).reorgs == DoAll(d, p.acts).reorgs
  {
    hide VisitAll, VisitsFrom, ParallelEnd, ModeFor, DoAll, CheckpointActs;
    var latest := Latest(cfg, node);
    var end := ParallelEnd(cfg, node, workers, p.at, latest);
    var v := VisitsFrom(node, stopAt, end, latest, p.at.height + 1, p.at.hash);
    VisitsAreChain(t, node, stopAt, end, latest, p.at.height + 1, p.at.hash);
    var mode, w := ModeFor(cfg, p.at, latest), StartWalk(node, d, p);
    LoopKeepsLogs(cfg, mode, node.chain, w, |v.blocks|);
    EO.LoopTracksDisk(cfg, mode, node.chain, d, w, |v.blocks|);
    var last := VisitAll(cfg, mode, w, v.blocks);
    CheckpointFacts(cfg, mode, last);
    DoAppend(d, last.acts, CheckpointActs(cfg, mode, last));
  }

  /** After any run from nothing: a pass that is not killed writes an audit log if
      and only if its position has left the chain and it gets past the recovery;
      it is one log, and it lists exactly the blocks of both branches between the
      fork and the old height. */
  lemma LogIsExact(t: Tree, cfg: Config, events: seq<PassEvent>, e: PassEvent)
    requires WellFormedTree(t) && ValidRun(t, cfg, FRESH, events)
    requires ValidEvent(t, cfg, Run(t, cfg, FRESH, events), e) && Begun(cfg, e.node)
    ensures var q := Run(t, cfg, FRESH, events);
            var found, before := Locate(q.d, e.picks.top).pointer, q.d.reorgs;
            var after := DoAll(q.d, Result(cfg, q, e).acts).reorgs;
            && (found.Some? ==> found.value.hash in t && t[found.value.hash].height == found.value.height)
            && (if OffChain(e.node.chain, found) && Reconciles(cfg, e.node, e.picks, q.d, q.flags)
                then |after| == |before| + 1 && before <= after
                     && IsLogOf(t, e.node.chain, found.value,
                                Position(cfg, e.node, e.picks, q.d, q.flags).height, after[|before|])
                else after == before)
  {
    hide Run, ValidRun, Reconcile, LoadIndex, DoAll, IndexClosed, Sound, RunLoop, Prepare, IsLogOf;
    EmptyIsSound(t);
    RunKeepsSound(t, cfg, FRESH, events);
    var q := Run(t, cfg, FRESH, events);
    var node := e.node;
    SeededIndex(t, cfg, node, e.picks, q.d);
    PrepareLogs(cfg, node, e.picks, q.d, q.flags);
    var found, tip := Locate(q.d, e.picks.top), Pointer(Latest(cfg, node), node.chain[Latest(cfg, node)].hash);
    var d := DoAll(q.d, [LatestReplace(tip)] + found.acts);
    ReconcileLogs(t, cfg, node, LoadIndex(d.index), q.flags, found.pointer, d);
    var p := Prepare(cfg, node, e.picks, q.d, q.flags);
    if p.Ready? {
      ReadyIsOnChain(t, cfg, node, e.picks, q.d, q.flags);
      RunLoopKeepsLogs(t, cfg, node, e.workers, e.stopAt, q.d, p);
    }
  }
}
