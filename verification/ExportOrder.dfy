/** Without kills the files of a logical CSV are its rows in order: the parts
    exported so far, numbered 1, 2, ..., and then the open part. */
module ExportOrder {
  import opened Basics
  import opened Chain
  import opened IndexFile
  import opened DiskModel
  import opened Pass
  import opened PassFacts
  import opened CrashSafety
  import opened Runs
  import PF = PartFiles
  import PR = PartRuns

  ghost predicate AllOrderly(parts: Quad<PF.Files>) {
    forall k :: PR.Orderly(parts.At(k))
  }

  predicate NoParts(acts: seq<Action>) {
    forall i :: 0 <= i < |acts| ==> !acts[i].OnPart?
  }

  lemma {:induction false} NoPartsKeeps(d: DiskState, acts: seq<Action>)
    requires NoParts(acts)
    ensures DoAll(d, acts).parts == d.parts
    decreases |acts|
  {
    if acts != [] {
      NoPartsKeeps(d, acts[..|acts| - 1]);
    }
  }

  // --- Drains ----------------------------------------------------------------

  /** After the drain of `kinds`. */
  ghost predicate DrainedInOrder(d: DiskState, kinds: seq<Kind>, e: DiskState) {
    AllOrderly(e.parts) && forall k :: k !in kinds ==> e.parts.At(k) == d.parts.At(k)
  }

  lemma DrainKindInOrder(cfg: Config, mode: PF.Mode, d: DiskState, e: DiskState, batch: seq<Staged>,
                         kinds: seq<Kind>, k: Kind)
    requires DrainedInOrder(d, kinds, e) && k !in kinds
    ensures DrainedInOrder(d, kinds + [k], DoAll(e, DrainActs(cfg, mode, d, batch, k)))
  {
    hide PR.Orderly, PF.WriteActions, PF.ApplyAll;
    var f := d.parts.At(k);
    assert PR.Orderly(e.parts.At(k)) && e.parts.At(k) == f;
    DoTagged(e, k, PF.WriteActions(cfg.parts, f, PF.Load(f), mode, RowsFor(batch, k)));
    PR.WriteKeepsOrder(cfg.parts, f, mode, RowsFor(batch, k));
  }

  lemma DrainInOrder(cfg: Config, mode: PF.Mode, d: DiskState, batch: seq<Staged>)
    requires AllOrderly(d.parts)
    ensures AllOrderly(DoAll(d, Drain(cfg, mode, d, batch)).parts)
  {
    hide AllOrderly, DrainActs, DoAll;
    var Inv := (ks, acts) => DrainedInOrder(d, ks, DoAll(d, acts));
    NothingDrained(d);
    forall i, acts | 0 <= i < |KINDS| && Inv(KINDS[..i], acts)
      ensures Inv(KINDS[..i + 1], acts + DrainActs(cfg, mode, d, batch, KINDS[i]))
    {
      assert KINDS[..i + 1] == KINDS[..i] + [KINDS[i]];
      DrainKindInOrder(cfg, mode, d, DoAll(d, acts), batch, KINDS[..i], KINDS[i]);
      DoAppend(d, acts, DrainActs(cfg, mode, d, batch, KINDS[i]));
    }
    DrainInduction(cfg, mode, d, batch, KINDS, Inv);
  }

  lemma NothingDrained(d: DiskState)
    requires AllOrderly(d.parts)
    ensures DrainedInOrder(d, [], DoAll(d, []))
  {
  }

  lemma CheckpointInOrder(cfg: Config, mode: PF.Mode, w: Walk)
    requires AllOrderly(w.d.parts)
    ensures AllOrderly(Checkpoint(cfg, mode, w).d.parts)
  {
    hide AllOrderly, Drain, DoAll;
    var drain := Drain(cfg, mode, w.d, w.batch);
    var rest := FlushIndex(w.batch) + FlushFlags(w.flags) + SavePointer(w.at);
    DrainInOrder(cfg, mode, w.d, w.batch);
    assert CheckpointActs(cfg, mode, w) == drain + rest;
    DoAppend(w.d, drain, rest);
    NoPartsKeeps(DoAll(w.d, drain), rest);
  }

  // --- Passes ----------------------------------------------------------------

  ghost predicate OrderlyWalk(d: DiskState, w: Walk) {
    w.d == DoAll(d, w.acts) && AllOrderly(w.d.parts)
  }

  lemma CheckpointKeeps(cfg: Config, mode: PF.Mode, d: DiskState, w: Walk)
    requires OrderlyWalk(d, w)
    ensures OrderlyWalk(d, Checkpoint(cfg, mode, w))
  {
    hide AllOrderly, CheckpointActs, DoAll;
    CheckpointInOrder(cfg, mode, w);
    DoAppend(d, w.acts, CheckpointActs(cfg, mode, w));
  }

  lemma StepKeeps(cfg: Config, mode: PF.Mode, d: DiskState, w: Walk, b: Block)
    requires OrderlyWalk(d, w)
    ensures var v := VisitAndCheckpoint(cfg, mode, w, b);
            OrderlyWalk(d, v) && v.at.height == b.height
  {
    hide AllOrderly, CheckpointActs, DoAll;
    if CheckpointDue(cfg, mode, w.processed + 1) {
      CheckpointKeeps(cfg, mode, d, Visit(w, b));
    }
  }

  lemma LoopKeeps(cfg: Config, mode: PF.Mode, chain: seq<Block>, d: DiskState, w: Walk, n: nat)
    requires OrderlyWalk(d, w) && w.at.height + 1 + n <= |chain|
    requires forall i :: 0 <= i < |chain| ==> chain[i].height == i
    ensures OrderlyWalk(d, VisitAll(cfg, mode, w, chain[w.at.height + 1..w.at.height + 1 + n]))
  {
    hide OrderlyWalk, Visit, Checkpoint;
    var step := (v, b) => VisitAndCheckpoint(cfg, mode, v, b);
    var Inv := v => OrderlyWalk(d, v);
    forall v: Walk, b: Block {:trigger step(v, b)}
      | Inv(v) && w.at.height <= v.at.height && v.at.height + 1 < |chain| && b == chain[v.at.height + 1]
      ensures Inv(step(v, b)) && step(v, b).at.height == v.at.height + 1
    {
      StepKeeps(cfg, mode, d, v, b);
    }
    FoldInduction(step, chain, w, n, Inv);
  }

  lemma FinishKeeps(cfg: Config, mode: PF.Mode, d: DiskState, w: Walk, ending: Ending, latest: int)
    requires OrderlyWalk(d, w)
    ensures AllOrderly(DoAll(d, FinishWalk(cfg, mode, w, ending, latest).acts).parts)
  {
    hide AllOrderly, CheckpointActs, DoAll;
    CheckpointKeeps(cfg, mode, d, w);
  }

  lemma PrepareHasNoParts(cfg: Config, node: Node, picks: Picks, d: DiskState, flags: Flags)
    ensures NoParts(Prepare(cfg, node, picks, d, flags).acts)
  {
    hide WalkBackFrom, FlagDetached, LoadIndex, DoAll, FoundRows;
  }

  lemma RunLoopKeeps(t: Tree, cfg: Config, node: Node, workers: nat, stopAt: nat, d: DiskState, p: Prep)
    requires Stable(t, node) && p.Ready? && p.at.height < |node.chain| && AllOrderly(DoAll(d, p.acts).parts)
    ensures AllOrderly(DoAll(d, RunLoop(cfg, node, workers, stopAt, d, p).acts).parts)
  {
    hide AllOrderly, VisitAll, FinishWalk, VisitsFrom, ParallelEnd, ModeFor, DoAll;
    var latest := Latest(cfg, node);
    var end := ParallelEnd(cfg, node, workers, p.at, latest);
    var v := VisitsFrom(node, stopAt, end, latest, p.at.height + 1, p.at.hash);
    VisitsAreChain(t, node, stopAt, end, latest, p.at.height + 1, p.at.hash);
    var mode, w := ModeFor(cfg, p.at, latest), StartWalk(node, d, p);
    LoopKeeps(cfg, mode, node.chain, d, w, |v.blocks|);
    FinishKeeps(cfg, mode, d, VisitAll(cfg, mode, w, v.blocks), v.ending, latest);
  }

  /** A pass that is not killed keeps the files in order. */
  lemma PassKeepsOrder(t: Tree, cfg: Config, node: Node, workers: nat, stopAt: nat, picks: Picks, d: DiskState,
                       flags: Flags)
    requires WellFormedTree(t) && Stable(t, node) && Sound(t, d) && ValidPicks(picks, d) && AllOrderly(d.parts)
    ensures AllOrderly(DoAll(d, RunPass(cfg, node, workers, stopAt, picks, d, flags).acts).parts)
  {
    hide Prepare, RunLoop, AllOrderly, Sound, DoAll;
    var p := Prepare(cfg, node, picks, d, flags);
    PrepareHasNoParts(cfg, node, picks, d, flags);
    NoPartsKeeps(d, p.acts);
    PrepareKeepsSound(t, cfg, node, picks, d, flags);
    if p.Ready? {
      RunLoopKeeps(t, cfg, node, workers, stopAt, d, p);
    }
  }

  // --- Runs ------------------------------------------------------------------

  lemma ReducedOrderly(e: DiskState, d: DiskState)
    requires DiskReduced(e, d) && AllOrderly(d.parts)
    ensures AllOrderly(e.parts)
  {
    forall k
      ensures PR.Orderly(e.parts.At(k))
    {
      assert PR.Orderly(d.parts.At(k)) && PR.Reduced(e.parts.At(k), d.parts.At(k));
      PR.ReducedConsistent(e.parts.At(k), d.parts.At(k));
    }
  }

  lemma StepKeepsOrder(t: Tree, cfg: Config, p: Process, e: PassEvent)
    requires WellFormedTree(t) && Sound(t, p.d) && ValidEvent(t, cfg, p, e) && e.cut == None && AllOrderly(p.d.parts)
    ensures AllOrderly(Step(t, cfg, p, e).d.parts)
  {
    hide RunPass, AllOrderly, Sound, DiskReduced;
    PassKeepsOrder(t, cfg, e.node, e.workers, e.stopAt, e.picks, p.d, p.flags);
    var acts := Performed(cfg, p, e);
    WovenReduces(p.d, acts, e.eats);
    ReducedOrderly(DoWoven(p.d, acts, e.eats), DoAll(p.d, acts));
  }

  lemma {:induction false} RunKeepsOrder(t: Tree, cfg: Config, p: Process, events: seq<PassEvent>)
    requires WellFormedTree(t) && Sound(t, p.d) && ValidRun(t, cfg, p, events) && AllOrderly(p.d.parts)
    requires forall i :: 0 <= i < |events| ==> events[i].cut == None
    ensures AllOrderly(Run(t, cfg, p, events).d.parts)
    decreases |events|
  {
    hide AllOrderly, Sound, Step, ValidEvent;
    if events != [] {
      StepKeepsOrder(t, cfg, p, events[0]);
      StepKeepsSound(t, cfg, p, events[0]);
      RunKeepsOrder(t, cfg, Step(t, cfg, p, events[0]), events[1..]);
    }
  }

  lemma EmptyIsAllOrderly()
    ensures AllOrderly(EMPTY_DISK.parts)
  {
    PR.EmptyIsOrderly();
  }

  /** The files of one logical CSV hold exactly `rows`: the consumer got, or will
      get, the parts 1, 2, ... in order, the rest is in the open part, and what
      is still under export_base is what was put there. */
  ghost predicate FilesHold(f: PF.Files, rows: seq<Row>) {
    && PR.ShippedRows(f.shipped) + PR.OpenRows(f) == rows
    && (forall i :: 0 <= i < |f.shipped| ==> f.shipped[i].number == i + 1)
    && (forall n :: n in f.exported ==> 1 <= n <= |f.shipped| && f.shipped[n - 1] == PF.Part(n, f.exported[n]))
  }

  lemma OrderlyFilesHold(f: PF.Files)
    requires PR.Orderly(f)
    ensures FilesHold(f, f.written)
  {
    forall n | n in f.exported
      ensures 1 <= n <= |f.shipped| && f.shipped[n - 1] == PF.Part(n, f.exported[n])
    {
      assert PF.Shipped(f, n, f.exported[n]);
      var i :| 0 <= i < |f.shipped| && f.shipped[i] == PF.Part(n, f.exported[n]);
    }
  }
}
