/** What the blocks CSV holds over every run, kills included: a row for each
    indexed block, seeded or exported, and in every row ever written the true
    time since the previous block, unless a pass starts its loop off the active
    chain at a block that it then has to export again. */
module BlockRows {
  import opened Basics
  import opened Chain
  import opened IndexFile
  import opened DiskModel
  import opened Pass
  import opened PassFacts
  import opened CrashSafety
  import opened Runs
  import opened Progress
  import PF = PartFiles
  import PR = PartRuns

  /** time_since_prev_block_sec is a property of the block alone. */
  ghost function GapOf(t: Tree, b: Block): Option<int>
    requires b.height > 0 ==> b.prev in t
  {
    if b.height == 0 then None else Some(b.time - t[b.prev].time)
  }

  ghost predicate TrueRows(t: Tree, s: Staged) {
    InTree(t, s.block) && (s.block.height > 0 ==> s.block.prev in t) && s.sincePrev == GapOf(t, s.block)
  }

  /** The row of a block with the true gap. */
  ghost predicate TrueRow(t: Tree, r: Row) {
    && r.block in t && (t[r.block].height > 0 ==> t[r.block].prev in t)
    && r == Row(r.block, t[r.block].height, t[r.block].prev, 0, GapOf(t, t[r.block]))
  }

  ghost predicate HasRow(rows: seq<Row>, h: Hash) {
    exists i :: 0 <= i < |rows| && rows[i].block == h
  }

  lemma HasRowMore(rows: seq<Row>, more: seq<Row>, h: Hash)
    requires HasRow(rows, h)
    ensures HasRow(rows + more, h)
  {
    var i :| 0 <= i < |rows| && rows[i].block == h;
    assert (rows + more)[i].block == h;
  }

  // --- The files ---------------------------------------------------------------

  /** Every row of a file was written. */
  ghost predicate OnlyWritten(f: PF.Files) {
    && (forall n, r :: n in f.open && r in f.open[n] ==> r in f.written)
    && (forall n, r :: n in f.exported && r in f.exported[n] ==> r in f.written)
    && (forall i, r :: 0 <= i < |f.shipped| && r in f.shipped[i].rows ==> r in f.written)
  }

  lemma ApplyOnlyWritten(f: PF.Files, a: PF.PartAction)
    requires OnlyWritten(f)
    ensures OnlyWritten(PF.Apply(f, a))
  {
  }

  lemma {:induction false} FoundWasWritten(f: PF.Files, n: nat)
    requires OnlyWritten(f)
    ensures forall r :: r in RowsUpTo(f, n) ==> r in f.written
  {
    if n > 0 {
      FoundWasWritten(f, n - 1);
    }
  }

  // --- Actions -----------------------------------------------------------------

  /** If `exact` is demanded the rows for the blocks CSV are true; index rows of
      an older schema are of blocks with a row in `found`. */
  ghost predicate Fine(t: Tree, exact: bool, found: seq<Row>, a: Action) {
    match a
    case OnPart(k, act) => exact && k.Blocks? ==> forall r :: r in RowsIn(act) ==> TrueRow(t, r)
    case IndexAppend(rows) => forall i :: 0 <= i < |rows| && rows[i].version < CURRENT_SCHEMA ==>
                                HasRow(found, rows[i].hash)
    case _ => true
  }

  ghost predicate AllFine(t: Tree, exact: bool, found: seq<Row>, acts: seq<Action>) {
    forall i :: 0 <= i < |acts| ==> Fine(t, exact, found, acts[i])
  }

  ghost predicate BlocksFine(t: Tree, exact: bool, d: DiskState) {
    var f := d.parts.At(Blocks);
    && OnlyWritten(f)
    && (exact ==> forall r :: r in f.written ==> TrueRow(t, r))
    && (forall i :: 0 <= i < |d.index| && d.index[i].version < CURRENT_SCHEMA ==> HasRow(f.written, d.index[i].hash))
  }

  lemma DoFine(t: Tree, exact: bool, found: seq<Row>, d: DiskState, a: Action)
    requires BlocksFine(t, exact, d) && found <= d.parts.At(Blocks).written && Fine(t, exact, found, a)
    ensures BlocksFine(t, exact, Do(d, a)) && found <= Do(d, a).parts.At(Blocks).written
  {
    hide TrueRow, HasRow;
    var e := Do(d, a);
    var f, g := d.parts.At(Blocks), e.parts.At(Blocks);
    if a.OnPart? && a.kind.Blocks? {
      ApplyOnlyWritten(f, a.act);
      OneWrite(f, a.act);
    }
    var more := g.written[|f.written|..];
    assert g.written == f.written + more;
    forall h | HasRow(f.written, h) || HasRow(found, h)
      ensures HasRow(g.written, h)
    {
      if HasRow(found, h) {
        HasRowMore(found, g.written[|found|..], h);
        assert g.written == found + g.written[|found|..];
      } else {
        HasRowMore(f.written, more, h);
      }
    }
  }

  lemma {:induction false} ActsFine(t: Tree, exact: bool, found: seq<Row>, d: DiskState, acts: seq<Action>)
    requires BlocksFine(t, exact, d) && found <= d.parts.At(Blocks).written && AllFine(t, exact, found, acts)
    ensures BlocksFine(t, exact, DoAll(d, acts)) && found <= DoAll(d, acts).parts.At(Blocks).written
    decreases |acts|
  {
    hide BlocksFine, Fine;
    if acts != [] {
      var n := |acts| - 1;
      ActsFine(t, exact, found, d, acts[..n]);
      DoFine(t, exact, found, DoAll(d, acts[..n]), acts[n]);
    }
  }

  // --- Before the loop ---------------------------------------------------------

  lemma SeedingIsFine(t: Tree, exact: bool, d: DiskState, top: Row)
    requires Sound(t, d) && BlocksFine(t, exact, d)
    ensures AllFine(t, exact, d.parts.At(Blocks).written, Locate(d, top).acts)
  {
    var rows, idx := FoundRows(d.parts.blocks), LoadIndex(d.index);
    var f := d.parts.At(Blocks);
    if d.current.None? && rows != [] {
      var pending := SeedPending(idx, [], rows);
      assert Versioned(idx);
      SeedStages(idx, [], rows, rows);
      FoundWasWritten(f, PF.Highest(f.open.Keys + f.exported.Keys));
      forall i | 0 <= i < |pending|
        ensures HasRow(f.written, pending[i].hash)
      {
        assert RowFound(rows, pending[i]);
      }
    }
  }

  lemma ReconcileIsFine(t: Tree, exact: bool, found: seq<Row>, cfg: Config, node: Node, byHash: ByHash, flags: Flags,
                        pointer: Option<Pointer>)
    ensures AllFine(t, exact, found, Reconcile(cfg, node, byHash, flags, pointer).acts)
  {
    hide WalkBackFrom, FlagDetached;
  }

  lemma PrepareIsFine(t: Tree, exact: bool, cfg: Config, node: Node, picks: Picks, d: DiskState, flags: Flags)
    requires Sound(t, d) && BlocksFine(t, exact, d)
    ensures AllFine(t, exact, d.parts.At(Blocks).written, Prepare(cfg, node, picks, d, flags).acts)
  {
    hide Reconcile, Locate, Sound, DoAll, BlocksFine, LoadIndex, HasRow;
    SeedingIsFine(t, exact, d, picks.top);
    var found := Locate(d, picks.top);
    var latest := Latest(cfg, node);
    if node.ok(BlockCount) && latest >= 0 && node.ok(LatestHash) {
      var begun := [LatestReplace(Pointer(latest, node.chain[latest].hash))] + found.acts;
      var byHash := LoadIndex(DoAll(d, begun).index);
      ReconcileIsFine(t, exact, d.parts.At(Blocks).written, cfg, node, byHash, flags, found.pointer);
    }
  }

  // --- The loop ----------------------------------------------------------------

  /** The position is on the chain, with the time of its block. */
  ghost predicate Placed(chain: seq<Block>, w: Walk) {
    && -1 <= w.at.height < |chain|
    && (w.at.hash.None? ==> w.at.height == -1 && w.prevTime == None)
    && (w.at.hash.Some? ==>
          && w.at.height >= 0
          && chain[w.at.height].hash == w.at.hash.value
          && w.prevTime == Some(chain[w.at.height].time))
  }

  /** The next block of the chain is not exported. */
  ghost predicate Skips(chain: seq<Block>, w: Walk) {
    0 <= w.at.height + 1 < |chain| ==>
      !NeedsExport(LoadIndex(w.d.index), IndexRows(w.batch), chain[w.at.height + 1].hash)
  }

  ghost predicate TrueBatch(t: Tree, exact: bool, batch: seq<Staged>) {
    exact ==> forall i :: 0 <= i < |batch| ==> TrueRows(t, batch[i])
  }

  ghost predicate FineWalk(t: Tree, exact: bool, found: seq<Row>, chain: seq<Block>, w: Walk) {
    && AllFine(t, exact, found, w.acts) && TrueBatch(t, exact, w.batch)
    && (exact ==> Placed(chain, w) || Skips(chain, w))
  }

  lemma {:induction false} BatchRowsTrue(t: Tree, batch: seq<Staged>)
    requires WellFormedTree(t) && forall i :: 0 <= i < |batch| ==> TrueRows(t, batch[i])
    ensures forall r :: r in RowsFor(batch, Blocks) ==> TrueRow(t, r)
    decreases |batch|
  {
    if batch != [] {
      var n := |batch| - 1;
      BatchRowsTrue(t, batch[..n]);
      var s := batch[n];
      var rows := RowsOf(s.block, s.sincePrev, Blocks);
      assert TrueRows(t, s) && rows == [Row(s.block.hash, s.block.height, s.block.prev, 0, s.sincePrev)];
    }
  }

  lemma DrainIsFine(t: Tree, exact: bool, found: seq<Row>, cfg: Config, mode: PF.Mode, d: DiskState, batch: seq<Staged>)
    requires WellFormedTree(t) && TrueBatch(t, exact, batch)
    ensures AllFine(t, exact, found, Drain(cfg, mode, d, batch))
  {
    hide TrueRow, TrueRows, RowsFor, PF.WriteActions, RowsIn, WellFormedTree;
    if exact {
      BatchRowsTrue(t, batch);
    }
    var Inv := (ks: seq<Kind>, acts: seq<Action>) => AllFine(t, exact, found, acts);
    forall i, acts | 0 <= i < |KINDS| && Inv(KINDS[..i], acts)
      ensures Inv(KINDS[..i + 1], acts + DrainActs(cfg, mode, d, batch, KINDS[i]))
    {
      var f := d.parts.At(KINDS[i]);
      WrittenRows(cfg.parts, f, PF.Load(f), mode, RowsFor(batch, KINDS[i]));
    }
    DrainInduction(cfg, mode, d, batch, KINDS, Inv);
  }

  lemma CheckpointIsFine(t: Tree, exact: bool, found: seq<Row>, cfg: Config, mode: PF.Mode, chain: seq<Block>, w: Walk)
    requires WellFormedTree(t) && AllFine(t, exact, found, w.acts) && TrueBatch(t, exact, w.batch)
    ensures var c := Checkpoint(cfg, mode, w);
            && AllFine(t, exact, found, c.acts) && TrueBatch(t, exact, c.batch)
            && (Placed(chain, w) ==> Placed(chain, c))
  {
    hide DoAll, Drain, TrueRow, TrueRows;
    DrainIsFine(t, exact, found, cfg, mode, w.d, w.batch);
  }

  lemma GapIsTrue(t: Tree, chain: seq<Block>, w: Walk)
    requires WellFormedTree(t) && ActiveChain(t, chain) && Placed(chain, w) && w.at.height + 1 < |chain|
    ensures var b := chain[w.at.height + 1];
            TrueRows(t, Staged(b, if w.prevTime.Some? then Some(b.time - w.prevTime.value) else None))
  {
    var b := chain[w.at.height + 1];
    assert InTree(t, b) && b.height == w.at.height + 1;
    if w.at.height >= 0 {
      assert b.prev == chain[w.at.height].hash && InTree(t, chain[w.at.height]);
    }
  }

  lemma VisitIsFine(t: Tree, exact: bool, found: seq<Row>, chain: seq<Block>, w: Walk)
    requires WellFormedTree(t) && ActiveChain(t, chain) && FineWalk(t, exact, found, chain, w)
    requires w.at.height + 1 < |chain|
    ensures var v := Visit(w, chain[w.at.height + 1]);
            && AllFine(t, exact, found, v.acts) && TrueBatch(t, exact, v.batch)
            && (exact ==> Placed(chain, v))
  {
    hide TrueRows, AllFine, WellFormedTree, ActiveChain, LoadIndex, SetCanonicalIfPresent, NeedsExport;
    HeightOf(t, chain, w.at.height + 1);
    if exact && Placed(chain, w) {
      GapIsTrue(t, chain, w);
    }
  }

  lemma HeightOf(t: Tree, chain: seq<Block>, i: nat)
    requires ActiveChain(t, chain) && i < |chain|
    ensures chain[i].height == i
  {
  }

  lemma LoopIsFine(t: Tree, exact: bool, found: seq<Row>, cfg: Config, mode: PF.Mode, chain: seq<Block>, w: Walk,
                   n: nat)
    requires WellFormedTree(t) && ActiveChain(t, chain) && FineWalk(t, exact, found, chain, w)
    requires w.at.height + 1 + n <= |chain|
    ensures FineWalk(t, exact, found, chain, VisitAll(cfg, mode, w, chain[w.at.height + 1..w.at.height + 1 + n]))
  {
    hide FineWalk, Visit, Checkpoint;
    var step := (v, b) => VisitAndCheckpoint(cfg, mode, v, b);
    var Inv := v => FineWalk(t, exact, found, chain, v);
    forall v: Walk, b: Block {:trigger step(v, b)}
      | Inv(v) && w.at.height <= v.at.height && v.at.height + 1 < |chain| && b == chain[v.at.height + 1]
      ensures Inv(step(v, b)) && step(v, b).at.height == v.at.height + 1
    {
      StepIsFine(t, exact, found, cfg, mode, chain, v);
    }
    FoldInduction(step, chain, w, n, Inv);
  }

  lemma StepIsFine(t: Tree, exact: bool, found: seq<Row>, cfg: Config, mode: PF.Mode, chain: seq<Block>, w: Walk)
    requires WellFormedTree(t) && ActiveChain(t, chain) && FineWalk(t, exact, found, chain, w)
    requires w.at.height + 1 < |chain|
    ensures var v := VisitAndCheckpoint(cfg, mode, w, chain[w.at.height + 1]);
            FineWalk(t, exact, found, chain, v) && v.at.height == w.at.height + 1
  {
    hide AllFine, Placed, Skips, TrueBatch, CheckpointActs;
    var b := chain[w.at.height + 1];
    assert b.height == w.at.height + 1;
    VisitIsFine(t, exact, found, chain, w);
    if CheckpointDue(cfg, mode, w.processed + 1) {
      CheckpointIsFine(t, exact, found, cfg, mode, chain, Visit(w, b));
    }
  }

  lemma StretchIsFine(t: Tree, exact: bool, found: seq<Row>, cfg: Config, node: Node, d: DiskState, p: Prep, n: nat,
                      ending: Ending)
    requires WellFormedTree(t) && ActiveChain(t, node.chain) && p.Ready? && p.at.height + 1 + n <= |node.chain|
    requires FineWalk(t, exact, found, node.chain, StartWalk(node, d, p))
    ensures AllFine(t, exact, found, StretchResult(cfg, node, d, p, n, ending).acts)
  {
    hide StartWalk, VisitAll, ModeFor, ActiveChain, WellFormedTree, Fine;
    var mode, w, from := ModeFor(cfg, p.at, Latest(cfg, node)), StartWalk(node, d, p), p.at.height + 1;
    StartsAt(node, d, p);
    LoopIsFine(t, exact, found, cfg, mode, node.chain, w, n);
    CheckpointIsFine(t, exact, found, cfg, mode, node.chain, VisitAll(cfg, mode, w, node.chain[from..from + n]));
  }

  /** The row of the first block of a loop has the true gap if and only if the
      block remembered as the last one is as old as the one before it on the
      chain: on the chain it is that one. */
  lemma FirstGapIff(t: Tree, node: Node, d: DiskState, p: Prep)
    requires WellFormedTree(t) && ActiveChain(t, node.chain) && Truthful(t, node) && p.Ready?
    requires p.at.hash.Some? && p.at.hash.value in t && 0 <= p.at.height < |node.chain| - 1
    requires NeedsExport(LoadIndex(DoAll(d, p.acts).index), [], node.chain[p.at.height + 1].hash)
    ensures var batch := Visit(StartWalk(node, d, p), node.chain[p.at.height + 1]).batch;
            |batch| == 1 &&
            (TrueRows(t, batch[0]) <==> t[p.at.hash.value].time == node.chain[p.at.height].time)
  {
    hide DoAll, LoadIndex;
    var b := node.chain[p.at.height + 1];
    assert InTree(t, b) && b.height == p.at.height + 1 && InTree(t, node.chain[p.at.height]);
    assert b.prev == node.chain[p.at.height].hash;
    assert IndexRows([]) == [];
  }

  /** The loop starts on the chain, or the first block it visits is not exported. */
  ghost predicate StartsFine(t: Tree, node: Node, d: DiskState, p: Prep)
    requires p.Ready?
  {
    && Truthful(t, node) && (p.at.hash.Some? <==> p.at.height >= 0)
    && (OnActive(node.chain, p.at) || Skips(node.chain, StartWalk(node, d, p)))
  }

  lemma RunLoopIsFine(t: Tree, exact: bool, found: seq<Row>, cfg: Config, node: Node, workers: nat, stopAt: nat,
                      d: DiskState, p: Prep)
    requires WellFormedTree(t) && Stable(t, node) && p.Ready? && p.at.height < |node.chain|
    requires AllFine(t, exact, found, p.acts)
    requires exact ==> StartsFine(t, node, d, p)
    ensures AllFine(t, exact, found, RunLoop(cfg, node, workers, stopAt, d, p).acts)
  {
    hide StretchResult, RunLoop, Fine, StartsFine;
    StartIsFine(t, exact, found, node, d, p);
    var Good := (r: PassResult) => AllFine(t, exact, found, r.acts);
    forall n: nat, ending {:trigger StretchResult(cfg, node, d, p, n, ending)} | p.at.height + 1 + n <= |node.chain|
      ensures Good(StretchResult(cfg, node, d, p, n, ending))
    {
      StretchIsFine(t, exact, found, cfg, node, d, p, n, ending);
    }
    LoopRule(t, cfg, node, workers, stopAt, d, p, Good);
  }

  lemma StartIsFine(t: Tree, exact: bool, found: seq<Row>, node: Node, d: DiskState, p: Prep)
    requires ActiveChain(t, node.chain) && p.Ready? && p.at.height < |node.chain| && AllFine(t, exact, found, p.acts)
    requires exact ==> StartsFine(t, node, d, p)
    ensures FineWalk(t, exact, found, node.chain, StartWalk(node, d, p))
  {
    hide Fine, DoAll, Skips;
    if exact && p.at.hash.Some? && OnActive(node.chain, p.at) {
      assert InTree(t, node.chain[p.at.height]);
    }
  }

  // --- Runs --------------------------------------------------------------------

  /** The pass rewinds below a stale row that does not hang on the active chain,
      and the block of the chain at the height of that row is stale too.  So it
      starts its loop off the chain, and exports that block first. */
  ghost predicate GapAtRisk(cfg: Config, p: Process, e: PassEvent) {
    var idx, chain, stale := LoadIndex(DoAll(p.d, Locate(p.d, e.picks.top).acts).index), e.node.chain, e.picks.stale;
    && Rewinds(Position(cfg, e.node, e.picks, p.d, p.flags), stale) && !StaleOnChain(chain, stale)
    && stale.value.height < |chain| && NeedsExport(idx, [], chain[stale.value.height].hash)
  }

  ghost predicate NeverAtRisk(t: Tree, cfg: Config, p: Process, events: seq<PassEvent>)
    requires ValidRun(t, cfg, p, events)
    decreases |events|
  {
    events == [] ||
    (!GapAtRisk(cfg, p, events[0]) && NeverAtRisk(t, cfg, Step(t, cfg, p, events[0]), events[1..]))
  }

  /** Preparing appends to the index only what it seeds. */
  lemma PreparedIndex(cfg: Config, node: Node, picks: Picks, d: DiskState, flags: Flags)
    ensures var p := Prepare(cfg, node, picks, d, flags);
            p.Ready? ==> DoAll(d, p.acts).index == DoAll(d, Locate(d, picks.top).acts).index
  {
    hide Locate, DoAll, WalkBackFrom, FlagDetached, LoadIndex;
    var p := Prepare(cfg, node, picks, d, flags);
    if p.Ready? {
      var found, latest := Locate(d, picks.top), Latest(cfg, node);
      var a := LatestReplace(Pointer(latest, node.chain[latest].hash));
      var begun := [a] + found.acts;
      var rest := p.acts[|begun|..];
      assert p.acts == begun + rest && AllHarmless(rest);
      DoAppend(d, begun, rest);
      HarmlessLeaves(DoAll(d, begun), rest);
      DoAppend(d, [a], found.acts);
      DoOne(d, a);
      SameIndex(d, DoAll(d, [a]), found.acts);
    }
  }

  /** A pass that is not at risk starts on the chain, or at a block it skips. */
  lemma PassStartsFine(t: Tree, cfg: Config, p: Process, e: PassEvent)
    requires WellFormedTree(t) && Stable(t, e.node) && Sound(t, p.d) && ValidPicks(e.picks, p.d)
    requires Truthful(t, e.node) && !GapAtRisk(cfg, p, e)
    ensures var prep := Prepare(cfg, e.node, e.picks, p.d, p.flags);
            prep.Ready? ==> prep.at.height < |e.node.chain| && StartsFine(t, e.node, p.d, prep)
  {
    hide Prepare, Sound, ValidPicks, Position, StaleOnChain, IndexClosed, IsEarliestStale, OnChain, LoadIndex,
      OnActive, DoAll, Locate;
    var prep, chain, stale := Prepare(cfg, e.node, e.picks, p.d, p.flags), e.node.chain, e.picks.stale;
    PreparedPosition(t, cfg, e.node, e.picks, p.d, p.flags);
    if prep.Ready? {
      var idx := LoadIndex(DoAll(p.d, Locate(p.d, e.picks.top).acts).index);
      var from := Position(cfg, e.node, e.picks, p.d, p.flags);
      RewoundOnActive(t, chain, idx, from, stale);
      PreparedIndex(cfg, e.node, e.picks, p.d, p.flags);
      if !OnActive(chain, prep.at) {
        assert prep.at.height + 1 == stale.value.height;
        assert IndexRows([]) == [];
      }
    }
  }

  /** All headers carry the times of their blocks. */
  ghost predicate AllTruthful(t: Tree, events: seq<PassEvent>) {
    forall i :: 0 <= i < |events| ==> Truthful(t, events[i].node)
  }

  lemma PassIsFine(t: Tree, exact: bool, cfg: Config, p: Process, e: PassEvent)
    requires WellFormedTree(t) && Stable(t, e.node) && Sound(t, p.d) && ValidPicks(e.picks, p.d)
    requires BlocksFine(t, exact, p.d)
    requires exact ==> Truthful(t, e.node) && !GapAtRisk(cfg, p, e)
    ensures AllFine(t, exact, p.d.parts.At(Blocks).written, Result(cfg, p, e).acts)
  {
    hide Prepare, RunLoop, Sound, Fine, ValidPicks, BlocksFine, Truthful, GapAtRisk, StartsFine, PrepOk;
    PrepareIsFine(t, exact, cfg, e.node, e.picks, p.d, p.flags);
    var prep := Prepare(cfg, e.node, e.picks, p.d, p.flags);
    if prep.Ready? {
      if exact {
        PassStartsFine(t, cfg, p, e);
      }
      ReadyIsOnChain(t, cfg, e.node, e.picks, p.d, p.flags);
      RunLoopIsFine(t, exact, p.d.parts.At(Blocks).written, cfg, e.node, e.workers, e.stopAt, p.d, prep);
    }
  }

  lemma ReducedFine(t: Tree, exact: bool, e: DiskState, d: DiskState)
    requires BlocksFine(t, exact, d) && DiskReduced(e, d)
    ensures BlocksFine(t, exact, e)
  {
    hide TrueRow, HasRow;
    assert PR.Reduced(e.parts.At(Blocks), d.parts.At(Blocks));
  }

  lemma StepIsFineToo(t: Tree, exact: bool, cfg: Config, p: Process, e: PassEvent)
    requires WellFormedTree(t) && Sound(t, p.d) && ValidEvent(t, cfg, p, e) && BlocksFine(t, exact, p.d)
    requires exact ==> Truthful(t, e.node) && !GapAtRisk(cfg, p, e)
    ensures BlocksFine(t, exact, Step(t, cfg, p, e).d)
  {
    hide RunPass, Sound, BlocksFine, GapAtRisk, DoWoven, DiskReduced, Fine, Truthful;
    PassIsFine(t, exact, cfg, p, e);
    var acts := Performed(cfg, p, e);
    ActsFine(t, exact, p.d.parts.At(Blocks).written, p.d, acts);
    WovenReduces(p.d, acts, e.eats);
    ReducedFine(t, exact, DoWoven(p.d, acts, e.eats), DoAll(p.d, acts));
  }

  lemma {:induction false} RunIsFine(t: Tree, exact: bool, cfg: Config, p: Process, events: seq<PassEvent>)
    requires WellFormedTree(t) && Sound(t, p.d) && ValidRun(t, cfg, p, events) && BlocksFine(t, exact, p.d)
    requires exact ==> AllTruthful(t, events) && NeverAtRisk(t, cfg, p, events)
    ensures BlocksFine(t, exact, Run(t, cfg, p, events).d)
    decreases |events|
  {
    hide Sound, Step, ValidEvent, BlocksFine, GapAtRisk, Truthful;
    if events != [] {
      StepIsFineToo(t, exact, cfg, p, events[0]);
      StepKeepsSound(t, cfg, p, events[0]);
      assert forall i :: 0 <= i < |events[1..]| ==> events[1..][i] == events[i + 1];
      RunIsFine(t, exact, cfg, Step(t, cfg, p, events[0]), events[1..]);
    }
  }

  lemma EmptyIsFine(t: Tree, exact: bool)
    ensures BlocksFine(t, exact, EMPTY_DISK)
  {
  }

  lemma HeldWasWritten(f: PF.Files, rows: seq<Row>)
    requires OnlyWritten(f) && PR.Stored(f, rows)
    ensures forall r :: r in rows ==> r in f.written
  {
    forall r | r in rows
      ensures r in f.written
    {
      assert PF.Held(f, r);
    }
  }

  /** In every run from nothing, kills included, whose headers carry the true
      times and no pass of which is at risk: every row ever written to the blocks
      CSV carries the true time since the previous block, and the blocks indexed
      at the current schema are delivered with it. */
  lemma RowsHaveTrueGaps(t: Tree, cfg: Config, events: seq<PassEvent>)
    requires WellFormedTree(t) && ValidRun(t, cfg, FRESH, events)
    requires AllTruthful(t, events) && NeverAtRisk(t, cfg, FRESH, events)
    ensures var d := Run(t, cfg, FRESH, events).d;
            var idx := LoadIndex(d.index);
            && (forall r :: r in d.parts.At(Blocks).written ==> TrueRow(t, r))
            && forall h :: h in idx && idx[h].version >= CURRENT_SCHEMA ==>
                 h in t && DeliveredWith(d.parts, t[h], GapOf(t, t[h]))
  {
    hide Run, ValidRun, NeverAtRisk, TrueRow, PR.Stored, IndexClosed, PartsConsistent, FilesClosed;
    EmptyIsSound(t);
    EmptyIsFine(t, true);
    RunKeepsSound(t, cfg, FRESH, events);
    RunIsFine(t, true, cfg, FRESH, events);
    var d := Run(t, cfg, FRESH, events).d;
    var idx := LoadIndex(d.index);
    IndexedInTree(t, idx);
    forall h | h in idx && idx[h].version >= CURRENT_SCHEMA
      ensures DeliveredWith(d.parts, t[h], GapOf(t, t[h]))
    {
      var gap :| DeliveredWith(d.parts, t[h], gap);
      DeliveredGap(t, d.parts, t[h], gap);
    }
  }

  lemma IndexedInTree(t: Tree, idx: ByHash)
    requires WellFormedTree(t) && IndexClosed(t, idx)
    ensures forall h :: h in idx ==> InTree(t, t[h]) && h in t && t[h].hash == h && (t[h].height > 0 ==> t[h].prev in t)
  {
  }

  lemma DeliveredGap(t: Tree, parts: Quad<PF.Files>, b: Block, gap: Option<int>)
    requires DeliveredWith(parts, b, gap) && InTree(t, b) && (b.height > 0 ==> b.prev in t)
    requires OnlyWritten(parts.At(Blocks)) && forall r :: r in parts.At(Blocks).written ==> TrueRow(t, r)
    ensures gap == GapOf(t, b)
  {
    var rows := RowsOf(b, gap, Blocks);
    HeldWasWritten(parts.At(Blocks), rows);
    assert rows[0] in rows && TrueRow(t, rows[0]);
  }

  /** In every run from nothing, whatever it meets: each indexed block, whether
      it was exported or only seeded after a kill, has a row in the blocks CSV. */
  lemma IndexedBlocksHaveRows(t: Tree, cfg: Config, events: seq<PassEvent>)
    requires WellFormedTree(t) && ValidRun(t, cfg, FRESH, events)
    ensures var d := Run(t, cfg, FRESH, events).d;
            forall h :: h in LoadIndex(d.index) ==> HasRow(d.parts.At(Blocks).written, h)
  {
    hide Run, ValidRun, PR.Stored, IndexClosed, PartsConsistent, FilesClosed;
    EmptyIsSound(t);
    EmptyIsFine(t, false);
    RunKeepsSound(t, cfg, FRESH, events);
    RunIsFine(t, false, cfg, FRESH, events);
    var d := Run(t, cfg, FRESH, events).d;
    var idx := LoadIndex(d.index);
    IndexedInTree(t, idx);
    LoadIndexKeys(d.index);
    forall h | h in idx
      ensures HasRow(d.parts.At(Blocks).written, h)
    {
      if idx[h].version >= CURRENT_SCHEMA {
        var gap :| DeliveredWith(d.parts, t[h], gap);
        var rows := RowsOf(t[h], gap, Blocks);
        HeldWasWritten(d.parts.At(Blocks), rows);
        assert rows[0] in rows && rows[0].block == h;
      }
    }
  }
}
