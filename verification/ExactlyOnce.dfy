/** Without kills every block is exported exactly once: the rows of each
    logical CSV are the rows of the indexed blocks, each block once, in one
    common order, whatever passes, RPC outages, stop requests, reorgs and
    flips back and forth produced them. */
module ExactlyOnce {
  import opened Basics
  import opened Chain
  import opened IndexFile
  import opened DiskModel
  import opened Pass
  import opened PassFacts
  import opened CrashSafety
  import opened Runs
  import opened ExportOrder
  import opened BlockRows
  import PF = PartFiles
  import PR = PartRuns

  ghost predicate IndexIs(idx: ByHash, exported: seq<Staged>) {
    && (forall h :: h in idx <==> InBatch(exported, |exported|, h))
    && (forall h :: h in idx ==> idx[h].version == CURRENT_SCHEMA)
  }

  ghost predicate WrittenIs(parts: Quad<PF.Files>, exported: seq<Staged>) {
    forall k :: parts.At(k).written == RowsFor(exported, k)
  }

  ghost predicate NothingThere(f: PF.Files) {
    f.open == map[] && f.exported == map[]
  }

  /** `exported` are the blocks exported so far, in order. */
  ghost predicate Exact(t: Tree, d: DiskState, exported: seq<Staged>) {
    && (forall i :: 0 <= i < |exported| ==> InTree(t, exported[i].block))
    && Distinct(exported)
    && IndexIs(LoadIndex(d.index), exported)
    && WrittenIs(d.parts, exported)
    && (d.current.None? ==> exported == [] && NothingThere(d.parts.blocks))
  }

  /** The staged blocks continue the exported ones. */
  ghost predicate ExactWalk(t: Tree, chain: seq<Block>, w: Walk, exported: seq<Staged>) {
    && Exact(t, w.d, exported)
    && Distinct(exported + w.batch)
    && (forall i :: 0 <= i < |w.batch| ==> InTree(t, w.batch[i].block))
    && -1 <= w.at.height < |chain|
    && (w.at.hash.None? ==> w.at.height == -1 && w.batch == [])
    && (w.at.hash.Some? ==> w.at.height >= 0 && chain[w.at.height].hash == w.at.hash.value)
  }

  // --- Checkpoint ----------------------------------------------------------

  lemma InBatchConcat(xs: seq<Staged>, ys: seq<Staged>, h: Hash)
    ensures InBatch(xs + ys, |xs + ys|, h) <==> InBatch(xs, |xs|, h) || InBatch(ys, |ys|, h)
  {
    if InBatch(xs, |xs|, h) {
      var j :| 0 <= j < |xs| && xs[j].block.hash == h;
      assert (xs + ys)[j].block.hash == h;
    }
    if InBatch(ys, |ys|, h) {
      var j :| 0 <= j < |ys| && ys[j].block.hash == h;
      assert (xs + ys)[|xs| + j].block.hash == h;
    }
  }

  lemma IndexedAfterFlush(idx: ByHash, rows: seq<IndexRow>, batch: seq<Staged>)
    requires rows == IndexRows(batch) && Distinct(batch)
    ensures forall h :: h in LoadIndex(rows) <==> InBatch(batch, |batch|, h)
    ensures forall h :: h in LoadIndex(rows) ==> LoadIndex(rows)[h].version == CURRENT_SCHEMA
  {
    LoadIndexKeys(rows);
    forall h | h in LoadIndex(rows)
      ensures InBatch(batch, |batch|, h) && LoadIndex(rows)[h].version == CURRENT_SCHEMA
    {
      var i :| 0 <= i < |rows| && rows[i] == LoadIndex(rows)[h];
      assert batch[i].block.hash == h;
    }
    forall h | InBatch(batch, |batch|, h)
      ensures h in LoadIndex(rows)
    {
      var i :| 0 <= i < |batch| && batch[i].block.hash == h;
      assert rows[i] in rows;
    }
  }

  lemma IndexAfterCheckpoint(index: seq<IndexRow>, batch: seq<Staged>, exported: seq<Staged>)
    requires IndexIs(LoadIndex(index), exported) && Distinct(exported + batch)
    ensures IndexIs(LoadIndex(index + IndexRows(batch)), exported + batch)
  {
    assert Distinct(batch) by {
      forall i, j | 0 <= i < j < |batch|
        ensures batch[i].block.hash != batch[j].block.hash
      {
        assert (exported + batch)[|exported| + i] == batch[i] && (exported + batch)[|exported| + j] == batch[j];
      }
    }
    LoadIndexAppend(index, IndexRows(batch));
    IndexedAfterFlush(LoadIndex(index), IndexRows(batch), batch);
    forall h { InBatchConcat(exported, batch, h); }
  }

  lemma WrittenAfterCheckpoint(p: Quad<PF.Files>, q: Quad<PF.Files>, batch: seq<Staged>, exported: seq<Staged>)
    requires WrittenIs(p, exported)
    requires forall k :: q.At(k).written == p.At(k).written + RowsFor(batch, k)
    ensures WrittenIs(q, exported + batch)
  {
    forall k { RowsForConcat(exported, batch, k); }
  }

  lemma CheckpointIsExact(t: Tree, cfg: Config, mode: PF.Mode, chain: seq<Block>, w: Walk, exported: seq<Staged>)
    requires ExactWalk(t, chain, w, exported)
    ensures ExactWalk(t, chain, Checkpoint(cfg, mode, w), exported + w.batch)
  {
    hide DoAll, CheckpointActs, LoadIndex, RowsFor, IndexIs, Distinct;
    var e := DoAll(w.d, CheckpointActs(cfg, mode, w));
    var all := exported + w.batch;
    CheckpointFacts(cfg, mode, w);
    IndexAfterCheckpoint(w.d.index, w.batch, exported);
    WrittenAfterCheckpoint(w.d.parts, e.parts, w.batch, exported);
    forall i | 0 <= i < |all|
      ensures InTree(t, all[i].block)
    {
      if i >= |exported| { assert all[i] == w.batch[i - |exported|]; }
    }
    assert all + [] == all;
  }

  // --- Visit ---------------------------------------------------------------

  lemma StageIsExact(t: Tree, exported: seq<Staged>, batch: seq<Staged>, idx: ByHash, s: Staged)
    requires Distinct(exported + batch) && IndexIs(idx, exported)
    requires NeedsExport(idx, IndexRows(batch), s.block.hash)
    ensures Distinct(exported + (batch + [s]))
  {
    var h := s.block.hash;
    assert h !in idx;
    assert !InBatch(exported, |exported|, h);
    assert !HasStaged(IndexRows(batch), h) by {
      var found := FindStaged(IndexRows(batch), h);
      assert found.Some? ==> found.value in IndexRows(batch);
    }
    var all := exported + (batch + [s]);
    assert all == (exported + batch) + [s];
    forall i, j | 0 <= i < j < |all|
      ensures all[i].block.hash != all[j].block.hash
    {
      if j == |all| - 1 {
        if i < |exported| {
          assert all[i] == exported[i];
        } else {
          assert all[i] == batch[i - |exported|];
          assert IndexRows(batch)[i - |exported|].hash != h;
        }
      } else {
        assert all[i] == (exported + batch)[i] && all[j] == (exported + batch)[j];
      }
    }
  }

  lemma VisitIsExact(t: Tree, chain: seq<Block>, w: Walk, exported: seq<Staged>)
    requires WellFormedTree(t) && ActiveChain(t, chain) && ExactWalk(t, chain, w, exported)
    requires w.at.height + 1 < |chain|
    ensures ExactWalk(t, chain, Visit(w, chain[w.at.height + 1]), exported)
  {
    var b := chain[w.at.height + 1];
    var v := Visit(w, b);
    assert InTree(t, b) && b.height == w.at.height + 1;
    if v.batch != w.batch {
      var s := v.batch[|w.batch|];
      assert v.batch == w.batch + [s];
      StageIsExact(t, exported, w.batch, LoadIndex(w.d.index), s);
    }
  }

  ghost predicate SomeExactWalk(t: Tree, chain: seq<Block>, w: Walk) {
    exists exported :: ExactWalk(t, chain, w, exported)
  }

  lemma VisitStepIsExact(t: Tree, cfg: Config, mode: PF.Mode, chain: seq<Block>, w: Walk)
    requires WellFormedTree(t) && ActiveChain(t, chain) && SomeExactWalk(t, chain, w)
    requires w.at.height + 1 < |chain|
    ensures var v := VisitAndCheckpoint(cfg, mode, w, chain[w.at.height + 1]);
            SomeExactWalk(t, chain, v) && v.at.height == w.at.height + 1
  {
    var exported :| ExactWalk(t, chain, w, exported);
    var v := Visit(w, chain[w.at.height + 1]);
    assert chain[w.at.height + 1].height == w.at.height + 1;
    VisitIsExact(t, chain, w, exported);
    if CheckpointDue(cfg, mode, v.processed) {
      CheckpointIsExact(t, cfg, mode, chain, v, exported);
    }
  }

  lemma LoopIsExact(t: Tree, cfg: Config, mode: PF.Mode, chain: seq<Block>, w: Walk, n: nat)
    requires WellFormedTree(t) && ActiveChain(t, chain) && SomeExactWalk(t, chain, w)
    requires w.at.height + 1 + n <= |chain|
    ensures SomeExactWalk(t, chain, VisitAll(cfg, mode, w, chain[w.at.height + 1..w.at.height + 1 + n]))
  {
    var step := (v, b) => VisitAndCheckpoint(cfg, mode, v, b);
    var Inv := v => SomeExactWalk(t, chain, v);
    forall v: Walk, b: Block {:trigger step(v, b)}
      | Inv(v) && w.at.height <= v.at.height && v.at.height + 1 < |chain| && b == chain[v.at.height + 1]
      ensures Inv(step(v, b)) && step(v, b).at.height == v.at.height + 1
    {
      VisitStepIsExact(t, cfg, mode, chain, v);
    }
    FoldInduction(step, chain, w, n, Inv);
  }

  // --- Before the loop -----------------------------------------------------

  /** Nothing to seed and nothing stale. */
  lemma NothingToSeed(t: Tree, d: DiskState, picks: Picks, exported: seq<Staged>)
    requires Exact(t, d, exported) && ValidPicks(picks, d)
    ensures Locate(d, picks.top) == Located([], d.current)
    ensures picks.stale == None
  {
    if d.current.None? {
      assert d.parts.blocks.open.Keys + d.parts.blocks.exported.Keys == {};
    }
  }

  /** What the steps before the loop leave alone. */
  ghost predicate Kept(d: DiskState, e: DiskState) {
    e.parts == d.parts && e.index == d.index && (d.current.Some? ==> e.current.Some?)
  }

  lemma KeptIsExact(t: Tree, d: DiskState, e: DiskState, exported: seq<Staged>)
    requires Exact(t, d, exported) && Kept(d, e)
    ensures Exact(t, e, exported)
  {
  }

  lemma EnterKeeps(t: Tree, cfg: Config, node: Node, d: DiskState, p: Prep)
    requires Sound(t, d) && p.Ready? && AllHarmless(p.acts)
    requires OnChain(t, LoadIndex(d.index), node.chain, p.at)
    ensures var q := Enter(cfg, node, None, p);
            && Kept(d, DoAll(d, q.acts))
            && (q.Ready? ==> q.at == p.at && DoAll(d, q.acts).current == d.current)
  {
    HarmlessKeepsSound(t, d, p.acts);
    var e := DoAll(d, p.acts);
    SavePointerDoes(e, p.at);
    FlushFlagsDoes(DoAll(e, SavePointer(p.at)), p.flags);
    DoAppend(d, p.acts, SavePointer(p.at));
    DoAppend(d, p.acts + SavePointer(p.at), FlushFlags(p.flags));
  }

  /** What the steps before the loop do from disk `d`. */
  ghost predicate PrepKeeps(t: Tree, chain: seq<Block>, d: DiskState, p: Prep) {
    var e := DoAll(d, p.acts);
    && Kept(d, e)
    && (p.Ready? ==>
          && e.current == d.current
          && OnChain(t, LoadIndex(d.index), chain, p.at)
          && (p.at == NOWHERE ==> d.current == None))
  }

  lemma ReconcileKeeps(t: Tree, cfg: Config, node: Node, d: DiskState, flags: Flags)
    requires WellFormedTree(t) && ActiveChain(t, node.chain) && Sound(t, d)
    ensures var p := Reconcile(cfg, node, LoadIndex(d.index), flags, d.current);
            PrepKeeps(t, node.chain, d, if p.Halt? then p else Enter(cfg, node, None, p))
  {
    hide Recover, PF.Consistent, NotAhead, FilesClosed, Enter;
    var p := Reconcile(cfg, node, LoadIndex(d.index), flags, d.current);
    ReconcileOnChain(t, cfg, node, LoadIndex(d.index), flags, d.current);
    if p.Halt? {
      HarmlessKeepsSound(t, d, p.acts);
    } else {
      EnterKeeps(t, cfg, node, d, p);
    }
  }

  lemma PrefixKeeps(t: Tree, chain: seq<Block>, d: DiskState, a: Action, p: Prep)
    requires a.LatestReplace? && PrepKeeps(t, chain, Do(d, a), p)
    ensures PrepKeeps(t, chain, d, Prefix([a], p))
  {
    DoOne(d, a);
    DoAppend(d, [a], p.acts);
  }

  lemma LatestKeepsSound(t: Tree, d: DiskState, a: Action)
    requires Sound(t, d) && a.LatestReplace?
    ensures Sound(t, Do(d, a))
  {
  }

  lemma NothingKept(t: Tree, chain: seq<Block>, d: DiskState, flags: Flags, cfg: Config)
    ensures forall outcome, at :: PrepKeeps(t, chain, d, Halt([], flags, outcome, at))
  {
  }

  lemma PrepareKeeps(t: Tree, cfg: Config, node: Node, picks: Picks, d: DiskState, flags: Flags, exported: seq<Staged>)
    requires WellFormedTree(t) && ActiveChain(t, node.chain) && Sound(t, d) && ValidPicks(picks, d)
    requires Exact(t, d, exported)
    ensures PrepKeeps(t, node.chain, d, Prepare(cfg, node, picks, d, flags))
  {
    hide Reconcile, Enter, Sound, PrepKeeps;
    NothingToSeed(t, d, picks, exported);
    NothingKept(t, node.chain, d, flags, cfg);
    var latest := Latest(cfg, node);
    if node.ok(BlockCount) && latest >= 0 && node.ok(LatestHash) {
      var a := LatestReplace(Pointer(latest, node.chain[latest].hash));
      var e := Do(d, a);
      DoOne(d, a);
      assert [a] + [] == [a];
      LatestKeepsSound(t, d, a);
      ReconcileKeeps(t, cfg, node, e, flags);
      var p := Reconcile(cfg, node, LoadIndex(e.index), flags, d.current);
      PrefixKeeps(t, node.chain, d, a, if p.Halt? then p else Enter(cfg, node, None, p));
    }
  }

  // --- The pass ------------------------------------------------------------

  ghost predicate SomeExact(t: Tree, d: DiskState) {
    exists exported :: Exact(t, d, exported)
  }

  lemma ExactIsDistinct(t: Tree, d: DiskState, exported: seq<Staged>)
    requires Exact(t, d, exported)
    ensures Distinct(exported)
  {
  }

  lemma StartIsExact(t: Tree, node: Node, d: DiskState, p: Prep)
    requires WellFormedTree(t) && ActiveChain(t, node.chain)
    requires p.Ready? && SomeExact(t, DoAll(d, p.acts))
    requires OnChain(t, LoadIndex(d.index), node.chain, p.at)
    ensures SomeExactWalk(t, node.chain, StartWalk(node, d, p))
  {
    hide Exact, Distinct, DoAll;
    var exported :| Exact(t, DoAll(d, p.acts), exported);
    assert exported + [] == exported;
    ExactIsDistinct(t, DoAll(d, p.acts), exported);
    if p.at.hash.Some? {
      assert InTree(t, node.chain[p.at.height]);
    }
    assert ExactWalk(t, node.chain, StartWalk(node, d, p), exported);
  }

  lemma FinishIsExact(t: Tree, cfg: Config, mode: PF.Mode, chain: seq<Block>, d: DiskState, w: Walk, ending: Ending,
                      latest: int)
    requires SomeExactWalk(t, chain, w) && w.d == DoAll(d, w.acts)
    ensures SomeExact(t, DoAll(d, FinishWalk(cfg, mode, w, ending, latest).acts))
  {
    var exported :| ExactWalk(t, chain, w, exported);
    if !ending.Failed? {
      CheckpointIsExact(t, cfg, mode, chain, w, exported);
      DoAppend(d, w.acts, CheckpointActs(cfg, mode, w));
    }
  }

  lemma PassIsExact(t: Tree, cfg: Config, node: Node, workers: nat, stopAt: nat, picks: Picks, d: DiskState,
                    flags: Flags)
    requires WellFormedTree(t) && Stable(t, node) && Sound(t, d) && ValidPicks(picks, d)
    requires SomeExact(t, d)
    ensures SomeExact(t, DoAll(d, RunPass(cfg, node, workers, stopAt, picks, d, flags).acts))
  {
    var exported :| Exact(t, d, exported);
    var p := Prepare(cfg, node, picks, d, flags);
    PrepareKeeps(t, cfg, node, picks, d, flags, exported);
    KeptIsExact(t, d, DoAll(d, p.acts), exported);
    if p.Ready? {
      StartIsExact(t, node, d, p);
      LoopResultIsExact(t, cfg, node, workers, stopAt, d, p);
    }
  }

  lemma LoopEndsExact(t: Tree, cfg: Config, mode: PF.Mode, chain: seq<Block>, d: DiskState, w: Walk, from: nat, n: nat,
                      ending: Ending, latest: int)
    requires WellFormedTree(t) && ActiveChain(t, chain) && SomeExactWalk(t, chain, w) && w.d == DoAll(d, w.acts)
    requires from == w.at.height + 1 && from + n <= |chain|
    ensures var v := VisitAll(cfg, mode, w, chain[from..from + n]);
            SomeExact(t, DoAll(d, FinishWalk(cfg, mode, v, ending, latest).acts))
  {
    LoopIsExact(t, cfg, mode, chain, w, n);
    LoopTracksDisk(cfg, mode, chain, d, w, n);
    FinishIsExact(t, cfg, mode, chain, d, VisitAll(cfg, mode, w, chain[from..from + n]), ending, latest);
  }

  lemma StretchIsExact(t: Tree, cfg: Config, node: Node, d: DiskState, p: Prep, n: nat, ending: Ending)
    requires WellFormedTree(t) && ActiveChain(t, node.chain) && p.Ready?
    requires SomeExactWalk(t, node.chain, StartWalk(node, d, p))
    requires p.at.height + 1 + n <= |node.chain|
    ensures SomeExact(t, DoAll(d, StretchResult(cfg, node, d, p, n, ending).acts))
  {
    hide SomeExactWalk, SomeExact, VisitAll, FinishWalk, ModeFor, DoAll, ActiveChain;
    var w := StartWalk(node, d, p);
    LoopEndsExact(t, cfg, ModeFor(cfg, p.at, Latest(cfg, node)), node.chain, d, w, p.at.height + 1, n, ending,
                  Latest(cfg, node));
  }

  lemma LoopResultIsExact(t: Tree, cfg: Config, node: Node, workers: nat, stopAt: nat, d: DiskState, p: Prep)
    requires WellFormedTree(t) && Stable(t, node) && p.Ready? && p.at.height < |node.chain|
    requires SomeExactWalk(t, node.chain, StartWalk(node, d, p))
    ensures SomeExact(t, DoAll(d, RunLoop(cfg, node, workers, stopAt, d, p).acts))
  {
    var Good := (r: PassResult) => SomeExact(t, DoAll(d, r.acts));
    forall n: nat, ending {:trigger StretchResult(cfg, node, d, p, n, ending)} | p.at.height + 1 + n <= |node.chain|
      ensures Good(StretchResult(cfg, node, d, p, n, ending))
    {
      StretchIsExact(t, cfg, node, d, p, n, ending);
    }
    LoopRule(t, cfg, node, workers, stopAt, d, p, Good);
  }

  lemma LoopTracksDisk(cfg: Config, mode: PF.Mode, chain: seq<Block>, d: DiskState, w: Walk, n: nat)
    requires w.d == DoAll(d, w.acts) && w.at.height + 1 + n <= |chain|
    requires forall i :: 0 <= i < |chain| ==> chain[i].height == i
    ensures var v := VisitAll(cfg, mode, w, chain[w.at.height + 1..w.at.height + 1 + n]);
            v.d == DoAll(d, v.acts)
  {
    hide DoAll, Checkpoint, Visit;
    var step := (v, b) => VisitAndCheckpoint(cfg, mode, v, b);
    var Inv := (v: Walk) => v.d == DoAll(d, v.acts);
    forall v: Walk, b: Block {:trigger step(v, b)}
      | Inv(v) && w.at.height <= v.at.height && v.at.height + 1 < |chain| && b == chain[v.at.height + 1]
      ensures Inv(step(v, b)) && step(v, b).at.height == v.at.height + 1
    {
      StepTracksDisk(cfg, mode, d, v, b);
    }
    FoldInduction(step, chain, w, n, Inv);
  }

  lemma StepTracksDisk(cfg: Config, mode: PF.Mode, d: DiskState, w: Walk, b: Block)
    requires w.d == DoAll(d, w.acts)
    ensures var v := VisitAndCheckpoint(cfg, mode, w, b);
            v.d == DoAll(d, v.acts) && v.at.height == b.height
  {
    hide DoAll, CheckpointActs;
    var u := Visit(w, b);
    DoAppend(d, u.acts, CheckpointActs(cfg, mode, u));
  }

  // --- Runs ----------------------------------------------------------------

  lemma ReducedExact(t: Tree, e: DiskState, d: DiskState)
    requires SomeExact(t, d) && DiskReduced(e, d)
    ensures SomeExact(t, e)
  {
    var exported :| Exact(t, d, exported);
    forall k
      ensures e.parts.At(k).written == RowsFor(exported, k)
    {
      assert PR.Reduced(e.parts.At(k), d.parts.At(k));
    }
    assert PR.Reduced(e.parts.At(Blocks), d.parts.At(Blocks));
    if d.current.None? {
      assert e.parts.blocks.exported.Keys == {};
    }
    assert Exact(t, e, exported);
  }

  ghost predicate NoKills(events: seq<PassEvent>) {
    forall i :: 0 <= i < |events| ==> events[i].cut == None
  }

  lemma StepIsExact(t: Tree, cfg: Config, p: Process, e: PassEvent)
    requires WellFormedTree(t) && Sound(t, p.d) && SomeExact(t, p.d)
    requires ValidEvent(t, cfg, p, e) && e.cut == None
    ensures SomeExact(t, Step(t, cfg, p, e).d)
  {
    PassIsExact(t, cfg, e.node, e.workers, e.stopAt, e.picks, p.d, p.flags);
    WovenReduces(p.d, Performed(cfg, p, e), e.eats);
    ReducedExact(t, Step(t, cfg, p, e).d, DoAll(p.d, Performed(cfg, p, e)));
  }

  lemma {:induction false} RunIsExact(t: Tree, cfg: Config, p: Process, events: seq<PassEvent>)
    requires WellFormedTree(t) && Sound(t, p.d) && SomeExact(t, p.d)
    requires ValidRun(t, cfg, p, events) && NoKills(events)
    ensures SomeExact(t, Run(t, cfg, p, events).d)
    decreases |events|
  {
    hide RunPass, Sound, Step, ValidEvent, SomeExact;
    if events != [] {
      StepIsExact(t, cfg, p, events[0]);
      StepKeepsSound(t, cfg, p, events[0]);
      RunIsExact(t, cfg, Step(t, cfg, p, events[0]), events[1..]);
    }
  }

  lemma EmptyIsExact(t: Tree)
    ensures SomeExact(t, EMPTY_DISK)
  {
    assert Exact(t, EMPTY_DISK, []);
  }

  lemma ExactStale(t: Tree, d: DiskState, picks: Picks)
    requires SomeExact(t, d) && ValidPicks(picks, d)
    ensures picks.stale == None
  {
    var exported :| Exact(t, d, exported);
    NothingToSeed(t, d, picks, exported);
  }

  /** Nothing is ever stale, so no pass rewinds. */
  lemma {:induction false} NeverRewinds(t: Tree, cfg: Config, p: Process, events: seq<PassEvent>)
    requires WellFormedTree(t) && Sound(t, p.d) && SomeExact(t, p.d)
    requires ValidRun(t, cfg, p, events) && NoKills(events)
    ensures NeverAtRisk(t, cfg, p, events)
    decreases |events|
  {
    hide RunPass, Sound, SomeExact, Step, Stable, DoWoven, DiskReduced;
    if events != [] {
      ExactStale(t, p.d, events[0].picks);
      StepIsExact(t, cfg, p, events[0]);
      StepKeepsSound(t, cfg, p, events[0]);
      NeverRewinds(t, cfg, Step(t, cfg, p, events[0]), events[1..]);
    }
  }

  lemma {:induction false} RowIsWritten(batch: seq<Staged>, i: nat)
    requires i < |batch|
    ensures RowsOf(batch[i].block, batch[i].sincePrev, Blocks)[0] in RowsFor(batch, Blocks)
    decreases |batch|
  {
    var n := |batch| - 1;
    if i < n {
      RowIsWritten(batch[..n], i);
    } else {
      var rows := RowsOf(batch[n].block, batch[n].sincePrev, Blocks);
      assert rows[0] in rows;
    }
  }

  lemma GapsAreTrue(t: Tree, cfg: Config, events: seq<PassEvent>, exported: seq<Staged>)
    requires WellFormedTree(t) && ValidRun(t, cfg, FRESH, events) && NoKills(events) && AllTruthful(t, events)
    requires Exact(t, Run(t, cfg, FRESH, events).d, exported)
    ensures forall i :: 0 <= i < |exported| ==> TrueRows(t, exported[i])
  {
    hide Run, ValidRun, Sound, RowsFor, Distinct, IndexIs;
    EmptyIsSound(t);
    EmptyIsExact(t);
    NeverRewinds(t, cfg, FRESH, events);
    RowsHaveTrueGaps(t, cfg, events);
    forall i | 0 <= i < |exported|
      ensures TrueRows(t, exported[i])
    {
      RowIsWritten(exported, i);
      assert TrueRow(t, RowsOf(exported[i].block, exported[i].sincePrev, Blocks)[0]);
    }
  }

  /** Every run without kills: there is one sequence of distinct blocks,
      exactly the indexed ones, such that the files of each of the four logical
      CSVs, exported parts in number order and then the open part, are the
      concatenation of these blocks' rows; with the true time since the previous
      block, if the headers carry the true times. */
  lemma ExportedExactlyOnce(t: Tree, cfg: Config, events: seq<PassEvent>)
    requires WellFormedTree(t) && ValidRun(t, cfg, FRESH, events) && NoKills(events)
    ensures var d := Run(t, cfg, FRESH, events).d;
            exists exported: seq<Staged> ::
              && (forall i :: 0 <= i < |exported| ==> InTree(t, exported[i].block))
              && (AllTruthful(t, events) ==> forall i :: 0 <= i < |exported| ==> TrueRows(t, exported[i]))
              && Distinct(exported)
              && (forall h :: h in LoadIndex(d.index) <==> InBatch(exported, |exported|, h))
              && (forall k :: FilesHold(d.parts.At(k), RowsFor(exported, k)))
  {
    hide Run, ValidRun, Sound, TrueRows, Distinct, FilesHold, AllOrderly, AllTruthful, Exact, InTree, InBatch,
      LoadIndex, RowsFor;
    EmptyIsSound(t);
    EmptyIsExact(t);
    EmptyIsAllOrderly();
    RunIsExact(t, cfg, FRESH, events);
    RunKeepsOrder(t, cfg, FRESH, events);
    var d := Run(t, cfg, FRESH, events).d;
    var exported :| Exact(t, d, exported);
    ExactFiles(t, d, exported);
    if AllTruthful(t, events) {
      GapsAreTrue(t, cfg, events, exported);
    }
  }

  lemma ExactFiles(t: Tree, d: DiskState, exported: seq<Staged>)
    requires Exact(t, d, exported) && AllOrderly(d.parts)
    ensures forall i :: 0 <= i < |exported| ==> InTree(t, exported[i].block)
    ensures Distinct(exported) && forall h :: h in LoadIndex(d.index) <==> InBatch(exported, |exported|, h)
    ensures forall k :: FilesHold(d.parts.At(k), RowsFor(exported, k))
  {
    hide FilesHold, AllOrderly, RowsFor;
    FilesOfAll(d.parts, exported);
  }

  lemma FilesOfAll(parts: Quad<PF.Files>, exported: seq<Staged>)
    requires WrittenIs(parts, exported) && AllOrderly(parts)
    ensures forall k :: FilesHold(parts.At(k), RowsFor(exported, k))
  {
    hide FilesHold, PR.Orderly;
    forall k
      ensures FilesHold(parts.At(k), RowsFor(exported, k))
    {
      OrderlyFilesHold(parts.At(k));
    }
  }
}
