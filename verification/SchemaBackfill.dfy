/** Blocks exported under an older schema: what one pass re-exports, and when
    nothing of them is left. */
module SchemaBackfill {
  import opened Basics
  import opened Chain
  import opened IndexFile
  import opened DiskModel
  import opened Pass
  import opened PassFacts
  import opened CrashSafety
  import EO = ExactlyOnce
  import PF = PartFiles

  ghost predicate Current(idx: ByHash, h: Hash) {
    h in idx && idx[h].version >= CURRENT_SCHEMA
  }

  ghost predicate Stale(idx: ByHash, h: Hash) {
    h in idx && idx[h].version < CURRENT_SCHEMA
  }

  /** The block is on the chain, at or below height `top`. */
  ghost predicate OnChainUpTo(chain: seq<Block>, h: Hash, top: int) {
    exists i :: 0 <= i < |chain| && i <= top && chain[i].hash == h
  }

  /** Of the `n` blocks from height `start` on, those the index does not have at
      the current schema. */
  ghost function Missing(chain: seq<Block>, idx: ByHash, start: nat, n: nat): (blocks: seq<Block>)
    requires start + n <= |chain|
    ensures forall b :: b in blocks ==> !Current(idx, b.hash)
  {
    if n == 0 then []
    else
      Missing(chain, idx, start, n - 1)
      + (if Current(idx, chain[start + n - 1].hash) then [] else [chain[start + n - 1]])
  }

  lemma {:induction false} MissingIs(chain: seq<Block>, idx: ByHash, start: nat, n: nat)
    requires start + n <= |chain|
    ensures forall b :: b in Missing(chain, idx, start, n) <==>
              exists i :: start <= i < start + n && chain[i] == b && !Current(idx, b.hash)
  {
    if n > 0 {
      MissingIs(chain, idx, start, n - 1);
    }
  }

  function BlocksOf(batch: seq<Staged>): seq<Block> {
    seq(|batch|, i requires 0 <= i < |batch| => batch[i].block)
  }

  lemma BlocksConcat(xs: seq<Staged>, ys: seq<Staged>)
    ensures BlocksOf(xs + ys) == BlocksOf(xs) + BlocksOf(ys)
  {
  }

  lemma ChainDistinct(t: Tree, chain: seq<Block>, i: nat, j: nat)
    requires ActiveChain(t, chain) && i < |chain| && j < |chain|
    ensures chain[i].hash == chain[j].hash ==> i == j
  {
    assert InTree(t, chain[i]) && InTree(t, chain[j]) && chain[i].height == i && chain[j].height == j;
  }

  /** From disk `d0` the walk exported `done` and staged the rest of what was
      missing, in height order. */
  ghost predicate Exporting(chain: seq<Block>, d0: DiskState, start: nat, w: Walk, done: seq<Staged>) {
    && w.d.index == d0.index + IndexRows(done)
    && (forall k :: w.d.parts.At(k).written == d0.parts.At(k).written + RowsFor(done, k))
    && start <= w.at.height + 1 <= |chain|
    && BlocksOf(done + w.batch) == Missing(chain, LoadIndex(d0.index), start, w.at.height + 1 - start)
  }

  ghost predicate SomeExporting(chain: seq<Block>, d0: DiskState, start: nat, w: Walk) {
    exists done :: Exporting(chain, d0, start, w, done)
  }

  lemma CheckpointExports(cfg: Config, mode: PF.Mode, chain: seq<Block>, d0: DiskState, start: nat, w: Walk,
                          done: seq<Staged>)
    requires Exporting(chain, d0, start, w, done)
    ensures Exporting(chain, d0, start, Checkpoint(cfg, mode, w), done + w.batch)
  {
    hide CheckpointActs, DoAll, Missing, RowsFor, LoadIndex;
    CheckpointFacts(cfg, mode, w);
    var all := done + w.batch;
    assert IndexRows(all) == IndexRows(done) + IndexRows(w.batch);
    assert d0.index + IndexRows(all) == w.d.index + IndexRows(w.batch);
    forall k
      ensures Checkpoint(cfg, mode, w).d.parts.At(k).written == d0.parts.At(k).written + RowsFor(all, k)
    {
      RowsForConcat(done, w.batch, k);
    }
    assert all + [] == all;
  }

  /** The next block is staged exactly if it is missing. */
  lemma NeededIfMissing(t: Tree, chain: seq<Block>, d0: DiskState, start: nat, w: Walk, done: seq<Staged>)
    requires ActiveChain(t, chain) && Exporting(chain, d0, start, w, done) && w.at.height + 1 < |chain|
    ensures var h := chain[w.at.height + 1].hash;
            NeedsExport(LoadIndex(w.d.index), IndexRows(w.batch), h) <==> !Current(LoadIndex(d0.index), h)
  {
    var h, n := chain[w.at.height + 1].hash, w.at.height + 1 - start;
    MissingIs(chain, LoadIndex(d0.index), start, n);
    forall i | 0 <= i < |done + w.batch|
      ensures (done + w.batch)[i].block.hash != h
    {
      var b := BlocksOf(done + w.batch)[i];
      assert b in Missing(chain, LoadIndex(d0.index), start, n);
      var j :| start <= j < start + n && chain[j] == b;
      ChainDistinct(t, chain, j, w.at.height + 1);
    }
    assert forall i :: 0 <= i < |done| ==> done[i] == (done + w.batch)[i];
    assert forall i :: 0 <= i < |w.batch| ==> w.batch[i] == (done + w.batch)[|done| + i];
    LoadIndexAppend(d0.index, IndexRows(done));
    LoadIndexKeys(IndexRows(done));
    assert h !in LoadIndex(IndexRows(done));
    assert !HasStaged(IndexRows(w.batch), h);
  }

  lemma MissingNext(chain: seq<Block>, idx: ByHash, start: nat, n: nat)
    requires start + n < |chain|
    ensures Missing(chain, idx, start, n + 1) ==
            Missing(chain, idx, start, n) + (if Current(idx, chain[start + n].hash) then [] else [chain[start + n]])
  {
  }

  lemma OneBlock(s: Staged)
    ensures BlocksOf([s]) == [s.block]
  {
  }

  lemma VisitExports(t: Tree, chain: seq<Block>, d0: DiskState, start: nat, w: Walk, done: seq<Staged>)
    requires ActiveChain(t, chain) && Exporting(chain, d0, start, w, done) && w.at.height + 1 < |chain|
    ensures Exporting(chain, d0, start, Visit(w, chain[w.at.height + 1]), done)
  {
    hide LoadIndex, NeedsExport, RowsFor, Missing, Current, SetCanonicalIfPresent, BlocksOf;
    var b := chain[w.at.height + 1];
    var v := Visit(w, b);
    assert b.height == w.at.height + 1;
    NeededIfMissing(t, chain, d0, start, w, done);
    MissingNext(chain, LoadIndex(d0.index), start, w.at.height + 1 - start);
    BlocksConcat(done + w.batch, [Staged(b, if w.prevTime.Some? then Some(b.time - w.prevTime.value) else None)]);
    if v.batch != w.batch {
      var s := v.batch[|w.batch|];
      assert v.batch == w.batch + [s] && done + v.batch == (done + w.batch) + [s];
      OneBlock(s);
    }
  }

  lemma LoopExports(t: Tree, cfg: Config, mode: PF.Mode, chain: seq<Block>, d0: DiskState, w: Walk, n: nat)
    requires ActiveChain(t, chain) && w.d == d0 && w.batch == [] && w.at.height + 1 + n <= |chain|
    ensures var v := VisitAll(cfg, mode, w, chain[w.at.height + 1..w.at.height + 1 + n]);
            SomeExporting(chain, d0, w.at.height + 1, v) && v.at.height == w.at.height + n
  {
    hide Visit, Checkpoint;
    var start := w.at.height + 1;
    var step := (v, b) => VisitAndCheckpoint(cfg, mode, v, b);
    var Inv := v => SomeExporting(chain, d0, start, v);
    StartsExporting(chain, d0, w);
    forall v: Walk, b: Block {:trigger step(v, b)}
      | Inv(v) && w.at.height <= v.at.height && v.at.height + 1 < |chain| && b == chain[v.at.height + 1]
      ensures Inv(step(v, b)) && step(v, b).at.height == v.at.height + 1
    {
      StepExports(t, cfg, mode, chain, d0, start, v);
    }
    FoldInduction(step, chain, w, n, Inv);
  }

  lemma StartsExporting(chain: seq<Block>, d0: DiskState, w: Walk)
    requires w.d == d0 && w.batch == [] && w.at.height + 1 <= |chain|
    ensures SomeExporting(chain, d0, w.at.height + 1, w)
  {
    assert d0.index + IndexRows([]) == d0.index;
    forall k
      ensures d0.parts.At(k).written == d0.parts.At(k).written + RowsFor([], k)
    {
      assert d0.parts.At(k).written + [] == d0.parts.At(k).written;
    }
    assert Exporting(chain, d0, w.at.height + 1, w, []);
  }

  lemma StepExports(t: Tree, cfg: Config, mode: PF.Mode, chain: seq<Block>, d0: DiskState, start: nat, w: Walk)
    requires ActiveChain(t, chain) && SomeExporting(chain, d0, start, w) && w.at.height + 1 < |chain|
    ensures var v := VisitAndCheckpoint(cfg, mode, w, chain[w.at.height + 1]);
            SomeExporting(chain, d0, start, v) && v.at.height == w.at.height + 1
  {
    hide Exporting, CheckpointActs;
    var done :| Exporting(chain, d0, start, w, done);
    var v := Visit(w, chain[w.at.height + 1]);
    assert chain[w.at.height + 1].height == w.at.height + 1;
    VisitExports(t, chain, d0, start, w, done);
    if CheckpointDue(cfg, mode, v.processed) {
      CheckpointExports(cfg, mode, chain, d0, start, v, done);
    }
  }

  // --- A pass ------------------------------------------------------------------

  /** The pass exported, after the index rows `base`, exactly the missing blocks
      of the heights from `start` to the end, each once and in order. */
  ghost predicate ExportedMissing(chain: seq<Block>, base: DiskState, e: DiskState, start: nat, top: int,
                                  batch: seq<Staged>) {
    && start <= top + 1 <= |chain|
    && BlocksOf(batch) == Missing(chain, LoadIndex(base.index), start, top + 1 - start)
    && e.index == base.index + IndexRows(batch)
    && forall k :: e.parts.At(k).written == base.parts.At(k).written + RowsFor(batch, k)
  }

  ghost predicate Reexported(cfg: Config, node: Node, base: DiskState, d: DiskState, start: nat, r: PassResult) {
    r.outcome.CaughtUp? ==>
      exists batch :: ExportedMissing(node.chain, base, DoAll(d, r.acts), start, Latest(cfg, node), batch)
  }

  lemma FinishExports(t: Tree, cfg: Config, mode: PF.Mode, node: Node, base: DiskState, d: DiskState, w: Walk,
                      start: nat, ending: Ending)
    requires SomeExporting(node.chain, base, start, w) && w.d == DoAll(d, w.acts) && w.at.height <= Latest(cfg, node)
    ensures Reexported(cfg, node, base, d, start, FinishWalk(cfg, mode, w, ending, Latest(cfg, node)))
  {
    hide CheckpointActs, DoAll, Missing, RowsFor, LoadIndex;
    var done :| Exporting(node.chain, base, start, w, done);
    var r := FinishWalk(cfg, mode, w, ending, Latest(cfg, node));
    if r.outcome.CaughtUp? {
      CheckpointExports(cfg, mode, node.chain, base, start, w, done);
      DoAppend(d, w.acts, CheckpointActs(cfg, mode, w));
      assert (done + w.batch) + [] == done + w.batch;
      assert ExportedMissing(node.chain, base, DoAll(d, r.acts), start, Latest(cfg, node), done + w.batch);
    }
  }

  lemma StretchExports(t: Tree, cfg: Config, node: Node, d: DiskState, p: Prep, n: nat, ending: Ending)
    requires ActiveChain(t, node.chain) && p.Ready? && p.at.height + n <= Latest(cfg, node)
    ensures Reexported(cfg, node, DoAll(d, p.acts), d, p.at.height + 1, StretchResult(cfg, node, d, p, n, ending))
  {
    hide Reexported, VisitAll, FinishWalk, SomeExporting, DoAll;
    var w, mode := StartWalk(node, d, p), ModeFor(cfg, p.at, Latest(cfg, node));
    LoopExports(t, cfg, mode, node.chain, DoAll(d, p.acts), w, n);
    EO.LoopTracksDisk(cfg, mode, node.chain, d, w, n);
    var v := VisitAll(cfg, mode, w, node.chain[w.at.height + 1..w.at.height + 1 + n]);
    FinishExports(t, cfg, mode, node, DoAll(d, p.acts), d, v, p.at.height + 1, ending);
  }

  lemma LoopReexports(t: Tree, cfg: Config, node: Node, workers: nat, stopAt: nat, d: DiskState, p: Prep)
    requires Stable(t, node) && p.Ready? && p.at.height < Latest(cfg, node)
    ensures Reexported(cfg, node, DoAll(d, p.acts), d, p.at.height + 1, RunLoop(cfg, node, workers, stopAt, d, p))
  {
    hide Reexported, VisitsFrom, ParallelEnd, FinishWalk, VisitAll, StartWalk, ModeFor, DoAll;
    var latest := Latest(cfg, node);
    var end := ParallelEnd(cfg, node, workers, p.at, latest);
    var v := VisitsFrom(node, stopAt, end, latest, p.at.height + 1, p.at.hash);
    VisitsAreChain(t, node, stopAt, end, latest, p.at.height + 1, p.at.hash);
    VisitsStayBelow(node, stopAt, end, latest, p.at.height + 1, p.at.hash);
    StretchExports(t, cfg, node, d, p, |v.blocks|, v.ending);
  }

  /** What the index knows after exporting what was missing. */
  lemma IndexAfterExport(chain: seq<Block>, base: DiskState, e: DiskState, start: nat, top: int, batch: seq<Staged>,
                         h: Hash)
    requires ExportedMissing(chain, base, e, start, top, batch)
    ensures Stale(LoadIndex(e.index), h) <==>
              Stale(LoadIndex(base.index), h) && forall i :: start <= i <= top ==> chain[i].hash != h
  {
    hide LoadIndex, Missing, RowsFor;
    var idx, rows := LoadIndex(base.index), IndexRows(batch);
    LoadIndexAppend(base.index, rows);
    LoadIndexKeys(rows);
    MissingIs(chain, idx, start, top + 1 - start);
    if h in LoadIndex(rows) {
      var j :| 0 <= j < |rows| && rows[j] == LoadIndex(rows)[h];
      assert BlocksOf(batch)[j] in Missing(chain, idx, start, top + 1 - start);
      assert BlocksOf(batch)[j].hash == h;
      var i :| start <= i < top + 1 && chain[i] == BlocksOf(batch)[j];
      assert chain[i].hash == h;
    }
    if i :| start <= i <= top && chain[i].hash == h && Stale(idx, h) {
      assert chain[i] in Missing(chain, idx, start, top + 1 - start);
      var j :| 0 <= j < |batch| && BlocksOf(batch)[j] == chain[i];
      assert rows[j].hash == h && rows[j] in rows;
    }
  }

  /** The loop starts at or below every stale block. */
  ghost predicate StartsBelow(idx: ByHash, at: Cursor) {
    forall h :: Stale(idx, h) ==> at.height < idx[h].height
  }

  lemma RewindStartsBelow(idx: ByHash, at: Cursor, stale: Option<IndexRow>)
    requires IsEarliestStale(idx, stale)
    ensures StartsBelow(idx, Rewind(at, stale))
  {
  }

  lemma AboveTheTop(idx: ByHash, at: Cursor, top: int)
    ensures StartsBelow(idx, at) && at.height >= top ==> forall h :: Stale(idx, h) ==> top < idx[h].height
  {
  }

  /** What preparing from disk `d` means for the index `base` of the seeded disk. */
  ghost predicate Entered(cfg: Config, node: Node, base: DiskState, d: DiskState, p: Prep) {
    var e, idx := DoAll(d, p.acts), LoadIndex(base.index);
    && e.index == base.index && e.parts == base.parts
    && (p.Ready? ==> p.at.height < Latest(cfg, node) && StartsBelow(idx, p.at))
    && (p.Halt? && p.outcome.CaughtUp? ==> forall h :: Stale(idx, h) ==> Latest(cfg, node) < idx[h].height)
  }

  lemma EnterEntered(cfg: Config, node: Node, base: DiskState, stale: Option<IndexRow>, p: Prep)
    requires p.Ready? && IsEarliestStale(LoadIndex(base.index), stale)
    requires AllHarmless(p.acts)
    ensures Entered(cfg, node, base, base, Enter(cfg, node, stale, p))
  {
    hide DoAll, LoadIndex, IsEarliestStale, Rewind, StartsBelow;
    RewindStartsBelow(LoadIndex(base.index), p.at, stale);
    AboveTheTop(LoadIndex(base.index), Rewind(p.at, stale), Latest(cfg, node));
    var from := Rewind(p.at, stale);
    var e := DoAll(base, p.acts);
    HarmlessLeaves(base, p.acts);
    SavePointerDoes(e, from);
    FlushFlagsDoes(DoAll(e, SavePointer(from)), p.flags);
    DoAppend(base, p.acts, SavePointer(from));
    DoAppend(base, p.acts + SavePointer(from), FlushFlags(p.flags));
  }

  lemma ReconcileEntered(cfg: Config, node: Node, base: DiskState, flags: Flags, pointer: Option<Pointer>,
                         stale: Option<IndexRow>)
    requires IsEarliestStale(LoadIndex(base.index), stale)
    ensures var p := Reconcile(cfg, node, LoadIndex(base.index), flags, pointer);
            Entered(cfg, node, base, base, if p.Halt? then p else Enter(cfg, node, stale, p))
  {
    hide Entered, WalkBackFrom, FlagDetached, IsEarliestStale;
    var p := Reconcile(cfg, node, LoadIndex(base.index), flags, pointer);
    assert AllHarmless(p.acts);
    if p.Ready? {
      EnterEntered(cfg, node, base, stale, p);
    } else {
      HaltedEntered(cfg, node, base, p);
    }
  }

  lemma HaltedEntered(cfg: Config, node: Node, base: DiskState, p: Prep)
    requires p.Halt? && p.acts == [] && !p.outcome.CaughtUp?
    ensures Entered(cfg, node, base, base, p)
  {
  }

  lemma PrepareEntered(cfg: Config, node: Node, picks: Picks, d: DiskState, flags: Flags)
    returns (base: DiskState)
    requires ValidPicks(picks, d) && Latest(cfg, node) >= 0
    ensures base.index == DoAll(d, Locate(d, picks.top).acts).index && base.parts == d.parts
    ensures var p := Prepare(cfg, node, picks, d, flags);
            p.Ready? || p.outcome.CaughtUp? ==> Entered(cfg, node, base, d, p)
  {
    hide Entered, Reconcile, Enter, IsEarliestStale;
    var latest, found := Latest(cfg, node), Locate(d, picks.top);
    var begun := [LatestReplace(Pointer(latest, node.chain[latest].hash))] + found.acts;
    base := DoAll(d, begun);
    DoAppend(d, [begun[0]], found.acts);
    DoOne(d, begun[0]);
    SameIndex(d, DoAll(d, [begun[0]]), found.acts);
    if found.acts != [] {
      var a := found.acts[0];
      assert found.acts == [a];
      DoOne(DoAll(d, [begun[0]]), a);
    }
    if node.ok(BlockCount) && node.ok(LatestHash) {
      ReconcileEntered(cfg, node, base, flags, found.pointer, picks.stale);
      var p := Reconcile(cfg, node, LoadIndex(base.index), flags, found.pointer);
      BegunEntered(cfg, node, base, d, begun, if p.Halt? then p else Enter(cfg, node, picks.stale, p));
    }
  }

  lemma BegunEntered(cfg: Config, node: Node, base: DiskState, d: DiskState, begun: seq<Action>, p: Prep)
    requires base == DoAll(d, begun) && Entered(cfg, node, base, base, p)
    ensures Entered(cfg, node, base, d, Prefix(begun, p))
  {
    DoAppend(d, begun, p.acts);
  }

  ghost predicate NoneStale(idx: ByHash) {
    forall h :: !Stale(idx, h)
  }

  ghost predicate AllStaleOnChain(chain: seq<Block>, top: int, idx: ByHash) {
    forall h :: Stale(idx, h) ==> OnChainUpTo(chain, h, top)
  }

  /** `batch` are the blocks exported between `d` and `e`: distinct blocks of
      the chain, none of them current before, all the stale ones among them. */
  ghost predicate Backfilled(chain: seq<Block>, top: int, idx: ByHash, d: DiskState, e: DiskState, batch: seq<Staged>) {
    && Distinct(batch)
    && (forall k :: e.parts.At(k).written == d.parts.At(k).written + RowsFor(batch, k))
    && (forall i :: 0 <= i < |batch| ==> batch[i].block in chain && !Current(idx, batch[i].block.hash))
    && (forall h :: Stale(idx, h) && OnChainUpTo(chain, h, top) ==> InBatch(batch, |batch|, h))
  }

  /** One pass that catches up, from any sound disk.  It exports the blocks that
      the (seeded) index does not have at the current schema, each once and in
      order, and no other block; afterwards nothing is stale exactly if every
      stale block is on the active chain at or below the target height. */
  lemma BackfillCompletesIff(t: Tree, cfg: Config, node: Node, workers: nat, stopAt: nat, picks: Picks, d: DiskState,
                             flags: Flags)
    requires WellFormedTree(t) && Stable(t, node) && Sound(t, d) && ValidPicks(picks, d) && Latest(cfg, node) >= 0
    requires RunPass(cfg, node, workers, stopAt, picks, d, flags).outcome.CaughtUp?
    ensures var e := DoAll(d, RunPass(cfg, node, workers, stopAt, picks, d, flags).acts);
            var idx := LoadIndex(DoAll(d, Locate(d, picks.top).acts).index);
            && (NoneStale(LoadIndex(e.index)) <==> AllStaleOnChain(node.chain, Latest(cfg, node), idx))
            && exists batch :: Backfilled(node.chain, Latest(cfg, node), idx, d, e, batch)
  {
    hide RunLoop, Prepare, Sound, ValidPicks, DoAll, Locate, LoadIndex, NoneStale, AllStaleOnChain, Backfilled,
      ExportedMissing, OnChainUpTo, IndexClosed;
    var base := PrepareEntered(cfg, node, picks, d, flags);
    var p := Prepare(cfg, node, picks, d, flags);
    SeededClosed(t, d, picks);
    if p.Ready? {
      LoopReexports(t, cfg, node, workers, stopAt, d, p);
      var e := DoAll(d, RunLoop(cfg, node, workers, stopAt, d, p).acts);
      var batch :| ExportedMissing(node.chain, DoAll(d, p.acts), e, p.at.height + 1, Latest(cfg, node), batch);
      AfterLoop(t, node.chain, LoadIndex(base.index), DoAll(d, p.acts), e, p.at, Latest(cfg, node), batch);
      SameStart(node.chain, Latest(cfg, node), LoadIndex(base.index), DoAll(d, p.acts), d, e, batch);
    } else {
      NothingExported(t, cfg, node, base, d, p);
    }
  }

  lemma SeededClosed(t: Tree, d: DiskState, picks: Picks)
    requires WellFormedTree(t) && Sound(t, d) && ValidPicks(picks, d)
    ensures IndexClosed(t, LoadIndex(DoAll(d, Locate(d, picks.top).acts).index))
  {
    LocateKeepsSound(t, d, picks.top);
  }

  lemma SameStart(chain: seq<Block>, top: int, idx: ByHash, base: DiskState, d: DiskState, e: DiskState,
                  batch: seq<Staged>)
    requires Backfilled(chain, top, idx, base, e, batch) && base.parts == d.parts
    ensures Backfilled(chain, top, idx, d, e, batch)
  {
  }

  /** A stale block of the chain lies at the height the index gives. */
  lemma StaleHeight(t: Tree, chain: seq<Block>, idx: ByHash, h: Hash, i: nat)
    requires IndexClosed(t, idx) && ActiveChain(t, chain) && h in idx && i < |chain| && chain[i].hash == h
    ensures idx[h].height == i
  {
    assert InTree(t, chain[i]) && chain[i].height == i;
  }

  lemma AfterLoop(t: Tree, chain: seq<Block>, idx: ByHash, base: DiskState, e: DiskState, at: Cursor, top: int,
                  batch: seq<Staged>)
    requires ActiveChain(t, chain) && IndexClosed(t, idx) && idx == LoadIndex(base.index) && StartsBelow(idx, at)
    requires ExportedMissing(chain, base, e, at.height + 1, top, batch)
    ensures NoneStale(LoadIndex(e.index)) <==> AllStaleOnChain(chain, top, idx)
    ensures Backfilled(chain, top, idx, base, e, batch)
  {
    hide ExportedMissing, Backfilled, ActiveChain, IndexClosed, LoadIndex;
    forall h
      ensures Stale(LoadIndex(e.index), h) <==> Stale(idx, h) && !OnChainUpTo(chain, h, top)
    {
      AfterLoopAt(t, chain, idx, base, e, at, top, batch, h);
    }
    AllBackfilled(t, chain, idx, base, e, at, top, batch);
  }

  lemma AfterLoopAt(t: Tree, chain: seq<Block>, idx: ByHash, base: DiskState, e: DiskState, at: Cursor, top: int,
                    batch: seq<Staged>, h: Hash)
    requires ActiveChain(t, chain) && IndexClosed(t, idx) && idx == LoadIndex(base.index) && StartsBelow(idx, at)
    requires ExportedMissing(chain, base, e, at.height + 1, top, batch)
    ensures Stale(LoadIndex(e.index), h) <==> Stale(idx, h) && !OnChainUpTo(chain, h, top)
  {
    hide ExportedMissing, ActiveChain, IndexClosed, LoadIndex;
    IndexAfterExport(chain, base, e, at.height + 1, top, batch, h);
    EndsOnChain(chain, base, e, at.height + 1, top, batch);
    if Stale(idx, h) && OnChainUpTo(chain, h, top) {
      var i :| 0 <= i < |chain| && i <= top && chain[i].hash == h;
      StaleHeight(t, chain, idx, h, i);
    }
  }

  lemma EndsOnChain(chain: seq<Block>, base: DiskState, e: DiskState, start: nat, top: int, batch: seq<Staged>)
    requires ExportedMissing(chain, base, e, start, top, batch)
    ensures start <= top + 1 <= |chain|
  {
  }

  lemma AllBackfilled(t: Tree, chain: seq<Block>, idx: ByHash, base: DiskState, e: DiskState, at: Cursor, top: int,
                      batch: seq<Staged>)
    requires ActiveChain(t, chain) && IndexClosed(t, idx) && idx == LoadIndex(base.index) && StartsBelow(idx, at)
    requires ExportedMissing(chain, base, e, at.height + 1, top, batch)
    ensures Backfilled(chain, top, idx, base, e, batch)
  {
    hide Missing, ActiveChain, IndexClosed, LoadIndex, RowsFor, Current, DistinctBlocks;
    var start := at.height + 1;
    var m := Missing(chain, idx, start, top + 1 - start);
    MissingIs(chain, idx, start, top + 1 - start);
    forall h | Stale(idx, h) && OnChainUpTo(chain, h, top)
      ensures InBatch(batch, |batch|, h)
    {
      var i :| 0 <= i < |chain| && i <= top && chain[i].hash == h;
      StaleHeight(t, chain, idx, h, i);
      StaleIsNotCurrent(idx, h);
      assert chain[i] in m;
      var j :| 0 <= j < |batch| && BlocksOf(batch)[j] == chain[i];
      assert batch[j].block.hash == h;
    }
    forall i | 0 <= i < |batch|
      ensures batch[i].block in chain && !Current(idx, batch[i].block.hash)
    {
      assert BlocksOf(batch)[i] in m;
    }
    MissingDistinct(t, chain, idx, start, top + 1 - start);
    BatchDistinct(batch);
  }

  lemma StaleIsNotCurrent(idx: ByHash, h: Hash)
    ensures Stale(idx, h) ==> !Current(idx, h)
  {
  }

  lemma BatchDistinct(batch: seq<Staged>)
    requires DistinctBlocks(BlocksOf(batch))
    ensures Distinct(batch)
  {
    forall i, j | 0 <= i < j < |batch|
      ensures batch[i].block.hash != batch[j].block.hash
    {
      assert BlocksOf(batch)[i].hash != BlocksOf(batch)[j].hash;
    }
  }

  lemma {:induction false} MissingDistinct(t: Tree, chain: seq<Block>, idx: ByHash, start: nat, n: nat)
    requires ActiveChain(t, chain) && start + n <= |chain|
    ensures DistinctBlocks(Missing(chain, idx, start, n))
  {
    if n > 0 {
      MissingDistinct(t, chain, idx, start, n - 1);
      MissingIs(chain, idx, start, n - 1);
      var before := Missing(chain, idx, start, n - 1);
      var m, last := Missing(chain, idx, start, n), chain[start + n - 1];
      forall i, j | 0 <= i < j < |m|
        ensures m[i].hash != m[j].hash
      {
        assert m[i] == before[i] && m[i] in before;
        if j < |before| {
          assert m[j] == before[j] && before[i].hash != before[j].hash;
        } else {
          assert m[j] == last && j == |before|;
          var k :| start <= k < start + (n - 1) && chain[k] == before[i];
          ChainDistinct(t, chain, k, start + n - 1);
          assert before[i].hash != last.hash;
        }
      }
    }
  }

  lemma NothingExported(t: Tree, cfg: Config, node: Node, base: DiskState, d: DiskState, p: Prep)
    requires p.Halt? && p.outcome.CaughtUp? && Entered(cfg, node, base, d, p) && base.parts == d.parts
    requires ActiveChain(t, node.chain) && IndexClosed(t, LoadIndex(base.index))
    ensures var e, idx := DoAll(d, p.acts), LoadIndex(base.index);
            && e.index == base.index
            && (NoneStale(LoadIndex(e.index)) <==> AllStaleOnChain(node.chain, Latest(cfg, node), idx))
            && Backfilled(node.chain, Latest(cfg, node), idx, d, e, [])
  {
    var e, idx := DoAll(d, p.acts), LoadIndex(base.index);
    forall h | Stale(idx, h)
      ensures !OnChainUpTo(node.chain, h, Latest(cfg, node))
    {
      if i :| 0 <= i < |node.chain| && i <= Latest(cfg, node) && node.chain[i].hash == h {
        StaleHeight(t, node.chain, idx, h, i);
      }
    }
    forall k
      ensures e.parts.At(k).written == d.parts.At(k).written + RowsFor([], k)
    {
      assert d.parts.At(k).written + [] == d.parts.At(k).written;
    }
  }
}
