/** How much a kill can duplicate.  The excess of a row is the number of its
    copies in the logical CSV beyond the one its indexed block accounts for.
    Passes that are not killed leave every excess as it is; a kill raises it by
    at most one, and only for the blocks of the one drain it interrupted. */
module Duplicates {
  import opened Basics
  import opened Chain
  import opened IndexFile
  import opened DiskModel
  import opened Pass
  import opened PassFacts
  import opened CrashSafety
  import opened Runs
  import opened Arithmetic
  import PF = PartFiles
  import PR = PartRuns

  function Copies(rows: seq<Row>, h: Hash, i: nat): nat
    decreases |rows|
  {
    if rows == [] then 0
    else
      var n := |rows| - 1;
      Copies(rows[..n], h, i) + (if rows[n].block == h && rows[n].index == i then 1 else 0)
  }

  lemma {:induction false} CopiesConcat(xs: seq<Row>, ys: seq<Row>, h: Hash, i: nat)
    ensures Copies(xs + ys, h, i) == Copies(xs, h, i) + Copies(ys, h, i)
    decreases |ys|
  {
    if ys == [] {
      assert xs + ys == xs;
    } else {
      var n := |ys| - 1;
      assert (xs + ys)[..|xs + ys| - 1] == xs + ys[..n];
      CopiesConcat(xs, ys[..n], h, i);
    }
  }

  lemma {:induction false} CopiesOfIndexed(rows: seq<Row>, x: Hash, h: Hash, i: nat)
    requires forall j :: 0 <= j < |rows| ==> rows[j].block == x && rows[j].index == j
    ensures Copies(rows, h, i) == if h == x && i < |rows| then 1 else 0
    decreases |rows|
  {
    if rows != [] {
      CopiesOfIndexed(rows[..|rows| - 1], x, h, i);
    }
  }

  /** Whether block `h` has an `i`-th row of kind `k`. */
  predicate HasRow(t: Tree, k: Kind, h: Hash, i: nat) {
    h in t && i < RowCount(t[h], k)
  }

  lemma InBatchSnoc(batch: seq<Staged>, h: Hash)
    requires batch != []
    ensures var n := |batch| - 1;
            InBatch(batch, |batch|, h) <==> InBatch(batch[..n], n, h) || batch[n].block.hash == h
  {
    var n := |batch| - 1;
    if InBatch(batch[..n], n, h) {
      var j :| 0 <= j < n && batch[..n][j].block.hash == h;
      assert batch[j].block.hash == h;
    }
    if InBatch(batch, |batch|, h) && h != batch[n].block.hash {
      var j :| 0 <= j < |batch| && batch[j].block.hash == h;
      assert batch[..n][j].block.hash == h;
    }
  }

  ghost predicate BatchInTree(t: Tree, batch: seq<Staged>) {
    Distinct(batch) && forall j :: 0 <= j < |batch| ==> InTree(t, batch[j].block)
  }

  lemma {:induction false} CopiesInBatch(t: Tree, batch: seq<Staged>, k: Kind, h: Hash, i: nat)
    requires BatchInTree(t, batch)
    ensures Copies(RowsFor(batch, k), h, i) == if InBatch(batch, |batch|, h) && HasRow(t, k, h, i) then 1 else 0
    decreases |batch|
  {
    hide InBatch, RowsOf, HasRow, Distinct, InTree, Copies;
    if batch == [] {
      NotInEmpty(h);
    } else {
      var n := |batch| - 1;
      var s := batch[n];
      FrontInTree(t, batch);
      CopiesInBatch(t, batch[..n], k, h, i);
      CopiesConcat(RowsFor(batch[..n], k), RowsOf(s.block, s.sincePrev, k), h, i);
      CopiesOfOne(t, s, k, h, i);
      InBatchSnoc(batch, h);
      LastIsNew(t, batch);
    }
  }

  lemma FrontInTree(t: Tree, batch: seq<Staged>)
    requires BatchInTree(t, batch) && batch != []
    ensures BatchInTree(t, batch[..|batch| - 1]) && InTree(t, batch[|batch| - 1].block)
  {
  }

  lemma CopiesOfOne(t: Tree, s: Staged, k: Kind, h: Hash, i: nat)
    requires InTree(t, s.block)
    ensures Copies(RowsOf(s.block, s.sincePrev, k), h, i) == if s.block.hash == h && HasRow(t, k, h, i) then 1 else 0
  {
    CopiesOfIndexed(RowsOf(s.block, s.sincePrev, k), s.block.hash, h, i);
  }

  lemma NotInEmpty(h: Hash)
    ensures !InBatch([], 0, h) && forall i :: Copies([], h, i) == 0
  {
  }

  lemma LastIsNew(t: Tree, batch: seq<Staged>)
    requires BatchInTree(t, batch) && batch != []
    ensures var n := |batch| - 1; !InBatch(batch[..n], n, batch[n].block.hash)
  {
  }

  predicate IndexedNow(idx: ByHash, h: Hash) {
    h in idx && idx[h].version >= CURRENT_SCHEMA
  }

  function Due(t: Tree, idx: ByHash, k: Kind, h: Hash, i: nat): nat {
    if IndexedNow(idx, h) && HasRow(t, k, h, i) then 1 else 0
  }

  /** Copies of a row beyond the one its indexed block accounts for. */
  function Excess(t: Tree, d: DiskState, k: Kind, h: Hash, i: nat): int {
    Copies(d.parts.At(k).written, h, i) - Due(t, LoadIndex(d.index), k, h, i)
  }

  ghost predicate SameExcess(t: Tree, d: DiskState, e: DiskState) {
    forall k, h, i: nat :: Excess(t, e, k, h, i) == Excess(t, d, k, h, i)
  }

  /** At most one more copy, and only of rows of the blocks `hit`. */
  ghost predicate OneMore(t: Tree, d: DiskState, e: DiskState, hit: set<Hash>) {
    forall k, h, i: nat ::
      Excess(t, d, k, h, i) <= Excess(t, e, k, h, i) <= Excess(t, d, k, h, i) + (if h in hit then 1 else 0)
  }

  ghost predicate FewMore(t: Tree, d: DiskState, e: DiskState, limit: nat) {
    exists hit: set<Hash> :: |hit| <= limit && OneMore(t, d, e, hit)
  }

  /** Wherever the actions are cut, at most the rows of `limit` blocks have one
      more copy; at the end none has. */
  ghost predicate Bounded(t: Tree, d: DiskState, acts: seq<Action>, limit: nat) {
    && (forall cut :: 0 <= cut <= |acts| ==> FewMore(t, d, DoAll(d, acts[..cut]), limit))
    && SameExcess(t, d, DoAll(d, acts))
  }

  lemma SameIsFewMore(t: Tree, d: DiskState, e: DiskState, limit: nat)
    requires SameExcess(t, d, e)
    ensures FewMore(t, d, e, limit)
  {
    assert OneMore(t, d, e, {});
  }

  lemma FewMoreFrom(t: Tree, d: DiskState, e: DiskState, f: DiskState, limit: nat)
    requires SameExcess(t, d, e) && FewMore(t, e, f, limit)
    ensures FewMore(t, d, f, limit)
  {
    var hit: set<Hash> :| |hit| <= limit && OneMore(t, e, f, hit);
    forall k, h, i: nat
      ensures Excess(t, d, k, h, i) <= Excess(t, f, k, h, i) <= Excess(t, d, k, h, i) + (if h in hit then 1 else 0)
    {
      assert Excess(t, e, k, h, i) == Excess(t, d, k, h, i);
    }
    assert OneMore(t, d, f, hit);
  }

  lemma BoundedSum(t: Tree, d: DiskState, xs: seq<Action>, ys: seq<Action>, limit: nat)
    requires Bounded(t, d, xs, limit) && Bounded(t, DoAll(d, xs), ys, limit)
    ensures Bounded(t, d, xs + ys, limit)
  {
    hide FewMore, SameExcess;
    var acts := xs + ys;
    var e := DoAll(d, xs);
    forall cut | 0 <= cut <= |acts|
      ensures FewMore(t, d, DoAll(d, acts[..cut]), limit)
    {
      if cut <= |xs| {
        assert acts[..cut] == xs[..cut];
      } else {
        assert acts[..cut] == xs + ys[..cut - |xs|];
        DoAppend(d, xs, ys[..cut - |xs|]);
        FewMoreFrom(t, d, e, DoAll(e, ys[..cut - |xs|]), limit);
      }
    }
    DoAppend(d, xs, ys);
    SameTrans(t, d, e, DoAll(e, ys));
  }

  lemma SameTrans(t: Tree, d: DiskState, e: DiskState, f: DiskState)
    requires SameExcess(t, d, e) && SameExcess(t, e, f)
    ensures SameExcess(t, d, f)
  {
  }

  // --- Steps that touch neither rows nor current index rows -------------------

  ghost predicate Silent(t: Tree, d: DiskState, a: Action) {
    SameExcess(t, d, Do(d, a))
  }

  lemma BoundedOne(t: Tree, d: DiskState, a: Action, limit: nat)
    requires Silent(t, d, a)
    ensures Bounded(t, d, [a], limit)
  {
    DoOne(d, a);
    BoundedNone(t, d, limit);
    SameIsFewMore(t, d, Do(d, a), limit);
    forall cut | 0 <= cut <= |[a]|
      ensures FewMore(t, d, DoAll(d, [a][..cut]), limit)
    {
      if cut == 1 { assert [a][..1] == [a]; } else { assert [a][..0] == []; }
    }
  }

  lemma BoundedNone(t: Tree, d: DiskState, limit: nat)
    ensures Bounded(t, d, [], limit)
  {
    SameIsFewMore(t, d, d, limit);
  }

  predicate KeepsRows(a: Action) {
    a.StatusReplace? || a.LatestReplace? || a.ReorgLogWrite? || a.CurrentReplace?
  }

  lemma {:induction false} KeepingIsBounded(t: Tree, d: DiskState, acts: seq<Action>, limit: nat)
    requires forall a :: a in acts ==> KeepsRows(a)
    ensures Bounded(t, d, acts, limit) && DoAll(d, acts).index == d.index && DoAll(d, acts).parts == d.parts
    decreases |acts|
  {
    if acts == [] {
      BoundedNone(t, d, limit);
    } else {
      hide Bounded;
      var n := |acts| - 1;
      KeepingIsBounded(t, d, acts[..n], limit);
      var e := DoAll(d, acts[..n]);
      assert KeepsRows(acts[n]);
      BoundedOne(t, e, acts[n], limit);
      DoOne(e, acts[n]);
      BoundedSum(t, d, acts[..n], [acts[n]], limit);
      assert acts[..n] + [acts[n]] == acts;
    }
  }

  // --- Draining ---------------------------------------------------------------

  lemma TwoPrefix(f: PF.Files, close: seq<PF.PartAction>, a: PF.PartAction, b: PF.PartAction, cut: nat)
    requires forall c :: c in close ==> c.HandOff? || c.Persist?
    requires cut <= |close| + 2
    ensures var g := PF.ApplyAll(f, (close + [a, b])[..cut]);
            g.written == f.written
            + (if cut <= |close| then [] else if cut == |close| + 1 then RowsIn(a) else RowsIn(a) + RowsIn(b))
  {
    var acts := close + [a, b];
    if cut <= |close| {
      assert acts[..cut] == close[..cut];
      ClosingWritesNothing(f, acts[..cut]);
    } else if cut == |close| + 1 {
      assert acts[..cut] == close + [a];
      ClosingWritesNothing(f, close);
      PF.ApplyAppend(f, close, [a]);
      PF.ApplyOne(PF.ApplyAll(f, close), a);
    } else {
      assert acts[..cut] == acts;
      TwoWrite(f, close, a, b);
    }
  }

  lemma WriteShape(cfg: PF.PartConfig, f: PF.Files, m: PF.Counter, mode: PF.Mode, rows: seq<Row>)
    returns (close: seq<PF.PartAction>, a: PF.PartAction, b: PF.PartAction)
    requires rows != []
    ensures PF.WriteActions(cfg, f, m, mode, rows) == close + [a, b]
    ensures forall c :: c in close ==> c.HandOff? || c.Persist?
    ensures (RowsIn(a) == rows && RowsIn(b) == []) || (RowsIn(a) == [] && RowsIn(b) == rows)
  {
    var acts := PF.WriteActions(cfg, f, m, mode, rows);
    var n := |acts| - 2;
    close, a, b := acts[..n], acts[n], acts[n + 1];
  }

  lemma WritePrefix(cfg: PF.PartConfig, f: PF.Files, m: PF.Counter, mode: PF.Mode, rows: seq<Row>, cut: nat)
    requires cut <= |PF.WriteActions(cfg, f, m, mode, rows)|
    ensures var g := PF.ApplyAll(f, PF.WriteActions(cfg, f, m, mode, rows)[..cut]);
            g.written == f.written || g.written == f.written + rows
  {
    hide PF.WriteActions;
    if rows != [] {
      var close, a, b := WriteShape(cfg, f, m, mode, rows);
      TwoPrefix(f, close, a, b, cut);
    } else {
      NoRowsNoActions(cfg, f, m, mode);
    }
  }

  lemma NoRowsNoActions(cfg: PF.PartConfig, f: PF.Files, m: PF.Counter, mode: PF.Mode)
    ensures PF.WriteActions(cfg, f, m, mode, []) == []
  {
  }

  /** A drain cut anywhere has written each logical CSV's rows once or not at
      all. */
  ghost predicate HalfDrained(d: DiskState, batch: seq<Staged>, e: DiskState) {
    && e.index == d.index
    && forall k :: e.parts.At(k).written == d.parts.At(k).written
                   || e.parts.At(k).written == d.parts.At(k).written + RowsFor(batch, k)
  }

  lemma {:induction false} DrainPrefix(cfg: Config, mode: PF.Mode, d: DiskState, batch: seq<Staged>,
                                       kinds: seq<Kind>, cut: nat)
    requires forall i, j :: 0 <= i < j < |kinds| ==> kinds[i] != kinds[j]
    requires cut <= |DrainKinds(cfg, mode, d, batch, kinds)|
    ensures HalfDrained(d, batch, DoAll(d, DrainKinds(cfg, mode, d, batch, kinds)[..cut]))
    decreases |kinds|
  {
    if kinds != [] {
      var n := |kinds| - 1;
      var k := kinds[n];
      var before := DrainKinds(cfg, mode, d, batch, kinds[..n]);
      var acts := DrainKinds(cfg, mode, d, batch, kinds);
      if cut <= |before| {
        assert acts[..cut] == before[..cut];
        DrainPrefix(cfg, mode, d, batch, kinds[..n], cut);
      } else {
        var c := cut - |before|;
        var writes := PF.WriteActions(cfg.parts, d.parts.At(k), PF.Load(d.parts.At(k)), mode, RowsFor(batch, k));
        assert acts[..cut] == before + Tag(k, writes[..c]);
        DoAppend(d, before, Tag(k, writes[..c]));
        DrainKindsOnce(cfg, mode, d, batch, kinds[..n]);
        DoTagged(DoAll(d, before), k, writes[..c]);
        WritePrefix(cfg.parts, d.parts.At(k), PF.Load(d.parts.At(k)), mode, RowsFor(batch, k), c);
      }
    }
  }

  ghost function Hashes(batch: seq<Staged>): set<Hash> {
    set i | 0 <= i < |batch| :: batch[i].block.hash
  }

  lemma {:induction false} FewHashes(batch: seq<Staged>)
    ensures |Hashes(batch)| <= |batch|
    decreases |batch|
  {
    if batch != [] {
      var n := |batch| - 1;
      FewHashes(batch[..n]);
      assert Hashes(batch) == Hashes(batch[..n]) + {batch[n].block.hash};
    }
  }

  ghost predicate GoodBatch(t: Tree, idx: ByHash, batch: seq<Staged>) {
    BatchInTree(t, batch) && forall j :: 0 <= j < |batch| ==> !IndexedNow(idx, batch[j].block.hash)
  }

  lemma HalfDrainedIsOneMore(t: Tree, d: DiskState, batch: seq<Staged>, e: DiskState)
    requires GoodBatch(t, LoadIndex(d.index), batch) && HalfDrained(d, batch, e)
    ensures OneMore(t, d, e, Hashes(batch))
  {
    forall k, h, i: nat
      ensures Excess(t, d, k, h, i) <= Excess(t, e, k, h, i) <= Excess(t, d, k, h, i)
              + (if h in Hashes(batch) then 1 else 0)
    {
      CopiesInBatch(t, batch, k, h, i);
      CopiesConcat(d.parts.At(k).written, RowsFor(batch, k), h, i);
    }
  }

  lemma IndexedAfterFlush(index: seq<IndexRow>, batch: seq<Staged>, h: Hash)
    ensures IndexedNow(LoadIndex(index + IndexRows(batch)), h) <==>
            IndexedNow(LoadIndex(index), h) || InBatch(batch, |batch|, h)
  {
    var rows := IndexRows(batch);
    LoadIndexAppend(index, rows);
    LoadIndexKeys(rows);
    if InBatch(batch, |batch|, h) {
      var j :| 0 <= j < |batch| && batch[j].block.hash == h;
      assert rows[j] in rows;
    }
    if h in LoadIndex(rows) {
      var m :| 0 <= m < |rows| && rows[m] == LoadIndex(rows)[h];
      assert batch[m].block.hash == h;
    }
  }

  /** Once the index is flushed the copies are accounted for. */
  lemma FlushedIsSame(t: Tree, d: DiskState, batch: seq<Staged>, e: DiskState)
    requires GoodBatch(t, LoadIndex(d.index), batch)
    requires e.index == d.index + IndexRows(batch)
    requires forall k :: e.parts.At(k).written == d.parts.At(k).written + RowsFor(batch, k)
    ensures SameExcess(t, d, e)
  {
    forall k, h, i: nat
      ensures Excess(t, e, k, h, i) == Excess(t, d, k, h, i)
    {
      CopiesInBatch(t, batch, k, h, i);
      CopiesConcat(d.parts.At(k).written, RowsFor(batch, k), h, i);
      IndexedAfterFlush(d.index, batch, h);
    }
  }

  lemma FlushIsShort(batch: seq<Staged>)
    ensures |FlushIndex(batch)| <= 1
  {
  }

  lemma CutDrainIsBounded(t: Tree, cfg: Config, mode: PF.Mode, d: DiskState, batch: seq<Staged>, limit: nat, cut: nat)
    requires GoodBatch(t, LoadIndex(d.index), batch) && |batch| <= limit && cut <= |Drain(cfg, mode, d, batch)|
    ensures FewMore(t, d, DoAll(d, Drain(cfg, mode, d, batch)[..cut]), limit)
  {
    hide OneMore, GoodBatch, DoAll, DrainKinds, HalfDrained;
    FewHashes(batch);
    DrainPrefix(cfg, mode, d, batch, KINDS, cut);
    HalfDrainedIsOneMore(t, d, batch, DoAll(d, Drain(cfg, mode, d, batch)[..cut]));
  }

  lemma DrainAndFlushBounded(t: Tree, cfg: Config, mode: PF.Mode, d: DiskState, batch: seq<Staged>, limit: nat)
    requires GoodBatch(t, LoadIndex(d.index), batch) && |batch| <= limit
    ensures Bounded(t, d, Drain(cfg, mode, d, batch) + FlushIndex(batch), limit)
  {
    hide SameExcess, FewMore, GoodBatch, DoAll, FlushIndex, Drain;
    FlushIsShort(batch);
    var drain, flush := Drain(cfg, mode, d, batch), FlushIndex(batch);
    var acts := drain + flush;
    DrainFacts(cfg, mode, d, batch);
    FlushIndexDoes(DoAll(d, drain), batch);
    DoAppend(d, drain, flush);
    FlushedIsSame(t, d, batch, DoAll(d, acts));
    forall cut | 0 <= cut <= |acts|
      ensures FewMore(t, d, DoAll(d, acts[..cut]), limit)
    {
      if cut <= |drain| {
        assert acts[..cut] == drain[..cut];
        CutDrainIsBounded(t, cfg, mode, d, batch, limit, cut);
      } else {
        assert acts[..cut] == acts;
        SameIsFewMore(t, d, DoAll(d, acts), limit);
      }
    }
  }

  lemma CheckpointBounded(t: Tree, cfg: Config, mode: PF.Mode, w: Walk, limit: nat)
    requires GoodBatch(t, LoadIndex(w.d.index), w.batch) && |w.batch| <= limit
    ensures Bounded(t, w.d, CheckpointActs(cfg, mode, w), limit)
  {
    hide Bounded, GoodBatch;
    var xs := Drain(cfg, mode, w.d, w.batch) + FlushIndex(w.batch);
    var ys := FlushFlags(w.flags) + SavePointer(w.at);
    assert CheckpointActs(cfg, mode, w) == xs + ys;
    DrainAndFlushBounded(t, cfg, mode, w.d, w.batch, limit);
    KeepingIsBounded(t, DoAll(w.d, xs), ys, limit);
    BoundedSum(t, w.d, xs, ys, limit);
  }

  // --- The loop ---------------------------------------------------------------

  predicate BatchFits(cfg: Config, mode: PF.Mode, w: Walk) {
    if mode.Atomic? then w.batch == [] else |w.batch| <= w.processed % cfg.batchSize
  }

  ghost predicate BoundedWalk(t: Tree, cfg: Config, mode: PF.Mode, chain: seq<Block>, d: DiskState, w: Walk) {
    && WalkOk(t, chain, d, w)
    && Bounded(t, d, w.acts, cfg.batchSize)
    && GoodBatch(t, LoadIndex(w.d.index), w.batch)
    && BatchFits(cfg, mode, w)
  }

  lemma StageIsGood(t: Tree, idx: ByHash, batch: seq<Staged>, top: int, s: Staged)
    requires GoodBatch(t, idx, batch) && BatchOk(t, idx, batch, top)
    requires InTree(t, s.block) && s.block.height > top && NeedsExport(idx, IndexRows(batch), s.block.hash)
    ensures GoodBatch(t, idx, batch + [s])
  {
    NotStagedYet(t, idx, batch, top, s.block);
    var next := batch + [s];
    forall a, b | 0 <= a < b < |next|
      ensures next[a].block.hash != next[b].block.hash
    {
      if b == |batch| {
        assert InBatch(batch, |batch|, next[a].block.hash);
      }
    }
  }

  lemma VisitIsGood(t: Tree, chain: seq<Block>, d: DiskState, w: Walk)
    requires ActiveChain(t, chain) && WalkOk(t, chain, d, w) && GoodBatch(t, LoadIndex(w.d.index), w.batch)
    requires w.at.height + 1 < |chain|
    ensures var v := Visit(w, chain[w.at.height + 1]);
            GoodBatch(t, LoadIndex(v.d.index), v.batch) && |w.batch| <= |v.batch| <= |w.batch| + 1
  {
    hide Sound, Killable, GoodBatch;
    var b := chain[w.at.height + 1];
    var v := Visit(w, b);
    assert InTree(t, b) && b.height == w.at.height + 1;
    if v.batch != w.batch {
      StageIsGood(t, LoadIndex(w.d.index), w.batch, w.at.height, v.batch[|w.batch|]);
      assert v.batch == w.batch + [v.batch[|w.batch|]];
    }
  }

  lemma NextFits(cfg: Config, n: nat, p: nat)
    requires n <= p % cfg.batchSize + 1
    ensures n <= cfg.batchSize
    ensures (p + 1) % cfg.batchSize != 0 ==> n <= (p + 1) % cfg.batchSize
  {
    NextMod(p, cfg.batchSize);
    DivMod(p, cfg.batchSize);
  }

  lemma CheckpointKeepsBounded(t: Tree, cfg: Config, mode: PF.Mode, chain: seq<Block>, d: DiskState, w: Walk)
    requires WellFormedTree(t) && WalkOk(t, chain, d, w) && Bounded(t, d, w.acts, cfg.batchSize)
    requires GoodBatch(t, LoadIndex(w.d.index), w.batch) && |w.batch| <= cfg.batchSize
    ensures BoundedWalk(t, cfg, mode, chain, d, Checkpoint(cfg, mode, w))
  {
    hide Bounded, GoodBatch, Killable, Sound;
    CheckpointKeepsWalk(t, cfg, mode, chain, d, w);
    CheckpointBounded(t, cfg, mode, w, cfg.batchSize);
    BoundedSum(t, d, w.acts, CheckpointActs(cfg, mode, w), cfg.batchSize);
    NoneIsGood(t, LoadIndex(Checkpoint(cfg, mode, w).d.index));
  }

  lemma NoneIsGood(t: Tree, idx: ByHash)
    ensures GoodBatch(t, idx, [])
  {
  }

  lemma VisitKeepsBounded(t: Tree, cfg: Config, mode: PF.Mode, chain: seq<Block>, d: DiskState, w: Walk)
    requires WellFormedTree(t) && ActiveChain(t, chain) && BoundedWalk(t, cfg, mode, chain, d, w)
    requires w.at.height + 1 < |chain|
    ensures var v := VisitAndCheckpoint(cfg, mode, w, chain[w.at.height + 1]);
            BoundedWalk(t, cfg, mode, chain, d, v) && v.at.height == w.at.height + 1
  {
    hide Bounded, GoodBatch, WalkOk, Checkpoint;
    var v := Visit(w, chain[w.at.height + 1]);
    VisitFacts(t, chain, d, w);
    VisitKeepsWalk(t, chain, d, w);
    VisitIsGood(t, chain, d, w);
    if mode.Batched? {
      NextFits(cfg, |v.batch|, w.processed);
    }
    if CheckpointDue(cfg, mode, v.processed) {
      CheckpointKeepsBounded(t, cfg, mode, chain, d, v);
      CheckpointStays(cfg, mode, v);
    }
  }

  lemma VisitFacts(t: Tree, chain: seq<Block>, d: DiskState, w: Walk)
    requires ActiveChain(t, chain) && WalkOk(t, chain, d, w) && w.at.height + 1 < |chain|
    ensures var v := Visit(w, chain[w.at.height + 1]);
            v.at.height == w.at.height + 1 && v.acts == w.acts && v.d == w.d
  {
    hide Sound, Killable;
    assert chain[w.at.height + 1].height == w.at.height + 1;
  }

  lemma CheckpointStays(cfg: Config, mode: PF.Mode, w: Walk)
    ensures Checkpoint(cfg, mode, w).at == w.at
  {
  }

  lemma LoopKeepsBounded(t: Tree, cfg: Config, mode: PF.Mode, chain: seq<Block>, d: DiskState, w: Walk, from: nat,
                         n: nat)
    requires WellFormedTree(t) && ActiveChain(t, chain) && BoundedWalk(t, cfg, mode, chain, d, w)
    requires from == w.at.height + 1 && from + n <= |chain|
    ensures BoundedWalk(t, cfg, mode, chain, d, VisitAll(cfg, mode, w, chain[from..from + n]))
  {
    hide BoundedWalk, VisitAndCheckpoint;
    var step := (v, b) => VisitAndCheckpoint(cfg, mode, v, b);
    var Inv := v => BoundedWalk(t, cfg, mode, chain, d, v);
    forall v: Walk, b: Block {:trigger step(v, b)}
      | Inv(v) && w.at.height <= v.at.height && v.at.height + 1 < |chain| && b == chain[v.at.height + 1]
      ensures Inv(step(v, b)) && step(v, b).at.height == v.at.height + 1
    {
      VisitKeepsBounded(t, cfg, mode, chain, d, v);
    }
    FoldInduction(step, chain, w, n, Inv);
  }

  lemma FinishIsBounded(t: Tree, cfg: Config, mode: PF.Mode, chain: seq<Block>, d: DiskState, w: Walk,
                        ending: Ending, latest: int)
    requires WellFormedTree(t) && BoundedWalk(t, cfg, mode, chain, d, w)
    ensures Bounded(t, d, FinishWalk(cfg, mode, w, ending, latest).acts, cfg.batchSize)
  {
    hide Bounded, GoodBatch, WalkOk, Checkpoint;
    if !ending.Failed? {
      CheckpointKeepsBounded(t, cfg, mode, chain, d, w);
    }
  }

  // --- Before the loop ----------------------------------------------------------

  /** Seeding adds rows of the oldest schema only. */
  lemma SeedingIsSilent(t: Tree, d: DiskState, rows: seq<Row>)
    requires Versioned(LoadIndex(d.index))
    ensures SameExcess(t, d, Do(d, IndexAppend(SeedPending(LoadIndex(d.index), [], rows))))
  {
    var idx := LoadIndex(d.index);
    var pending := SeedPending(idx, [], rows);
    SeedAdds(idx, rows);
    LoadIndexAppend(d.index, pending);
    forall h
      ensures IndexedNow(LoadIndex(d.index + pending), h) <==> IndexedNow(idx, h)
    {
      if h in LoadIndex(pending) {
        assert RowFound(rows, LoadIndex(pending)[h]);
      }
    }
  }

  lemma SoundIsVersioned(t: Tree, d: DiskState)
    requires Sound(t, d)
    ensures Versioned(LoadIndex(d.index))
  {
  }

  lemma LocateIsBounded(t: Tree, d: DiskState, top: Row, limit: nat)
    requires Sound(t, d)
    ensures Bounded(t, d, Locate(d, top).acts, limit)
  {
    hide Bounded, Sound, SameExcess;
    BoundedNone(t, d, limit);
    SoundIsVersioned(t, d);
    if d.current.None? {
      var rows := FoundRows(d.parts.blocks);
      SeedingIsSilent(t, d, rows);
      BoundedOne(t, d, IndexAppend(SeedPending(LoadIndex(d.index), [], rows)), limit);
    }
  }

  predicate AllKeepRows(acts: seq<Action>) {
    forall a :: a in acts ==> KeepsRows(a)
  }

  lemma RecoverKeepsRows(idx: ByHash, node: Node, maxDepth: nat, flags: Flags, at: Pointer)
    requires at.height < |node.chain|
    ensures Recover(idx, node, maxDepth, flags, at).Recovered? ==>
              AllKeepRows(Recover(idx, node, maxDepth, flags, at).acts)
  {
    hide WalkBackFrom, FlagDetached;
  }

  lemma EnterKeepsRows(cfg: Config, node: Node, stale: Option<IndexRow>, p: Prep)
    requires p.Ready? && AllKeepRows(p.acts)
    ensures AllKeepRows(Enter(cfg, node, stale, p).acts)
  {
  }

  lemma RestKeepsRows(cfg: Config, node: Node, idx: ByHash, flags: Flags, stale: Option<IndexRow>, pos: Option<Pointer>)
    ensures var p := Reconcile(cfg, node, idx, flags, pos);
            AllKeepRows((if p.Halt? then p else Enter(cfg, node, stale, p)).acts)
  {
    hide Recover, Enter;
    if pos.Some? && pos.value.height < |node.chain| {
      RecoverKeepsRows(idx, node, cfg.maxReorgDepth, flags, pos.value);
    }
    var p := Reconcile(cfg, node, idx, flags, pos);
    if p.Ready? {
      EnterKeepsRows(cfg, node, stale, p);
    }
  }

  lemma PrepareIsBounded(t: Tree, cfg: Config, node: Node, picks: Picks, d: DiskState, flags: Flags, limit: nat)
    requires Sound(t, d)
    ensures Bounded(t, d, Prepare(cfg, node, picks, d, flags).acts, limit)
  {
    hide Bounded, Sound, Locate, Enter, Reconcile;
    BoundedNone(t, d, limit);
    var latest := Latest(cfg, node);
    if node.ok(BlockCount) && latest >= 0 && node.ok(LatestHash) {
      var a := LatestReplace(Pointer(latest, node.chain[latest].hash));
      var e := Do(d, a);
      KeepingIsBounded(t, d, [a], limit);
      DoOne(d, a);
      LatestIrrelevant(t, d, a, picks.top);
      LocateIsBounded(t, e, picks.top, limit);
      var begun := [a] + Locate(d, picks.top).acts;
      BoundedSum(t, d, [a], Locate(d, picks.top).acts, limit);
      var idx := LoadIndex(DoAll(d, begun).index);
      RestKeepsRows(cfg, node, idx, flags, picks.stale, Locate(d, picks.top).pointer);
      var p := Reconcile(cfg, node, idx, flags, Locate(d, picks.top).pointer);
      var rest := (if p.Halt? then p else Enter(cfg, node, picks.stale, p)).acts;
      KeepingIsBounded(t, DoAll(d, begun), rest, limit);
      BoundedSum(t, d, begun, rest, limit);
    }
  }

  lemma LatestIrrelevant(t: Tree, d: DiskState, a: Action, top: Row)
    requires a.LatestReplace? && Sound(t, d)
    ensures Sound(t, Do(d, a)) && Locate(Do(d, a), top) == Locate(d, top)
  {
  }

  // --- The pass -------------------------------------------------------------------

  lemma StartIsBounded(t: Tree, cfg: Config, mode: PF.Mode, node: Node, d: DiskState, p: Prep)
    requires p.Ready? && PrepOk(t, node.chain, d, p) && Bounded(t, d, p.acts, cfg.batchSize)
    ensures BoundedWalk(t, cfg, mode, node.chain, d, StartWalk(node, d, p))
  {
    hide Bounded, PrepOk, WalkOk;
    StartWalkOk(t, node, d, p);
    NoneIsGood(t, LoadIndex(DoAll(d, p.acts).index));
  }

  lemma StretchIsBounded(t: Tree, cfg: Config, node: Node, d: DiskState, p: Prep, n: nat, ending: Ending)
    requires WellFormedTree(t) && ActiveChain(t, node.chain) && p.Ready? && p.at.height + 1 + n <= |node.chain|
    requires BoundedWalk(t, cfg, ModeFor(cfg, p.at, Latest(cfg, node)), node.chain, d, StartWalk(node, d, p))
    ensures Bounded(t, d, StretchResult(cfg, node, d, p, n, ending).acts, cfg.batchSize)
  {
    hide Bounded, BoundedWalk, FinishWalk, VisitAll;
    var mode := ModeFor(cfg, p.at, Latest(cfg, node));
    var from := p.at.height + 1;
    var w := StartWalk(node, d, p);
    LoopKeepsBounded(t, cfg, mode, node.chain, d, w, from, n);
    FinishIsBounded(t, cfg, mode, node.chain, d, VisitAll(cfg, mode, w, node.chain[from..from + n]), ending,
                    Latest(cfg, node));
  }

  lemma RunLoopIsBounded(t: Tree, cfg: Config, node: Node, workers: nat, stopAt: nat, d: DiskState, p: Prep)
    requires WellFormedTree(t) && Stable(t, node) && p.Ready? && p.at.height < |node.chain|
    requires BoundedWalk(t, cfg, ModeFor(cfg, p.at, Latest(cfg, node)), node.chain, d, StartWalk(node, d, p))
    ensures Bounded(t, d, RunLoop(cfg, node, workers, stopAt, d, p).acts, cfg.batchSize)
  {
    hide Bounded, BoundedWalk, RunLoop, StretchResult;
    var Good := (r: PassResult) => Bounded(t, d, r.acts, cfg.batchSize);
    forall n: nat, ending {:trigger StretchResult(cfg, node, d, p, n, ending)} | p.at.height + 1 + n <= |node.chain|
      ensures Good(StretchResult(cfg, node, d, p, n, ending))
    {
      StretchIsBounded(t, cfg, node, d, p, n, ending);
    }
    LoopRule(t, cfg, node, workers, stopAt, d, p, Good);
  }

  lemma ReadyBelowTip(t: Tree, chain: seq<Block>, d: DiskState, p: Prep)
    requires p.Ready? && PrepOk(t, chain, d, p)
    ensures p.at.height < |chain|
  {
  }

  /** A pass killed anywhere duplicates at most the blocks of one drain. */
  lemma PassIsBounded(t: Tree, cfg: Config, node: Node, workers: nat, stopAt: nat, picks: Picks, d: DiskState,
                      flags: Flags)
    requires WellFormedTree(t) && Stable(t, node) && Sound(t, d) && ValidPicks(picks, d)
    ensures Bounded(t, d, RunPass(cfg, node, workers, stopAt, picks, d, flags).acts, cfg.batchSize)
  {
    hide Bounded, BoundedWalk, RunLoop, StartWalk, PrepOk, Prepare, Sound;
    var p := Prepare(cfg, node, picks, d, flags);
    PrepareKeepsSound(t, cfg, node, picks, d, flags);
    PrepareIsBounded(t, cfg, node, picks, d, flags, cfg.batchSize);
    if p.Ready? {
      ReadyBelowTip(t, node.chain, d, p);
      StartIsBounded(t, cfg, ModeFor(cfg, p.at, Latest(cfg, node)), node, d, p);
      RunLoopIsBounded(t, cfg, node, workers, stopAt, d, p);
    }
  }

  // --- Runs -------------------------------------------------------------------------

  function Hits(hits: seq<set<Hash>>, h: Hash): nat {
    if hits == [] then 0 else (if h in hits[0] then 1 else 0) + Hits(hits[1..], h)
  }

  function Kills(events: seq<PassEvent>): nat {
    if events == [] then 0 else (if events[0].cut.Some? then 1 else 0) + Kills(events[1..])
  }

  /** Copies are bounded by the kills that hit the block. */
  ghost predicate WithinHits(t: Tree, d: DiskState, e: DiskState, hits: seq<set<Hash>>) {
    forall k, h, i: nat :: Excess(t, d, k, h, i) <= Excess(t, e, k, h, i) <= Excess(t, d, k, h, i) + Hits(hits, h)
  }

  lemma ReducedExcess(t: Tree, e: DiskState, d: DiskState)
    requires DiskReduced(e, d)
    ensures SameExcess(t, d, e)
  {
    forall k, h, i: nat
      ensures Excess(t, e, k, h, i) == Excess(t, d, k, h, i)
    {
      assert PR.Reduced(e.parts.At(k), d.parts.At(k));
    }
  }

  lemma StepExcess(t: Tree, cfg: Config, p: Process, e: PassEvent)
    requires WellFormedTree(t) && Sound(t, p.d) && ValidEvent(t, cfg, p, e)
    ensures var d := Step(t, cfg, p, e).d;
            if e.cut.Some? then FewMore(t, p.d, d, cfg.batchSize) else SameExcess(t, p.d, d)
  {
    hide RunPass, Sound, SameExcess, FewMore, DiskReduced;
    var acts := Performed(cfg, p, e);
    var d := DoWoven(p.d, acts, e.eats);
    PassIsBounded(t, cfg, e.node, e.workers, e.stopAt, e.picks, p.d, p.flags);
    WovenReduces(p.d, acts, e.eats);
    ReducedExcess(t, d, DoAll(p.d, acts));
    if e.cut.Some? {
      FewMoreThenSame(t, p.d, DoAll(p.d, acts), d, cfg.batchSize);
    } else {
      SameTrans(t, p.d, DoAll(p.d, acts), d);
    }
  }

  lemma FewMoreThenSame(t: Tree, d: DiskState, e: DiskState, f: DiskState, limit: nat)
    requires FewMore(t, d, e, limit) && SameExcess(t, e, f)
    ensures FewMore(t, d, f, limit)
  {
    var hit: set<Hash> :| |hit| <= limit && OneMore(t, d, e, hit);
    assert OneMore(t, d, f, hit);
  }

  ghost predicate SmallHits(hits: seq<set<Hash>>, limit: nat) {
    forall j :: 0 <= j < |hits| ==> |hits[j]| <= limit
  }

  lemma {:induction false} RunExcess(t: Tree, cfg: Config, p: Process, events: seq<PassEvent>)
    returns (hits: seq<set<Hash>>)
    requires WellFormedTree(t) && Sound(t, p.d) && ValidRun(t, cfg, p, events)
    ensures |hits| == Kills(events) && SmallHits(hits, cfg.batchSize)
    ensures WithinHits(t, p.d, Run(t, cfg, p, events).d, hits)
    decreases |events|
  {
    hide RunPass, Sound, Step, ValidEvent;
    hits := [];
    if events != [] {
      var q := Step(t, cfg, p, events[0]);
      StepKeepsSound(t, cfg, p, events[0]);
      StepExcess(t, cfg, p, events[0]);
      var rest := RunExcess(t, cfg, q, events[1..]);
      if events[0].cut.Some? {
        var hit: set<Hash> :| |hit| <= cfg.batchSize && OneMore(t, p.d, q.d, hit);
        hits := [hit] + rest;
        assert hits[1..] == rest;
        HitThenRest(t, p.d, q.d, Run(t, cfg, q, events[1..]).d, hit, rest);
      } else {
        hits := rest;
        SameThenRest(t, p.d, q.d, Run(t, cfg, q, events[1..]).d, rest);
      }
    }
  }

  lemma HitThenRest(t: Tree, d: DiskState, e: DiskState, f: DiskState, hit: set<Hash>, rest: seq<set<Hash>>)
    requires OneMore(t, d, e, hit) && WithinHits(t, e, f, rest)
    ensures WithinHits(t, d, f, [hit] + rest)
  {
    assert ([hit] + rest)[1..] == rest;
    forall k, h, i: nat
      ensures Excess(t, d, k, h, i) <= Excess(t, f, k, h, i) <= Excess(t, d, k, h, i) + Hits([hit] + rest, h)
    {
      assert Excess(t, e, k, h, i) <= Excess(t, f, k, h, i) <= Excess(t, e, k, h, i) + Hits(rest, h);
    }
  }

  lemma SameThenRest(t: Tree, d: DiskState, e: DiskState, f: DiskState, rest: seq<set<Hash>>)
    requires SameExcess(t, d, e) && WithinHits(t, e, f, rest)
    ensures WithinHits(t, d, f, rest)
  {
    forall k, h, i: nat
      ensures Excess(t, d, k, h, i) <= Excess(t, f, k, h, i) <= Excess(t, d, k, h, i) + Hits(rest, h)
    {
      assert Excess(t, e, k, h, i) == Excess(t, d, k, h, i);
    }
  }

  lemma EmptyExcess(t: Tree, k: Kind, h: Hash, i: nat)
    ensures Excess(t, EMPTY_DISK, k, h, i) == 0
  {
  }

  /** Over a whole run from nothing, with kills, RPC outages, stop requests,
      reorgs and a consumer: every row of a block indexed at the current schema
      is written at least once; and there is a set of at most one batch of
      blocks for every kill such that no row is written more often than its
      index row and the sets that contain its block account for. */
  lemma KillsDuplicateOneDrainEach(t: Tree, cfg: Config, events: seq<PassEvent>)
    requires WellFormedTree(t) && ValidRun(t, cfg, FRESH, events)
    ensures var d := Run(t, cfg, FRESH, events).d;
            exists hits: seq<set<Hash>> ::
              && |hits| == Kills(events) && SmallHits(hits, cfg.batchSize)
              && forall k, h, i: nat ::
                   var due := Due(t, LoadIndex(d.index), k, h, i);
                   due <= Copies(d.parts.At(k).written, h, i) <= due + Hits(hits, h)
  {
    hide RunPass, Step, ValidEvent;
    EmptyIsSound(t);
    var hits := RunExcess(t, cfg, FRESH, events);
    var d := Run(t, cfg, FRESH, events).d;
    forall k, h, i: nat
      ensures var due := Due(t, LoadIndex(d.index), k, h, i);
              due <= Copies(d.parts.At(k).written, h, i) <= due + Hits(hits, h)
    {
      EmptyExcess(t, k, h, i);
      assert Excess(t, EMPTY_DISK, k, h, i) <= Excess(t, d, k, h, i) <= Excess(t, EMPTY_DISK, k, h, i) + Hits(hits, h);
    }
  }
}
