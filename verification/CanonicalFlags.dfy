/** block_status.csv tells the canonical chain: after a completed pass an
    indexed block is effectively canonical exactly if it is the stored position
    or one of its ancestors.  After a pass that the node cut short this can
    fail; the exact condition is stated and proved. */
module CanonicalFlags {
  import opened Basics
  import opened Chain
  import opened IndexFile
  import opened DiskModel
  import opened Pass
  import opened PassFacts
  import opened CrashSafety
  import opened Runs
  import opened ExactlyOnce
  import opened Progress
  import Rec = Recovery
  import PF = PartFiles

  /** The flags stand for block `at`: among the indexed blocks exactly `at` and
      its ancestors are canonical. */
  ghost predicate FlagsStand(t: Tree, idx: ByHash, flags: Status, at: Option<Hash>)
    requires WellFormedTree(t)
  {
    forall x {:trigger x in idx} :: x in idx && x in t ==>
      (Canonical(flags, t[x].height, x) <==> at.Some? && AncestorOrSelf(t, x, at.value))
  }

  ghost predicate Visited(chain: seq<Block>, from: int, top: int, x: Hash) {
    exists h :: 0 <= from <= h <= top < |chain| && chain[h].hash == x
  }

  /** Of the block the flags stand for, the stored position and the fork below
      it: the fork is on the branch the flags stand for, and every indexed block
      of that branch above the fork is either walked back over or visited
      again. */
  ghost predicate FlagsRecover(t: Tree, idx: ByHash, chain: seq<Block>, base: Hash, pos: Hash, fork: Hash, top: int)
    requires WellFormedTree(t)
  {
    && AncestorOrSelf(t, fork, base)
    && forall x {:trigger x in idx} :: x in idx && AncestorOrSelf(t, x, base) && !AncestorOrSelf(t, x, fork) ==>
         AncestorOrSelf(t, x, pos) || (x in t && t[x].height <= top && t[x].height < |chain|
                                       && chain[t[x].height].hash == x)
  }

  /** What detaching down to the fork and visiting up to `top` make of flags. */
  ghost predicate FlagsAfter(t: Tree, chain: seq<Block>, before: Status, after: Status, pos: Hash, fork: Hash,
                             from: int, top: int)
    requires WellFormedTree(t)
  {
    forall x :: x in t ==>
      (Canonical(after, t[x].height, x) <==>
         || (Canonical(before, t[x].height, x) && !(AncestorOrSelf(t, x, pos) && !AncestorOrSelf(t, x, fork)))
         || Visited(chain, from, top, x))
  }

  ghost predicate IndexAfter(idx: ByHash, idx': ByHash, chain: seq<Block>, from: int, top: int) {
    forall x :: x in idx' <==> x in idx || Visited(chain, from, top, x)
  }

  lemma EndAncestors(t: Tree, chain: seq<Block>, fork: nat, top: nat, x: Hash)
    requires WellFormedTree(t) && ActiveChain(t, chain) && fork <= top < |chain|
    ensures AncestorOrSelf(t, x, chain[top].hash)
            <==> AncestorOrSelf(t, x, chain[fork].hash) || Visited(chain, fork + 1, top, x)
    ensures Visited(chain, fork + 1, top, x) ==>
              x in t && fork < t[x].height <= top && chain[t[x].height].hash == x
              && !AncestorOrSelf(t, x, chain[fork].hash)
  {
    ChainAncestors(t, chain, x, top);
    ChainAncestors(t, chain, x, fork);
    if Visited(chain, fork + 1, top, x) {
      var h :| fork + 1 <= h <= top && chain[h].hash == x;
      assert InTree(t, chain[h]) && InTree(t, chain[fork]);
      if AncestorOrSelf(t, x, chain[fork].hash) {
        AncestorHeight(t, x, chain[fork].hash);
      }
    }
    if AncestorOrSelf(t, x, chain[top].hash) {
      var i :| 0 <= i <= top && chain[i].hash == x;
    }
  }

  /** One block of the index after the pass. */
  lemma StandAt(t: Tree, idx: ByHash, chain: seq<Block>, before: Status, after: Status, base: Hash, pos: Hash,
                fork: nat, top: nat, x: Hash)
    requires WellFormedTree(t) && ActiveChain(t, chain) && fork <= top < |chain| && x in t
    requires FlagsStand(t, idx, before, Some(base))
    requires FlagsAfter(t, chain, before, after, pos, chain[fork].hash, fork + 1, top)
    requires x in idx || Visited(chain, fork + 1, top, x)
    ensures var f := chain[fork].hash;
            (Canonical(after, t[x].height, x) <==> AncestorOrSelf(t, x, chain[top].hash)) <==>
            (Visited(chain, fork + 1, top, x)
             || (AncestorOrSelf(t, x, pos) && !AncestorOrSelf(t, x, f))
             || (AncestorOrSelf(t, x, base) <==> AncestorOrSelf(t, x, f)))
  {
    EndAncestors(t, chain, fork, top, x);
  }

  /** Exactly when the flags stand for the new position. */
  lemma StandIff(t: Tree, idx: ByHash, idx': ByHash, chain: seq<Block>, before: Status, after: Status, base: Hash,
                 pos: Hash, fork: nat, top: nat)
    requires WellFormedTree(t) && ActiveChain(t, chain) && fork <= top < |chain|
    requires IndexClosed(t, idx) && chain[fork].hash in idx
    requires FlagsStand(t, idx, before, Some(base))
    requires FlagsAfter(t, chain, before, after, pos, chain[fork].hash, fork + 1, top)
    requires IndexAfter(idx, idx', chain, fork + 1, top)
    ensures FlagsStand(t, idx', after, Some(chain[top].hash)) <==>
            FlagsRecover(t, idx, chain, base, pos, chain[fork].hash, top)
  {
    var f := chain[fork].hash;
    if FlagsStand(t, idx', after, Some(chain[top].hash)) {
      StandAt(t, idx, chain, before, after, base, pos, fork, top, f);
      EndAncestors(t, chain, fork, top, f);
      assert f in idx';
      assert AncestorOrSelf(t, f, f);
      forall x | x in idx && AncestorOrSelf(t, x, base) && !AncestorOrSelf(t, x, f)
        ensures AncestorOrSelf(t, x, pos) || (x in t && t[x].height <= top && chain[t[x].height].hash == x)
      {
        assert x in idx';
        assert idx[x].hash == x;
        StandAt(t, idx, chain, before, after, base, pos, fork, top, x);
        EndAncestors(t, chain, fork, top, x);
      }
    }
    if FlagsRecover(t, idx, chain, base, pos, f, top) {
      forall x | x in idx' && x in t
        ensures Canonical(after, t[x].height, x) <==> AncestorOrSelf(t, x, chain[top].hash)
      {
        StandAt(t, idx, chain, before, after, base, pos, fork, top, x);
        EndAncestors(t, chain, fork, top, x);
        if AncestorOrSelf(t, x, f) {
          AncestorTransitive(t, x, f, base);
        } else if x in idx && AncestorOrSelf(t, x, base) && !AncestorOrSelf(t, x, pos) {
          assert chain[t[x].height].hash == x;
          ChainAncestors(t, chain, x, fork);
          assert Visited(chain, fork + 1, top, x);
        }
      }
    }
  }

  // --- Recovery ------------------------------------------------------------

  function HashOf(at: Cursor): Hash {
    if at.hash.Some? then at.hash.value else NO_HASH
  }

  /** The flags on disk are those in memory, unless these are marked dirty. */
  ghost predicate Saved(d: DiskState, flags: Flags) {
    !flags.dirty ==> d.status == flags.entries
  }

  /** The blocks above `fork` on the way from `pos` have lost their flag. */
  ghost predicate DetachedDownTo(t: Tree, before: Status, after: Status, pos: Hash, fork: Hash)
    requires WellFormedTree(t)
  {
    forall x :: x in t ==>
      (Canonical(after, t[x].height, x) <==>
         Canonical(before, t[x].height, x) && !(AncestorOrSelf(t, x, pos) && !AncestorOrSelf(t, x, fork)))
  }

  lemma IndexClosedAgrees(t: Tree, idx: ByHash)
    requires IndexClosed(t, idx)
    ensures Rec.IndexAgrees(t, idx)
  {
  }

  lemma FlaggedDownTo(t: Tree, idx: ByHash, node: Node, maxDepth: nat, flags: Flags, at: Pointer)
    requires WellFormedTree(t) && IndexClosed(t, idx) && PointerIndexed(t, idx, Some(at)) && at.height < |node.chain|
    requires WalkBackFrom(idx, node, maxDepth, at, []).Ancestor?
    ensures var w := WalkBackFrom(idx, node, maxDepth, at, []);
            && AncestorOrSelf(t, w.at.hash, at.hash)
            && DetachedDownTo(t, flags.entries, FlagDetached(flags, w.detached).entries, at.hash, w.at.hash)
  {
    var w := WalkBackFrom(idx, node, maxDepth, at, []);
    IndexClosedAgrees(t, idx);
    Rec.WalkBackDetaches(t, idx, node, maxDepth, at, []);
    assert w.detached[0..] == w.detached;
    Rec.FlagDetachedIsExact(flags, w.detached);
    Rec.DetachedAreAboveFork(t, idx, node.chain, at, w.detached, w.at, at.hash);
    forall x | x in t
      ensures Pointer(t[x].height, x) in w.detached
              <==> AncestorOrSelf(t, x, at.hash) && !AncestorOrSelf(t, x, w.at.hash)
    {
      Rec.DetachedAreAboveFork(t, idx, node.chain, at, w.detached, w.at, x);
    }
  }

  lemma NothingDetached(t: Tree, flags: Status, pos: Hash)
    requires WellFormedTree(t)
    ensures DetachedDownTo(t, flags, flags, pos, pos)
  {
  }

  /** Whether or not it succeeds, recovery leaves flags that stand for the
      block it reports. */
  lemma RecoverFlags(t: Tree, idx: ByHash, node: Node, maxDepth: nat, flags: Flags, at: Pointer)
    requires WellFormedTree(t) && IndexClosed(t, idx) && PointerIndexed(t, idx, Some(at)) && at.height < |node.chain|
    ensures var r := Recover(idx, node, maxDepth, flags, at);
            && AncestorOrSelf(t, r.at.hash, at.hash)
            && DetachedDownTo(t, flags.entries, r.flags.entries, at.hash, r.at.hash)
  {
    var w := WalkBackFrom(idx, node, maxDepth, at, []);
    if w.Ancestor? {
      FlaggedDownTo(t, idx, node, maxDepth, flags, at);
    } else {
      NothingDetached(t, flags.entries, at.hash);
    }
  }

  lemma RecoverSaves(d: DiskState, idx: ByHash, node: Node, maxDepth: nat, flags: Flags, at: Pointer)
    requires at.height < |node.chain| && Saved(d, flags)
    ensures var r := Recover(idx, node, maxDepth, flags, at);
            Saved(DoAll(d, if r.Recovered? then r.acts else []), r.flags)
  {
    var w := WalkBackFrom(idx, node, maxDepth, at, []);
    if w.Ancestor? {
      Rec.UndirtiedFlags(flags, w.detached);
      var r := Recover(idx, node, maxDepth, flags, at);
      if r.Recovered? {
        var flagged := FlagDetached(flags, w.detached);
        var log := r.acts[|FlushFlags(flagged)|..];
        assert r.acts == FlushFlags(flagged) + log && |log| == 1;
        FlushFlagsDoes(d, flagged);
        DoAppend(d, FlushFlags(flagged), log);
        assert log == [log[0]];
        DoOne(DoAll(d, FlushFlags(flagged)), log[0]);
      }
    }
  }

  /** What the steps before the loop make of the flags, from position `pos`. */
  ghost predicate ForkFlags(t: Tree, before: Status, pos: Option<Pointer>, p: Prep)
    requires WellFormedTree(t)
  {
    && DetachedDownTo(t, before, p.flags.entries, HashOf(CursorAt(pos)), HashOf(p.at))
    && (pos.Some? ==> p.at.hash.Some? && AncestorOrSelf(t, HashOf(p.at), pos.value.hash))
    && (pos.None? ==> p.at == NOWHERE)
  }

  lemma ReconcileFlags(t: Tree, cfg: Config, node: Node, d: DiskState, idx: ByHash, flags: Flags, pos: Option<Pointer>)
    requires WellFormedTree(t) && IndexClosed(t, idx) && PointerIndexed(t, idx, pos) && Saved(d, flags)
    ensures var p := Reconcile(cfg, node, idx, flags, pos);
            ForkFlags(t, flags.entries, pos, p) && Saved(DoAll(d, p.acts), p.flags)
  {
    NothingDetached(t, flags.entries, HashOf(CursorAt(pos)));
    if pos.Some? && HashAt(node, CurrentHash, pos.value.height).Some? {
      RecoverFlags(t, idx, node, cfg.maxReorgDepth, flags, pos.value);
      RecoverSaves(d, idx, node, cfg.maxReorgDepth, flags, pos.value);
    }
  }

  // --- The loop ------------------------------------------------------------

  /** The flags and the index after the heights `from` up to the position. */
  ghost predicate FlagWalk(chain: seq<Block>, before: Status, idx: ByHash, from: nat, w: Walk) {
    && Saved(w.d, w.flags)
    && from - 1 <= w.at.height < |chain|
    && (w.at.height >= from ==> w.at.hash == Some(chain[w.at.height].hash))
    && (forall h: nat, x :: Canonical(w.flags.entries, h, x) <==>
          Canonical(before, h, x) || (from <= h <= w.at.height && chain[h].hash == x))
    && (forall x :: Known(LoadIndex(w.d.index), w.batch, x) <==> x in idx || Visited(chain, from, w.at.height, x))
  }

  lemma VisitedNext(chain: seq<Block>, from: nat, top: int, x: Hash)
    requires from - 1 <= top && top + 1 < |chain|
    ensures Visited(chain, from, top + 1, x) <==> Visited(chain, from, top, x) || chain[top + 1].hash == x
  {
  }

  lemma KnownNext(idx: ByHash, batch: seq<Staged>, s: Staged, x: Hash)
    ensures Known(idx, batch + [s], x) <==> Known(idx, batch, x) || x == s.block.hash
  {
    var next := batch + [s];
    if InBatch(batch, |batch|, x) {
      var j :| 0 <= j < |batch| && batch[j].block.hash == x;
      assert next[j].block.hash == x;
    }
    assert next[|batch|] == s;
  }

  lemma ConfirmedNext(f: Flags, b: Block, h: nat, x: Hash)
    ensures Canonical(SetCanonicalIfPresent(f, b.height, b.hash, true).entries, h, x) <==>
            Canonical(f.entries, h, x) || (h == b.height && x == b.hash)
  {
  }

  lemma ConfirmedSaved(w: Walk, b: Block)
    requires Saved(w.d, w.flags)
    ensures Saved(w.d, SetCanonicalIfPresent(w.flags, b.height, b.hash, true))
  {
  }

  lemma VisitFlags(chain: seq<Block>, before: Status, idx: ByHash, from: nat, w: Walk)
    requires FlagWalk(chain, before, idx, from, w) && w.at.height + 1 < |chain|
    requires chain[w.at.height + 1].height == w.at.height + 1
    ensures FlagWalk(chain, before, idx, from, Visit(w, chain[w.at.height + 1]))
  {
    hide LoadIndex, NeedsExport, Known, Visited, Canonical, SetCanonicalIfPresent;
    var b := chain[w.at.height + 1];
    var v := Visit(w, b);
    var known := LoadIndex(w.d.index);
    forall h: nat, x
      ensures Canonical(v.flags.entries, h, x)
              <==> Canonical(before, h, x) || (from <= h <= v.at.height && chain[h].hash == x)
    {
      ConfirmedNext(w.flags, b, h, x);
    }
    ConfirmedSaved(w, b);
    forall x
      ensures Known(known, v.batch, x) <==> x in idx || Visited(chain, from, v.at.height, x)
    {
      VisitedNext(chain, from, w.at.height, x);
      if v.batch != w.batch {
        KnownNext(known, w.batch, v.batch[|w.batch|], x);
        assert v.batch == w.batch + [v.batch[|w.batch|]];
      } else {
        StagedIsKnown(known, w.batch, b.hash);
      }
    }
  }

  lemma StagedIsKnown(idx: ByHash, batch: seq<Staged>, x: Hash)
    requires !NeedsExport(idx, IndexRows(batch), x)
    ensures Known(idx, batch, x)
  {
    if x !in idx {
      var found := FindStaged(IndexRows(batch), x);
      var j :| 0 <= j < |batch| && IndexRows(batch)[j] == found.value;
      assert batch[j].block.hash == x;
    }
  }

  lemma FlushedKnown(index: seq<IndexRow>, batch: seq<Staged>, x: Hash)
    ensures Known(LoadIndex(index + IndexRows(batch)), [], x) <==> Known(LoadIndex(index), batch, x)
  {
    var rows := IndexRows(batch);
    LoadIndexAppend(index, rows);
    LoadIndexKeys(rows);
    if InBatch(batch, |batch|, x) {
      var j :| 0 <= j < |batch| && batch[j].block.hash == x;
      assert rows[j] in rows;
    }
    if x in LoadIndex(rows) {
      var j :| 0 <= j < |rows| && rows[j] == LoadIndex(rows)[x];
      assert batch[j].block.hash == x;
    }
  }

  lemma CheckpointFlags(cfg: Config, mode: PF.Mode, chain: seq<Block>, before: Status, idx: ByHash, from: nat, w: Walk)
    requires FlagWalk(chain, before, idx, from, w)
    ensures FlagWalk(chain, before, idx, from, Checkpoint(cfg, mode, w))
  {
    CheckpointFacts(cfg, mode, w);
    forall x { FlushedKnown(w.d.index, w.batch, x); }
  }

  lemma LoopFlags(cfg: Config, mode: PF.Mode, chain: seq<Block>, before: Status, idx: ByHash, from: nat, w: Walk,
                  n: nat)
    requires FlagWalk(chain, before, idx, from, w) && w.at.height + 1 + n <= |chain|
    requires forall i :: 0 <= i < |chain| ==> chain[i].height == i
    ensures var v := VisitAll(cfg, mode, w, chain[w.at.height + 1..w.at.height + 1 + n]);
            FlagWalk(chain, before, idx, from, v) && v.at.height == w.at.height + n
  {
    hide FlagWalk, VisitAndCheckpoint;
    var step := (v, b) => VisitAndCheckpoint(cfg, mode, v, b);
    var Inv := v => FlagWalk(chain, before, idx, from, v);
    forall v: Walk, b: Block {:trigger step(v, b)}
      | Inv(v) && w.at.height <= v.at.height && v.at.height + 1 < |chain| && b == chain[v.at.height + 1]
      ensures Inv(step(v, b)) && step(v, b).at.height == v.at.height + 1
    {
      StepFlags(cfg, mode, chain, before, idx, from, v);
    }
    FoldInduction(step, chain, w, n, Inv);
  }

  lemma StepFlags(cfg: Config, mode: PF.Mode, chain: seq<Block>, before: Status, idx: ByHash, from: nat, w: Walk)
    requires FlagWalk(chain, before, idx, from, w) && w.at.height + 1 < |chain|
    requires chain[w.at.height + 1].height == w.at.height + 1
    ensures var v := VisitAndCheckpoint(cfg, mode, w, chain[w.at.height + 1]);
            FlagWalk(chain, before, idx, from, v) && v.at.height == w.at.height + 1
  {
    hide FlagWalk, CheckpointActs, DoAll, LoadIndex;
    VisitFlags(chain, before, idx, from, w);
    var v := Visit(w, chain[w.at.height + 1]);
    if CheckpointDue(cfg, mode, v.processed) {
      CheckpointFlags(cfg, mode, chain, before, idx, from, v);
    }
  }

  // --- The pass ------------------------------------------------------------

  /** The pass went from the fork up to `at`. */
  ghost predicate Reached(chain: seq<Block>, fork: Cursor, at: Cursor) {
    && fork.height <= at.height
    && (at.height == fork.height ==> at == fork)
    && (at.height > fork.height ==> at.height < |chain| && at.hash == Some(chain[at.height].hash))
  }

  ghost predicate IndexBounds(idx: ByHash, idx': ByHash, chain: seq<Block>, from: int, top: int) {
    && (forall x :: x in idx ==> x in idx')
    && (forall x :: x in idx' ==> x in idx || Visited(chain, from, top, x))
  }

  /** What a completed pass left on disk. */
  ghost predicate CompletedDisk(chain: seq<Block>, d: DiskState, fork: Cursor, r: PassResult) {
    var e := DoAll(d, r.acts);
    && IndexAfter(LoadIndex(d.index), LoadIndex(e.index), chain, fork.height + 1, r.reached.height)
    && e.status == r.flags.entries && !r.flags.dirty
    && e.current == PointerAfter(d, r.reached)
  }

  /** What a pass with fork `fork` made of flags and index. */
  ghost predicate PassFlags(t: Tree, chain: seq<Block>, d: DiskState, before: Status, fork: Cursor, r: PassResult)
    requires WellFormedTree(t)
  {
    var e := DoAll(d, r.acts);
    && Reached(chain, fork, r.reached)
    && FlagsAfter(t, chain, before, r.flags.entries, HashOf(CursorAt(d.current)), HashOf(fork), fork.height + 1,
                  r.reached.height)
    && Saved(e, r.flags)
    && IndexBounds(LoadIndex(d.index), LoadIndex(e.index), chain, fork.height + 1, r.reached.height)
    && (Completed(r) ==> CompletedDisk(chain, d, fork, r))
  }

  lemma VisitedByHeight(t: Tree, chain: seq<Block>, from: nat, top: int, x: Hash)
    requires ActiveChain(t, chain) && top < |chain| && x in t
    ensures Visited(chain, from, top, x) <==> from <= t[x].height <= top && chain[t[x].height].hash == x
  {
    if Visited(chain, from, top, x) {
      var h :| from <= h <= top && chain[h].hash == x;
      assert InTree(t, chain[h]);
    }
  }

  lemma WalkFlagsAfter(t: Tree, chain: seq<Block>, before: Status, mid: Status, pos: Hash, fork: Hash, idx: ByHash,
                       from: nat, w: Walk)
    requires WellFormedTree(t) && ActiveChain(t, chain) && DetachedDownTo(t, before, mid, pos, fork)
    requires FlagWalk(chain, mid, idx, from, w)
    ensures FlagsAfter(t, chain, before, w.flags.entries, pos, fork, from, w.at.height)
  {
    forall x | x in t
      ensures Canonical(w.flags.entries, t[x].height, x) <==>
              || (Canonical(before, t[x].height, x) && !(AncestorOrSelf(t, x, pos) && !AncestorOrSelf(t, x, fork)))
              || Visited(chain, from, w.at.height, x)
    {
      VisitedByHeight(t, chain, from, w.at.height, x);
    }
  }

  lemma WalkIndexAfter(chain: seq<Block>, mid: Status, idx: ByHash, from: nat, w: Walk)
    requires FlagWalk(chain, mid, idx, from, w) && w.batch == []
    ensures IndexAfter(idx, LoadIndex(w.d.index), chain, from, w.at.height)
  {
    forall x
      ensures x in LoadIndex(w.d.index) <==> x in idx || Visited(chain, from, w.at.height, x)
    {
      assert Known(LoadIndex(w.d.index), w.batch, x) <==> x in LoadIndex(w.d.index);
    }
  }

  /** No action takes a row out of the index. */
  lemma {:induction false} IndexOnlyGrows(d: DiskState, acts: seq<Action>)
    ensures forall x :: x in LoadIndex(d.index) ==> x in LoadIndex(DoAll(d, acts).index)
    decreases |acts|
  {
    if acts != [] {
      var n := |acts| - 1;
      IndexOnlyGrows(d, acts[..n]);
      if acts[n].IndexAppend? {
        LoadIndexAppend(DoAll(d, acts[..n]).index, acts[n].rows);
      }
    }
  }

  lemma StartFlags(t: Tree, node: Node, d: DiskState, p: Prep)
    requires p.Ready? && DoAll(d, p.acts).index == d.index && Saved(DoAll(d, p.acts), p.flags)
    requires OnChain(t, LoadIndex(d.index), node.chain, p.at) && |node.chain| > 0
    ensures FlagWalk(node.chain, p.flags.entries, LoadIndex(d.index), p.at.height + 1, StartWalk(node, d, p))
  {
    var w := StartWalk(node, d, p);
    forall x
      ensures Known(LoadIndex(w.d.index), w.batch, x) <==> x in LoadIndex(d.index)
      ensures !Visited(node.chain, p.at.height + 1, w.at.height, x)
    {
    }
  }

  lemma EndFlags(cfg: Config, mode: PF.Mode, chain: seq<Block>, d: DiskState, mid: Status, idx: ByHash, from: nat,
                 w: Walk)
    requires w.d == DoAll(d, w.acts) && FlagWalk(chain, mid, idx, from, w)
    ensures var c := Checkpoint(cfg, mode, w);
            var e := DoAll(d, c.acts);
            && e == c.d && FlagWalk(chain, mid, idx, from, c) && c.at == w.at
            && IndexAfter(idx, LoadIndex(e.index), chain, from, w.at.height)
            && e.status == c.flags.entries && !c.flags.dirty
            && e.current == PointerAfter(w.d, w.at)
  {
    CheckpointFlags(cfg, mode, chain, mid, idx, from, w);
    CheckpointFacts(cfg, mode, w);
    WalkIndexAfter(chain, mid, idx, from, Checkpoint(cfg, mode, w));
    DoAppend(d, w.acts, CheckpointActs(cfg, mode, w));
  }

  /** The walk a pass ends with. */
  ghost predicate EndWalk(t: Tree, chain: seq<Block>, d: DiskState, before: Status, mid: Status, fork: Cursor, w: Walk)
    requires WellFormedTree(t)
  {
    && w.d == DoAll(d, w.acts)
    && DetachedDownTo(t, before, mid, HashOf(CursorAt(d.current)), HashOf(fork))
    && FlagWalk(chain, mid, LoadIndex(d.index), fork.height + 1, w)
    && (w.at.height == fork.height ==> w.at == fork)
    && (w.at.hash.None? ==> w.d.current == d.current)
    && (w.at.hash.Some? ==> w.at.height >= 0)
  }

  lemma WalkIndexBounds(chain: seq<Block>, d: DiskState, mid: Status, from: nat, w: Walk)
    requires FlagWalk(chain, mid, LoadIndex(d.index), from, w) && w.d == DoAll(d, w.acts)
    ensures IndexBounds(LoadIndex(d.index), LoadIndex(w.d.index), chain, from, w.at.height)
  {
    IndexOnlyGrows(d, w.acts);
    forall x | x in LoadIndex(w.d.index)
      ensures x in LoadIndex(d.index) || Visited(chain, from, w.at.height, x)
    {
      assert Known(LoadIndex(w.d.index), w.batch, x);
    }
  }

  /** What the end of the walk says of flags and index. */
  ghost predicate WalkSummary(t: Tree, chain: seq<Block>, d: DiskState, before: Status, fork: Cursor, w: Walk)
    requires WellFormedTree(t)
  {
    && w.d == DoAll(d, w.acts)
    && Reached(chain, fork, w.at)
    && FlagsAfter(t, chain, before, w.flags.entries, HashOf(CursorAt(d.current)), HashOf(fork), fork.height + 1,
                  w.at.height)
    && Saved(w.d, w.flags)
    && IndexBounds(LoadIndex(d.index), LoadIndex(w.d.index), chain, fork.height + 1, w.at.height)
  }

  lemma WalkPlaced(chain: seq<Block>, mid: Status, idx: ByHash, from: nat, w: Walk)
    requires FlagWalk(chain, mid, idx, from, w)
    ensures Saved(w.d, w.flags) && from - 1 <= w.at.height < |chain|
    ensures w.at.height >= from ==> w.at.hash == Some(chain[w.at.height].hash)
  {
  }

  lemma EndWalkSummary(t: Tree, chain: seq<Block>, d: DiskState, before: Status, mid: Status, fork: Cursor, w: Walk)
    requires WellFormedTree(t) && ActiveChain(t, chain) && EndWalk(t, chain, d, before, mid, fork, w)
    ensures WalkSummary(t, chain, d, before, fork, w)
  {
    hide FlagsAfter, IndexBounds, FlagWalk, DetachedDownTo, WellFormedTree, ActiveChain, AncestorOrSelf, Canonical,
      DoAll;
    WalkPlaced(chain, mid, LoadIndex(d.index), fork.height + 1, w);
    WalkFlagsAfter(t, chain, before, mid, HashOf(CursorAt(d.current)), HashOf(fork), LoadIndex(d.index),
                   fork.height + 1, w);
    WalkIndexBounds(chain, d, mid, fork.height + 1, w);
  }

  lemma FailedFlags(t: Tree, chain: seq<Block>, d: DiskState, before: Status, fork: Cursor, w: Walk)
    requires WellFormedTree(t) && WalkSummary(t, chain, d, before, fork, w)
    ensures PassFlags(t, chain, d, before, fork, PassResult(w.acts, w.flags, Aborted, w.at))
  {
  }

  lemma CompletedEnd(t: Tree, cfg: Config, mode: PF.Mode, chain: seq<Block>, d: DiskState, before: Status, mid: Status,
                     fork: Cursor, w: Walk, outcome: Outcome)
    requires WellFormedTree(t) && EndWalk(t, chain, d, before, mid, fork, w)
    ensures var c := Checkpoint(cfg, mode, w);
            && CompletedDisk(chain, d, fork, PassResult(c.acts, c.flags, outcome, c.at))
            && FlagWalk(chain, mid, LoadIndex(d.index), fork.height + 1, c)
            && c.d == DoAll(d, c.acts) && c.at == w.at
  {
    hide FlagWalk, DoAll, LoadIndex, IndexAfter, DetachedDownTo;
    EndFlags(cfg, mode, chain, d, mid, LoadIndex(d.index), fork.height + 1, w);
  }

  lemma CompletedSummary(t: Tree, cfg: Config, mode: PF.Mode, chain: seq<Block>, d: DiskState, before: Status,
                         mid: Status, fork: Cursor, w: Walk, outcome: Outcome)
    requires WellFormedTree(t) && ActiveChain(t, chain) && EndWalk(t, chain, d, before, mid, fork, w)
    ensures var c := Checkpoint(cfg, mode, w);
            && CompletedDisk(chain, d, fork, PassResult(c.acts, c.flags, outcome, c.at))
            && WalkSummary(t, chain, d, before, fork, c)
  {
    hide CompletedDisk, FlagWalk, FlagsAfter, IndexBounds, DetachedDownTo, DoAll, ActiveChain, WellFormedTree,
      CheckpointActs;
    CompletedEnd(t, cfg, mode, chain, d, before, mid, fork, w, outcome);
    var c := Checkpoint(cfg, mode, w);
    WalkPlaced(chain, mid, LoadIndex(d.index), fork.height + 1, c);
    WalkFlagsAfter(t, chain, before, mid, HashOf(CursorAt(d.current)), HashOf(fork), LoadIndex(d.index),
                   fork.height + 1, c);
    WalkIndexBounds(chain, d, mid, fork.height + 1, c);
  }

  lemma CompletedFlags(t: Tree, chain: seq<Block>, d: DiskState, before: Status, fork: Cursor, c: Walk,
                       outcome: Outcome)
    requires WellFormedTree(t) && WalkSummary(t, chain, d, before, fork, c)
    requires CompletedDisk(chain, d, fork, PassResult(c.acts, c.flags, outcome, c.at))
    ensures PassFlags(t, chain, d, before, fork, PassResult(c.acts, c.flags, outcome, c.at))
  {
  }

  lemma CheckpointStays(cfg: Config, mode: PF.Mode, w: Walk)
    ensures Checkpoint(cfg, mode, w).at == w.at
  {
  }

  lemma FinishFlags(t: Tree, cfg: Config, mode: PF.Mode, chain: seq<Block>, d: DiskState, before: Status, mid: Status,
                    fork: Cursor, w: Walk, ending: Ending, latest: int)
    requires WellFormedTree(t) && ActiveChain(t, chain) && EndWalk(t, chain, d, before, mid, fork, w)
    ensures PassFlags(t, chain, d, before, fork, FinishWalk(cfg, mode, w, ending, latest))
  {
    hide EndWalk, PassFlags, WalkSummary, CompletedDisk, Checkpoint, ActiveChain, WellFormedTree;
    CheckpointStays(cfg, mode, w);
    if ending.Failed? {
      EndWalkSummary(t, chain, d, before, mid, fork, w);
      FailedFlags(t, chain, d, before, fork, w);
    } else {
      var outcome := if w.at.height >= latest then CaughtUp else Again;
      CompletedSummary(t, cfg, mode, chain, d, before, mid, fork, w, outcome);
      CompletedFlags(t, chain, d, before, fork, Checkpoint(cfg, mode, w), outcome);
    }
  }

  // --- Putting the pass together --------------------------------------------

  /** While the position is unset nothing was checkpointed. */
  ghost predicate Unset(d: DiskState, fork: Cursor, w: Walk) {
    && (w.at.height == fork.height ==> w.at == fork)
    && (w.at.hash.None? ==> w.d.current == d.current)
    && (w.at.hash.Some? ==> w.at.height >= 0)
    && w.at.height >= fork.height
  }

  lemma LoopUnset(cfg: Config, mode: PF.Mode, chain: seq<Block>, d: DiskState, fork: Cursor, w: Walk, n: nat)
    requires Unset(d, fork, w) && w.at.height + 1 + n <= |chain|
    requires forall i :: 0 <= i < |chain| ==> chain[i].height == i
    ensures Unset(d, fork, VisitAll(cfg, mode, w, chain[w.at.height + 1..w.at.height + 1 + n]))
  {
    var step := (v, b) => VisitAndCheckpoint(cfg, mode, v, b);
    var Inv := v => Unset(d, fork, v);
    forall v: Walk, b: Block {:trigger step(v, b)}
      | Inv(v) && w.at.height <= v.at.height && v.at.height + 1 < |chain| && b == chain[v.at.height + 1]
      ensures Inv(step(v, b)) && step(v, b).at.height == v.at.height + 1
    {
    }
    FoldInduction(step, chain, w, n, Inv);
  }

  /** The preparation leaves a fork on the chain, and flags that say so. */
  ghost predicate Forked(t: Tree, chain: seq<Block>, d: DiskState, before: Status, p: Prep)
    requires WellFormedTree(t)
  {
    var e := DoAll(d, p.acts);
    && p.Ready?
    && e.index == d.index && e.current == d.current
    && Saved(e, p.flags)
    && OnChain(t, LoadIndex(d.index), chain, p.at)
    && (p.at == NOWHERE ==> d.current == None)
    && DetachedDownTo(t, before, p.flags.entries, HashOf(CursorAt(d.current)), HashOf(p.at))
  }

  lemma LoopEndWalk(t: Tree, cfg: Config, mode: PF.Mode, chain: seq<Block>, d: DiskState, before: Status, mid: Status,
                    fork: Cursor, w: Walk, n: nat)
    requires WellFormedTree(t) && ActiveChain(t, chain) && EndWalk(t, chain, d, before, mid, fork, w)
    requires Unset(d, fork, w)
    requires w.at == fork && fork.height + 1 + n <= |chain|
    ensures EndWalk(t, chain, d, before, mid, fork, VisitAll(cfg, mode, w, chain[w.at.height + 1..w.at.height + 1 + n]))
  {
    hide FlagWalk, DetachedDownTo, VisitAll, DoAll, LoadIndex, WellFormedTree;
    LoopFlags(cfg, mode, chain, mid, LoadIndex(d.index), fork.height + 1, w, n);
    LoopTracksDisk(cfg, mode, chain, d, w, n);
    LoopUnset(cfg, mode, chain, d, fork, w, n);
  }

  lemma StartEndWalk(t: Tree, node: Node, d: DiskState, before: Status, p: Prep)
    requires WellFormedTree(t) && ActiveChain(t, node.chain) && Forked(t, node.chain, d, before, p)
    ensures var w := StartWalk(node, d, p);
            EndWalk(t, node.chain, d, before, p.flags.entries, p.at, w) && Unset(d, p.at, w)
  {
    StartFlags(t, node, d, p);
  }

  lemma LoopEndFlags(t: Tree, cfg: Config, mode: PF.Mode, chain: seq<Block>, d: DiskState, before: Status, mid: Status,
                     fork: Cursor, w: Walk, from: nat, n: nat, ending: Ending, latest: int)
    requires WellFormedTree(t) && ActiveChain(t, chain) && EndWalk(t, chain, d, before, mid, fork, w)
    requires Unset(d, fork, w)
    requires w.at == fork && from == fork.height + 1 && from + n <= |chain|
    ensures PassFlags(t, chain, d, before, fork,
                      FinishWalk(cfg, mode, VisitAll(cfg, mode, w, chain[from..from + n]), ending, latest))
  {
    hide EndWalk, PassFlags;
    LoopEndWalk(t, cfg, mode, chain, d, before, mid, fork, w, n);
    FinishFlags(t, cfg, mode, chain, d, before, mid, fork, VisitAll(cfg, mode, w, chain[from..from + n]), ending,
                latest);
  }

  lemma StretchFlags(t: Tree, cfg: Config, node: Node, d: DiskState, before: Status, p: Prep, n: nat, ending: Ending)
    requires WellFormedTree(t) && ActiveChain(t, node.chain) && p.Ready? && p.at.height + 1 + n <= |node.chain|
    requires EndWalk(t, node.chain, d, before, p.flags.entries, p.at, StartWalk(node, d, p))
    requires Unset(d, p.at, StartWalk(node, d, p))
    ensures PassFlags(t, node.chain, d, before, p.at, StretchResult(cfg, node, d, p, n, ending))
  {
    hide EndWalk, PassFlags, Unset, FinishWalk, VisitAll, ModeFor, DoAll, WellFormedTree, ActiveChain;
    LoopEndFlags(t, cfg, ModeFor(cfg, p.at, Latest(cfg, node)), node.chain, d, before, p.flags.entries, p.at,
                 StartWalk(node, d, p), p.at.height + 1, n, ending, Latest(cfg, node));
  }

  lemma RunLoopFlags(t: Tree, cfg: Config, node: Node, workers: nat, stopAt: nat, d: DiskState, before: Status, p: Prep)
    requires WellFormedTree(t) && Stable(t, node) && p.Ready? && p.at.height < |node.chain|
    requires EndWalk(t, node.chain, d, before, p.flags.entries, p.at, StartWalk(node, d, p))
    requires Unset(d, p.at, StartWalk(node, d, p))
    ensures PassFlags(t, node.chain, d, before, p.at, RunLoop(cfg, node, workers, stopAt, d, p))
  {
    var Good := r => PassFlags(t, node.chain, d, before, p.at, r);
    forall n: nat, ending {:trigger StretchResult(cfg, node, d, p, n, ending)} | p.at.height + 1 + n <= |node.chain|
      ensures Good(StretchResult(cfg, node, d, p, n, ending))
    {
      StretchFlags(t, cfg, node, d, before, p, n, ending);
    }
    LoopRule(t, cfg, node, workers, stopAt, d, p, Good);
  }

  // --- Whole passes ---------------------------------------------------------

  /** The block the pass continues from: the stored position if it is still on
      the active chain, the common ancestor otherwise. */
  function ForkOf(cfg: Config, node: Node, d: DiskState, flags: Flags): Cursor {
    Reconcile(cfg, node, LoadIndex(d.index), flags, d.current).at
  }

  /** The steps before the loop, from disk `d`. */
  ghost predicate Reconciled(t: Tree, chain: seq<Block>, d: DiskState, before: Status, p: Prep)
    requires WellFormedTree(t)
  {
    var e := DoAll(d, p.acts);
    && e.index == d.index && e.current == d.current
    && Saved(e, p.flags)
    && DetachedDownTo(t, before, p.flags.entries, HashOf(CursorAt(d.current)), HashOf(p.at))
    && (p.Ready? ==> OnChain(t, LoadIndex(d.index), chain, p.at) && (p.at == NOWHERE ==> d.current == None))
    && (p.Halt? ==> !p.outcome.CaughtUp? && !p.outcome.Again?)
  }

  lemma ReconcileIs(t: Tree, cfg: Config, node: Node, d: DiskState, flags: Flags)
    requires WellFormedTree(t) && Sound(t, d) && Saved(d, flags)
    ensures Reconciled(t, node.chain, d, flags.entries, Reconcile(cfg, node, LoadIndex(d.index), flags, d.current))
  {
    hide Reconcile, PF.Consistent, NotAhead, FilesClosed;
    var p := Reconcile(cfg, node, LoadIndex(d.index), flags, d.current);
    HaltsFailing(cfg, node, LoadIndex(d.index), flags, d.current);
    ReconcileFlags(t, cfg, node, d, LoadIndex(d.index), flags, d.current);
    ReconcileOnChain(t, cfg, node, LoadIndex(d.index), flags, d.current);
    HarmlessLeaves(d, p.acts);
  }

  lemma NoneVisited(chain: seq<Block>, from: int, top: int)
    requires from > top
    ensures forall x :: !Visited(chain, from, top, x)
  {
  }

  /** A pass that ends where the recovery left it. */
  lemma EndAtFork(t: Tree, chain: seq<Block>, d: DiskState, before: Status, p: Prep, outcome: Outcome)
    requires WellFormedTree(t) && Reconciled(t, chain, d, before, p) && !outcome.CaughtUp? && !outcome.Again?
    ensures PassFlags(t, chain, d, before, p.at, PassResult(p.acts, p.flags, outcome, p.at))
  {
    NoneVisited(chain, p.at.height + 1, p.at.height);
  }

  lemma AtForkFlags(t: Tree, chain: seq<Block>, before: Status, after: Status, pos: Hash, at: Cursor)
    requires WellFormedTree(t) && DetachedDownTo(t, before, after, pos, HashOf(at))
    ensures FlagsAfter(t, chain, before, after, pos, HashOf(at), at.height + 1, at.height)
  {
    NoneVisited(chain, at.height + 1, at.height);
  }

  lemma SaveAtFork(t: Tree, chain: seq<Block>, d: DiskState, before: Status, p: Prep)
    requires WellFormedTree(t) && Reconciled(t, chain, d, before, p) && p.Ready?
    ensures var acts := p.acts + SavePointer(p.at) + FlushFlags(p.flags);
            PassFlags(t, chain, d, before, p.at, PassResult(acts, p.flags.(dirty := false), CaughtUp, p.at))
  {
    hide DoAll, DetachedDownTo, AncestorOrSelf, WellFormedTree, LoadIndex, SavePointer, FlushFlags;
    var acts := p.acts + SavePointer(p.at) + FlushFlags(p.flags);
    var e := DoAll(d, p.acts);
    AtForkFlags(t, chain, before, p.flags.entries, HashOf(CursorAt(d.current)), p.at);
    SavePointerDoes(e, p.at);
    FlushFlagsDoes(DoAll(e, SavePointer(p.at)), p.flags);
    DoAppend(d, p.acts, SavePointer(p.at));
    DoAppend(d, p.acts + SavePointer(p.at), FlushFlags(p.flags));
    NoneVisited(chain, p.at.height + 1, p.at.height);
  }

  /** What is known of a preparation that got past the first two calls. */
  ghost predicate Entered(t: Tree, chain: seq<Block>, d: DiskState, before: Status, fork: Cursor, p: Prep)
    requires WellFormedTree(t)
  {
    && p.at == fork
    && (p.Ready? ==> Forked(t, chain, d, before, p))
    && (p.Halt? ==> PassFlags(t, chain, d, before, fork, PassResult(p.acts, p.flags, p.outcome, p.at)))
  }

  lemma EnterIs(t: Tree, cfg: Config, node: Node, d: DiskState, before: Status, p: Prep)
    requires WellFormedTree(t) && Reconciled(t, node.chain, d, before, p) && p.Ready?
    ensures Entered(t, node.chain, d, before, p.at, Enter(cfg, node, None, p))
  {
    hide PassFlags;
    SaveAtFork(t, node.chain, d, before, p);
    EndAtFork(t, node.chain, d, before, p, Aborted);
  }

  lemma PrefixEntered(t: Tree, chain: seq<Block>, d: DiskState, before: Status, fork: Cursor, a: Action, p: Prep)
    requires WellFormedTree(t) && a.LatestReplace? && Entered(t, chain, Do(d, a), before, fork, p)
    ensures Entered(t, chain, d, before, fork, Prefix([a], p))
  {
    DoOne(d, a);
    DoAppend(d, [a], p.acts);
  }

  lemma PrepareEntered(t: Tree, cfg: Config, node: Node, picks: Picks, d: DiskState, flags: Flags,
                       exported: seq<Staged>)
    requires WellFormedTree(t) && Sound(t, d) && Saved(d, flags) && Exact(t, d, exported)
    requires ValidPicks(picks, d) && Begun(cfg, node)
    ensures Entered(t, node.chain, d, flags.entries, ForkOf(cfg, node, d, flags), Prepare(cfg, node, picks, d, flags))
  {
    NothingToSeed(t, d, picks, exported);
    var latest := Latest(cfg, node);
    var a := LatestReplace(Pointer(latest, node.chain[latest].hash));
    var e := Do(d, a);
    DoOne(d, a);
    assert [a] + [] == [a];
    assert Sound(t, e);
    ReconcileIs(t, cfg, node, e, flags);
    var p := Reconcile(cfg, node, LoadIndex(e.index), flags, d.current);
    var q := if p.Halt? then p else Enter(cfg, node, None, p);
    ReconciledEnters(t, cfg, node, e, flags.entries, p);
    PrefixEntered(t, node.chain, d, flags.entries, p.at, a, q);
  }

  lemma ReconciledEnters(t: Tree, cfg: Config, node: Node, d: DiskState, before: Status, p: Prep)
    requires WellFormedTree(t) && Reconciled(t, node.chain, d, before, p)
    ensures Entered(t, node.chain, d, before, p.at, if p.Halt? then p else Enter(cfg, node, None, p))
  {
    if p.Halt? {
      EndAtFork(t, node.chain, d, before, p, p.outcome);
    } else {
      EnterIs(t, cfg, node, d, before, p);
    }
  }

  lemma ForkedHeight(t: Tree, chain: seq<Block>, d: DiskState, before: Status, p: Prep)
    requires WellFormedTree(t) && ActiveChain(t, chain) && Forked(t, chain, d, before, p)
    ensures p.at.height < |chain|
  {
  }

  /** What a pass makes of the flags, completed or cut short. */
  lemma PassFlagsHold(t: Tree, cfg: Config, node: Node, workers: nat, stopAt: nat, picks: Picks, d: DiskState,
                      flags: Flags)
    requires WellFormedTree(t) && Stable(t, node) && Sound(t, d) && SomeExact(t, d) && Saved(d, flags)
    requires ValidPicks(picks, d) && Begun(cfg, node)
    ensures PassFlags(t, node.chain, d, flags.entries, ForkOf(cfg, node, d, flags),
                      RunPass(cfg, node, workers, stopAt, picks, d, flags))
  {
    hide PassFlags, Sound, RunLoop, StartWalk;
    var exported :| Exact(t, d, exported);
    var p := Prepare(cfg, node, picks, d, flags);
    PrepareEntered(t, cfg, node, picks, d, flags, exported);
    if p.Ready? {
      ForkedHeight(t, node.chain, d, flags.entries, p);
      StartEndWalk(t, node, d, flags.entries, p);
      RunLoopFlags(t, cfg, node, workers, stopAt, d, flags.entries, p);
    }
  }

  // --- Main results ----------------------------------------------------------

  ghost predicate PassInput(t: Tree, node: Node, picks: Picks, d: DiskState, flags: Flags)
    requires WellFormedTree(t)
  {
    && Stable(t, node) && ValidPicks(picks, d)
    && Sound(t, d) && SomeExact(t, d) && Saved(d, flags)
  }

  /** A pass that completes got through the recovery. */
  lemma CompletedReconciles(t: Tree, cfg: Config, node: Node, workers: nat, stopAt: nat, picks: Picks, d: DiskState,
                            flags: Flags, exported: seq<Staged>)
    requires Exact(t, d, exported) && ValidPicks(picks, d) && Begun(cfg, node)
    requires Completed(RunPass(cfg, node, workers, stopAt, picks, d, flags))
    ensures Reconcile(cfg, node, LoadIndex(d.index), flags, d.current).Ready?
  {
    hide Enter, RunLoop, Reconcile;
    NothingToSeed(t, d, picks, exported);
    var a := LatestReplace(Pointer(Latest(cfg, node), node.chain[Latest(cfg, node)].hash));
    DoOne(d, a);
    assert [a] + [] == [a];
    HaltsFailing(cfg, node, LoadIndex(d.index), flags, d.current);
  }

  lemma ReadyFork(t: Tree, cfg: Config, node: Node, d: DiskState, flags: Flags)
    requires WellFormedTree(t) && IndexClosed(t, LoadIndex(d.index)) && PointerIndexed(t, LoadIndex(d.index), d.current)
    requires Saved(d, flags) && Reconcile(cfg, node, LoadIndex(d.index), flags, d.current).Ready?
    ensures var fork := ForkOf(cfg, node, d, flags);
            && OnChain(t, LoadIndex(d.index), node.chain, fork)
            && (d.current.Some? ==> fork.height >= 0 && AncestorOrSelf(t, HashOf(fork), d.current.value.hash))
            && (d.current.None? ==> fork == NOWHERE)
  {
    hide Reconcile;
    ReconcileFlags(t, cfg, node, d, LoadIndex(d.index), flags, d.current);
    ReconcileOnChain(t, cfg, node, LoadIndex(d.index), flags, d.current);
  }

  lemma CompletedFork(t: Tree, cfg: Config, node: Node, workers: nat, stopAt: nat, picks: Picks, d: DiskState,
                      flags: Flags)
    requires WellFormedTree(t) && PassInput(t, node, picks, d, flags) && Begun(cfg, node)
    requires Completed(RunPass(cfg, node, workers, stopAt, picks, d, flags))
    ensures var fork := ForkOf(cfg, node, d, flags);
            && OnChain(t, LoadIndex(d.index), node.chain, fork)
            && (d.current.Some? ==> fork.height >= 0 && AncestorOrSelf(t, HashOf(fork), d.current.value.hash))
            && (d.current.None? ==> fork == NOWHERE)
  {
    hide RunPass, Reconcile, ForkOf, PF.Consistent, NotAhead, FilesClosed, WrittenIs;
    var exported :| Exact(t, d, exported);
    CompletedReconciles(t, cfg, node, workers, stopAt, picks, d, flags, exported);
    ReadyFork(t, cfg, node, d, flags);
  }

  /** Where a completed pass leaves the stored position: on the active chain. */
  lemma CompletedPosition(t: Tree, chain: seq<Block>, d: DiskState, before: Status, fork: Cursor, r: PassResult)
    requires WellFormedTree(t) && ActiveChain(t, chain) && PassFlags(t, chain, d, before, fork, r) && Completed(r)
    requires OnChain(t, LoadIndex(d.index), chain, fork)
    requires d.current.None? ==> fork == NOWHERE
    requires d.current.Some? ==> fork.height >= 0
    ensures var e := DoAll(d, r.acts);
            && (d.current.Some? ==> e.current.Some?)
            && (e.current.None? ==> r.reached == NOWHERE)
            && (e.current.Some? ==>
                  && e.current.value == Pointer(r.reached.height, HashOf(r.reached))
                  && r.reached.height < |chain| && chain[r.reached.height].hash == e.current.value.hash)
  {
  }

  /** Nothing is seeded and nothing is stale, so the pass continues from the
      fork. */
  lemma ExactPosition(t: Tree, cfg: Config, node: Node, picks: Picks, d: DiskState, flags: Flags, exported: seq<Staged>)
    requires Exact(t, d, exported) && ValidPicks(picks, d)
    ensures Position(cfg, node, picks, d, flags) == ForkOf(cfg, node, d, flags) && picks.stale == None
  {
    NothingToSeed(t, d, picks, exported);
  }

  /** The height at which a pass ends if it completes. */
  lemma CompletedHeight(t: Tree, cfg: Config, node: Node, workers: nat, stopAt: nat, picks: Picks, d: DiskState,
                        flags: Flags)
    requires WellFormedTree(t) && PassInput(t, node, picks, d, flags) && Begun(cfg, node)
    ensures var r := RunPass(cfg, node, workers, stopAt, picks, d, flags);
            Completed(r) ==> r.reached.height == EndHeight(cfg, node, stopAt, ForkOf(cfg, node, d, flags).height)
  {
    hide RunPass, ForkOf, Position, Sound, Exact, ValidPicks, Reconciles;
    var exported :| Exact(t, d, exported);
    ExactPosition(t, cfg, node, picks, d, flags, exported);
    if Completed(RunPass(cfg, node, workers, stopAt, picks, d, flags)) {
      CompletedOnChain(t, cfg, node, workers, stopAt, picks, d, flags);
    }
  }

  /** Exactly when a pass that completes leaves canonical flags that are right,
      in terms of what is there before it.  The flags in memory stand for `base`;
      this is the stored position unless the pass before was cut short by the
      node. */
  lemma CompletedPassTracksIff(t: Tree, cfg: Config, node: Node, workers: nat, stopAt: nat, picks: Picks,
                               d: DiskState, flags: Flags, base: Hash)
    requires WellFormedTree(t) && PassInput(t, node, picks, d, flags) && Begun(cfg, node) && d.current.Some?
    requires FlagsStand(t, LoadIndex(d.index), flags.entries, Some(base))
    requires Completed(RunPass(cfg, node, workers, stopAt, picks, d, flags))
    ensures var e := DoAll(d, RunPass(cfg, node, workers, stopAt, picks, d, flags).acts);
            var fork := ForkOf(cfg, node, d, flags);
            var end := EndHeight(cfg, node, stopAt, fork.height);
            && 0 <= end < |node.chain| && e.current == Some(Pointer(end, node.chain[end].hash))
            && (FlagsStand(t, LoadIndex(e.index), e.status, Some(e.current.value.hash)) <==>
                FlagsRecover(t, LoadIndex(d.index), node.chain, base, d.current.value.hash, HashOf(fork), end))
  {
    hide RunPass, ForkOf, FlagsStand, FlagsRecover, SomeExact, PF.Consistent, NotAhead, FilesClosed;
    var r := RunPass(cfg, node, workers, stopAt, picks, d, flags);
    var fork := ForkOf(cfg, node, d, flags);
    var e := DoAll(d, r.acts);
    CompletedFork(t, cfg, node, workers, stopAt, picks, d, flags);
    CompletedHeight(t, cfg, node, workers, stopAt, picks, d, flags);
    PassFlagsHold(t, cfg, node, workers, stopAt, picks, d, flags);
    CompletedPosition(t, node.chain, d, flags.entries, fork, r);
    StandIff(t, LoadIndex(d.index), LoadIndex(e.index), node.chain, flags.entries, e.status, base, d.current.value.hash,
             fork.height, r.reached.height);
  }

  // --- A pass cut short -------------------------------------------------------

  /** What the flags stand for after a pass from flags that stood for the stored
      position, whether or not it completed: the last block it visited, or the
      fork. */
  lemma FlagsStandForReached(t: Tree, chain: seq<Block>, d: DiskState, before: Status, fork: Cursor, r: PassResult)
    requires WellFormedTree(t) && ActiveChain(t, chain) && IndexClosed(t, LoadIndex(d.index))
    requires PassFlags(t, chain, d, before, fork, r)
    requires FlagsStand(t, LoadIndex(d.index), before, CursorAt(d.current).hash)
    requires if d.current.None? then fork == NOWHERE && LoadIndex(d.index) == map[]
             else fork.hash.Some? && fork.height >= 0 && AncestorOrSelf(t, fork.hash.value, d.current.value.hash)
    requires r.reached.height > fork.height ==> OnChain(t, LoadIndex(d.index), chain, fork)
    ensures FlagsStand(t, LoadIndex(DoAll(d, r.acts).index), r.flags.entries, r.reached.hash)
  {
    var idx, idx' := LoadIndex(d.index), LoadIndex(DoAll(d, r.acts).index);
    var top := r.reached.height;
    forall x | x in idx' && x in t
      ensures Canonical(r.flags.entries, t[x].height, x)
              <==> r.reached.hash.Some? && AncestorOrSelf(t, x, r.reached.hash.value)
    {
      if top > fork.height {
        if fork.height >= 0 {
          EndAncestors(t, chain, fork.height, top, x);
        } else {
          ChainAncestors(t, chain, x, top);
        }
        if AncestorOrSelf(t, x, HashOf(fork)) && fork.height >= 0 {
          AncestorTransitive(t, x, HashOf(fork), HashOf(CursorAt(d.current)));
        }
      } else if fork.height >= 0 && AncestorOrSelf(t, x, HashOf(fork)) {
        AncestorTransitive(t, x, HashOf(fork), HashOf(CursorAt(d.current)));
      }
    }
  }

  /** A recovery that halts the pass leaves it at the block it reports. */
  lemma HaltedReconcile(t: Tree, cfg: Config, node: Node, workers: nat, stopAt: nat, picks: Picks, d: DiskState,
                        flags: Flags, exported: seq<Staged>)
    requires Exact(t, d, exported) && ValidPicks(picks, d) && Begun(cfg, node)
    requires Reconcile(cfg, node, LoadIndex(d.index), flags, d.current).Halt?
    ensures RunPass(cfg, node, workers, stopAt, picks, d, flags).reached == ForkOf(cfg, node, d, flags)
  {
    hide Enter, RunLoop, Reconcile;
    NothingToSeed(t, d, picks, exported);
    var a := LatestReplace(Pointer(Latest(cfg, node), node.chain[Latest(cfg, node)].hash));
    DoOne(d, a);
    assert [a] + [] == [a];
  }

  /** The fork is the stored position or an ancestor of it, and on the active
      chain if the pass got any further. */
  lemma ForkFacts(t: Tree, cfg: Config, node: Node, workers: nat, stopAt: nat, picks: Picks, d: DiskState, flags: Flags)
    requires WellFormedTree(t) && PassInput(t, node, picks, d, flags) && Begun(cfg, node)
    ensures var fork := ForkOf(cfg, node, d, flags);
            var r := RunPass(cfg, node, workers, stopAt, picks, d, flags);
            && (if d.current.None? then fork == NOWHERE && LoadIndex(d.index) == map[]
                else fork.hash.Some? && fork.height >= 0 && AncestorOrSelf(t, fork.hash.value, d.current.value.hash))
            && (r.reached.height > fork.height ==> OnChain(t, LoadIndex(d.index), node.chain, fork))
  {
    hide RunPass, Reconcile, PF.Consistent, NotAhead, FilesClosed, WrittenIs;
    var exported :| Exact(t, d, exported);
    var idx := LoadIndex(d.index);
    ReconcileFlags(t, cfg, node, d, idx, flags, d.current);
    ReconcileHeight(cfg, node, idx, flags, d.current);
    if Reconcile(cfg, node, idx, flags, d.current).Halt? {
      HaltedReconcile(t, cfg, node, workers, stopAt, picks, d, flags, exported);
    } else {
      ReadyFork(t, cfg, node, d, flags);
    }
    if d.current.None? {
      assert forall x :: x !in idx;
    }
  }

  lemma ReconcileHeight(cfg: Config, node: Node, idx: ByHash, flags: Flags, pos: Option<Pointer>)
    ensures pos.Some? ==> Reconcile(cfg, node, idx, flags, pos).at.height >= 0
  {
  }

  /** From flags that stand for the stored position, a pass leaves flags that
      stand for the block it reached, completed or not. */
  lemma PassStands(t: Tree, cfg: Config, node: Node, workers: nat, stopAt: nat, picks: Picks, d: DiskState,
                   flags: Flags)
    requires WellFormedTree(t) && PassInput(t, node, picks, d, flags)
    requires FlagsStand(t, LoadIndex(d.index), flags.entries, CursorAt(d.current).hash)
    ensures var r := RunPass(cfg, node, workers, stopAt, picks, d, flags);
            var e := DoAll(d, r.acts);
            FlagsStand(t, LoadIndex(e.index), r.flags.entries, r.reached.hash) && Saved(e, r.flags)
  {
    hide ForkOf, RunLoop, Enter, Reconcile, FlagsStand, SomeExact, PF.Consistent, NotAhead, FilesClosed;
    if Begun(cfg, node) {
      PassFlagsHold(t, cfg, node, workers, stopAt, picks, d, flags);
      ForkFacts(t, cfg, node, workers, stopAt, picks, d, flags);
      FlagsStandForReached(t, node.chain, d, flags.entries, ForkOf(cfg, node, d, flags),
                           RunPass(cfg, node, workers, stopAt, picks, d, flags));
    }
  }

  // --- Runs -------------------------------------------------------------------

  /** The flags, in memory and on disk, stand for the stored position. */
  ghost predicate Tracks(t: Tree, p: Process)
    requires WellFormedTree(t)
  {
    && p.flags == Flags(p.d.status, false)
    && FlagsStand(t, LoadIndex(p.d.index), p.d.status, CursorAt(p.d.current).hash)
  }

  lemma PointerIsReached(d: DiskState, r: PassResult)
    requires r.reached.hash.Some? ==> r.reached.height >= 0
    requires r.reached.hash.None? ==> d.current == None
    ensures CursorAt(PointerAfter(d, r.reached)).hash == r.reached.hash
  {
  }

  /** A pass that fails for good has changed nothing but latest.csv. */
  lemma FatalChangesNothing(t: Tree, cfg: Config, node: Node, workers: nat, stopAt: nat, picks: Picks, d: DiskState,
                            flags: Flags, exported: seq<Staged>)
    requires Exact(t, d, exported) && ValidPicks(picks, d)
    requires RunPass(cfg, node, workers, stopAt, picks, d, flags).outcome.Fatal?
    ensures var e := DoAll(d, RunPass(cfg, node, workers, stopAt, picks, d, flags).acts);
            e.index == d.index && e.status == d.status && e.current == d.current
  {
    hide WalkBackFrom, FlagDetached;
    NothingToSeed(t, d, picks, exported);
    if Begun(cfg, node) {
      var a := LatestReplace(Pointer(Latest(cfg, node), node.chain[Latest(cfg, node)].hash));
      DoOne(d, a);
      assert [a] + [] == [a];
    }
  }

  /** A completed pass that began, from flags that stand for the position. */
  lemma CompletedPassTracks(t: Tree, cfg: Config, node: Node, workers: nat, stopAt: nat, picks: Picks, d: DiskState,
                            flags: Flags)
    requires WellFormedTree(t) && PassInput(t, node, picks, d, flags) && Begun(cfg, node)
    requires FlagsStand(t, LoadIndex(d.index), flags.entries, CursorAt(d.current).hash)
    requires Completed(RunPass(cfg, node, workers, stopAt, picks, d, flags))
    ensures var r := RunPass(cfg, node, workers, stopAt, picks, d, flags);
            var e := DoAll(d, r.acts);
            && Tracks(t, Process(e, r.flags))
            && (e.current.Some? ==> e.current.value.height < |node.chain|
                                    && node.chain[e.current.value.height].hash == e.current.value.hash)
  {
    hide RunPass, ForkOf, FlagsStand, SomeExact, PF.Consistent, NotAhead, FilesClosed, FlagsAfter, IndexBounds,
      IndexAfter;
    var r := RunPass(cfg, node, workers, stopAt, picks, d, flags);
    PassStands(t, cfg, node, workers, stopAt, picks, d, flags);
    PassFlagsHold(t, cfg, node, workers, stopAt, picks, d, flags);
    CompletedFork(t, cfg, node, workers, stopAt, picks, d, flags);
    CompletedPosition(t, node.chain, d, flags.entries, ForkOf(cfg, node, d, flags), r);
    PointerIsReached(d, r);
  }

  lemma WovenTracks(t: Tree, e: DiskState, d: DiskState, flags: Flags)
    requires WellFormedTree(t) && DiskReduced(e, d) && Tracks(t, Process(d, flags))
    ensures Tracks(t, Process(e, flags))
  {
  }

  lemma PassTracks(t: Tree, cfg: Config, p: Process, e: PassEvent)
    requires WellFormedTree(t) && Sound(t, p.d) && SomeExact(t, p.d) && Tracks(t, p)
    requires ValidEvent(t, cfg, p, e) && e.cut == None
    requires !Result(cfg, p, e).outcome.Aborted?
    ensures var r := Result(cfg, p, e);
            var d := DoAll(p.d, r.acts);
            Tracks(t, if r.outcome.Fatal? then Restarted(d) else Process(d, r.flags))
  {
    hide RunLoop, Enter, Reconcile, FlagsStand, Sound;
    if Result(cfg, p, e).outcome.Fatal? {
      var exported :| Exact(t, p.d, exported);
      FatalChangesNothing(t, cfg, e.node, e.workers, e.stopAt, e.picks, p.d, p.flags, exported);
    } else if Begun(cfg, e.node) {
      CompletedPassTracks(t, cfg, e.node, e.workers, e.stopAt, e.picks, p.d, p.flags);
    }
  }

  ghost predicate NoAborts(t: Tree, cfg: Config, p: Process, events: seq<PassEvent>)
    requires ValidRun(t, cfg, p, events)
    decreases |events|
  {
    events == [] ||
    (!Result(cfg, p, events[0]).outcome.Aborted? && NoAborts(t, cfg, Step(t, cfg, p, events[0]), events[1..]))
  }

  lemma StepTracks(t: Tree, cfg: Config, p: Process, e: PassEvent)
    requires WellFormedTree(t) && Sound(t, p.d) && SomeExact(t, p.d) && Tracks(t, p)
    requires ValidEvent(t, cfg, p, e) && e.cut == None
    requires !Result(cfg, p, e).outcome.Aborted?
    ensures Tracks(t, Step(t, cfg, p, e))
  {
    hide RunPass, Tracks, Sound, SomeExact;
    PassTracks(t, cfg, p, e);
    WovenReduces(p.d, Performed(cfg, p, e), e.eats);
    StatusReduced(DoWoven(p.d, Performed(cfg, p, e), e.eats), DoAll(p.d, Performed(cfg, p, e)));
    var r := Result(cfg, p, e);
    WovenTracks(t, DoWoven(p.d, Performed(cfg, p, e), e.eats), DoAll(p.d, Performed(cfg, p, e)),
                if r.outcome.Fatal? then Restarted(DoAll(p.d, Performed(cfg, p, e))).flags else r.flags);
  }

  lemma StatusReduced(e: DiskState, d: DiskState)
    requires DiskReduced(e, d)
    ensures e.status == d.status
  {
  }

  /** The two passes: `e` is cut short by the node, having got to a block, and
      `f` completes. */
  ghost predicate AbortThenComplete(t: Tree, cfg: Config, p: Process, e: PassEvent, f: PassEvent)
    requires WellFormedTree(t)
  {
    && Sound(t, p.d) && SomeExact(t, p.d) && Tracks(t, p)
    && ValidEvent(t, cfg, p, e) && e.cut == None
    && Result(cfg, p, e).outcome.Aborted? && Result(cfg, p, e).reached.hash.Some?
    && var q := Step(t, cfg, p, e);
       && ValidEvent(t, cfg, q, f) && f.cut == None
       && q.d.current.Some? && Begun(cfg, f.node) && Completed(Result(cfg, q, f))
  }

  /** What the aborted pass leaves. */
  lemma AbortLeaves(t: Tree, cfg: Config, p: Process, e: PassEvent, f: PassEvent)
    requires WellFormedTree(t) && AbortThenComplete(t, cfg, p, e, f)
    ensures var q := Step(t, cfg, p, e);
            && PassInput(t, f.node, f.picks, q.d, q.flags)
            && FlagsStand(t, LoadIndex(q.d.index), q.flags.entries, Result(cfg, p, e).reached.hash)
  {
    hide RunPass, FlagsStand, Sound, SomeExact, ValidPicks, Stable;
    var q := Step(t, cfg, p, e);
    var r := Result(cfg, p, e);
    PassStands(t, cfg, e.node, e.workers, e.stopAt, e.picks, p.d, p.flags);
    WovenReduces(p.d, Performed(cfg, p, e), e.eats);
    StatusReduced(q.d, DoAll(p.d, r.acts));
    StepKeepsSound(t, cfg, p, e);
    StepIsExact(t, cfg, p, e);
  }

  /** The pass after one that the node cut short: exactly when its flags are
      right, in terms of what is there before it.  `reached` is the block the
      aborted pass had got to. */
  lemma PassAfterAbort(t: Tree, cfg: Config, p: Process, e: PassEvent, f: PassEvent)
    requires WellFormedTree(t) && AbortThenComplete(t, cfg, p, e, f)
    ensures var q := Step(t, cfg, p, e);
            var d := DoAll(q.d, Result(cfg, q, f).acts);
            var fork := ForkOf(cfg, f.node, q.d, q.flags);
            && d.current.Some?
            && (FlagsStand(t, LoadIndex(d.index), d.status, Some(d.current.value.hash)) <==>
                FlagsRecover(t, LoadIndex(q.d.index), f.node.chain, Result(cfg, p, e).reached.hash.value,
                             q.d.current.value.hash, HashOf(fork), EndHeight(cfg, f.node, f.stopAt, fork.height)))
  {
    hide RunPass, FlagsStand, FlagsRecover, ForkOf, Sound, SomeExact, PassInput;
    var q := Step(t, cfg, p, e);
    AbortLeaves(t, cfg, p, e, f);
    CompletedPassTracksIff(t, cfg, f.node, f.workers, f.stopAt, f.picks, q.d, q.flags,
                           Result(cfg, p, e).reached.hash.value);
  }

  /** A node that still has the stored position is not asked to recover. */
  lemma StillThere(cfg: Config, node: Node, d: DiskState, flags: Flags)
    requires d.current.Some? && d.current.value.height < |node.chain|
    requires node.chain[d.current.value.height].hash == d.current.value.hash
    ensures ForkOf(cfg, node, d, flags) == CursorAt(d.current)
  {
  }

  /** The recovery of the aborted pass went below the stored position, and the
      node then returns to the branch of the stored position: that block is an
      ancestor of the new position and indexed, but it is flagged non-canonical.
      So the flags are wrong, whatever else happened. */
  lemma FlipBackLosesFlags(t: Tree, cfg: Config, p: Process, e: PassEvent, f: PassEvent)
    requires WellFormedTree(t) && AbortThenComplete(t, cfg, p, e, f)
    requires var lost := Step(t, cfg, p, e).d.current.value;
             && Result(cfg, p, e).reached.hash.value != lost.hash
             && AncestorOrSelf(t, Result(cfg, p, e).reached.hash.value, lost.hash)
             && lost.height < |f.node.chain| && f.node.chain[lost.height].hash == lost.hash
    ensures var q := Step(t, cfg, p, e);
            var d := DoAll(q.d, Result(cfg, q, f).acts);
            var lost := q.d.current.value;
            && d.current.Some?
            && lost.hash in LoadIndex(d.index) && AncestorOrSelf(t, lost.hash, d.current.value.hash)
            && !Canonical(d.status, lost.height, lost.hash)
            && !FlagsStand(t, LoadIndex(d.index), d.status, Some(d.current.value.hash))
  {
    hide RunPass, FlagsRecover, ForkOf, SomeExact, PF.Consistent, NotAhead, FilesClosed;
    var q := Step(t, cfg, p, e);
    var lost, base := q.d.current.value, Result(cfg, p, e).reached.hash.value;
    var r := Result(cfg, q, f);
    AbortLeaves(t, cfg, p, e, f);
    StillThere(cfg, f.node, q.d, q.flags);
    CompletedPassTracksIff(t, cfg, f.node, f.workers, f.stopAt, f.picks, q.d, q.flags, base);
    PassFlagsHold(t, cfg, f.node, f.workers, f.stopAt, f.picks, q.d, q.flags);
    CompletedFork(t, cfg, f.node, f.workers, f.stopAt, f.picks, q.d, q.flags);
    CompletedPosition(t, f.node.chain, q.d, q.flags.entries, ForkOf(cfg, f.node, q.d, q.flags), r);
    AncestorHeight(t, base, lost.hash);
    if AncestorOrSelf(t, lost.hash, base) {
      AncestorHeight(t, lost.hash, base);
    }
    EndAncestors(t, f.node.chain, lost.height, r.reached.height, lost.hash);
  }

  lemma NoKillsHere(events: seq<PassEvent>)
    ensures NoKills(events) && events != [] ==>
              events[0].cut == None && NoKills(events[1..])
  {
  }

  lemma {:induction false} RunTracks(t: Tree, cfg: Config, p: Process, events: seq<PassEvent>)
    requires WellFormedTree(t) && Sound(t, p.d) && SomeExact(t, p.d) && Tracks(t, p)
    requires ValidRun(t, cfg, p, events) && NoKills(events) && NoAborts(t, cfg, p, events)
    ensures Tracks(t, Run(t, cfg, p, events))
    decreases |events|
  {
    hide RunPass, Tracks, Sound, SomeExact, Step, ValidEvent, ValidPicks, DoWoven;
    NoKillsHere(events);
    if events != [] {
      var e := events[0];
      StepTracks(t, cfg, p, e);
      StepKeepsSound(t, cfg, p, e);
      StepIsExact(t, cfg, p, e);
      RunTracks(t, cfg, Step(t, cfg, p, e), events[1..]);
    }
  }

  /** The active chain of the last pass that began and completed; empty if there
      was none. */
  ghost function LastChain(t: Tree, cfg: Config, p: Process, events: seq<PassEvent>): seq<Block>
    requires ValidRun(t, cfg, p, events)
    decreases |events|
  {
    if events == [] then []
    else
      var rest := LastChain(t, cfg, Step(t, cfg, p, events[0]), events[1..]);
      if rest != [] then rest
      else if Begun(cfg, events[0].node) && Completed(Result(cfg, p, events[0])) then events[0].node.chain
      else []
  }

  ghost predicate PositionOn(chain: seq<Block>, at: Option<Pointer>) {
    at.Some? ==> at.value.height < |chain| && chain[at.value.height].hash == at.value.hash
  }

  /** One pass that the node does not cut short moves the stored position onto
      its chain, or leaves it alone. */
  lemma StepPosition(t: Tree, cfg: Config, p: Process, e: PassEvent)
    requires WellFormedTree(t) && Sound(t, p.d) && SomeExact(t, p.d) && Tracks(t, p)
    requires ValidEvent(t, cfg, p, e) && e.cut == None
    requires !Result(cfg, p, e).outcome.Aborted?
    ensures var d := Step(t, cfg, p, e).d;
            if Begun(cfg, e.node) && Completed(Result(cfg, p, e)) then PositionOn(e.node.chain, d.current)
            else d.current == p.d.current
  {
    hide RunLoop, Enter, Reconcile, FlagsStand, Sound;
    var r := Result(cfg, p, e);
    WovenReduces(p.d, Performed(cfg, p, e), e.eats);
    CurrentReduced(DoWoven(p.d, Performed(cfg, p, e), e.eats), DoAll(p.d, r.acts));
    if r.outcome.Fatal? {
      var exported :| Exact(t, p.d, exported);
      FatalChangesNothing(t, cfg, e.node, e.workers, e.stopAt, e.picks, p.d, p.flags, exported);
    } else if Begun(cfg, e.node) {
      CompletedPassTracks(t, cfg, e.node, e.workers, e.stopAt, e.picks, p.d, p.flags);
    }
  }

  lemma CurrentReduced(e: DiskState, d: DiskState)
    requires DiskReduced(e, d)
    ensures e.current == d.current
  {
  }

  lemma {:induction false} RunPosition(t: Tree, cfg: Config, p: Process, events: seq<PassEvent>)
    requires WellFormedTree(t) && Sound(t, p.d) && SomeExact(t, p.d) && Tracks(t, p)
    requires ValidRun(t, cfg, p, events) && NoKills(events) && NoAborts(t, cfg, p, events)
    ensures var c, d := LastChain(t, cfg, p, events), Run(t, cfg, p, events).d;
            if c == [] then d.current == p.d.current else PositionOn(c, d.current)
    decreases |events|
  {
    hide RunPass, Tracks, Sound, SomeExact, Step, ValidPicks, DoWoven;
    NoKillsHere(events);
    if events != [] {
      var e := events[0];
      StepPosition(t, cfg, p, e);
      StepTracks(t, cfg, p, e);
      StepKeepsSound(t, cfg, p, e);
      StepIsExact(t, cfg, p, e);
      RunPosition(t, cfg, Step(t, cfg, p, e), events[1..]);
    }
  }

  /** Canonical tracking over whole runs from nothing, on any sequence of
      chains with common blocks, the node answering: an indexed block is
      effectively canonical if and only if it is the stored position or one of
      its ancestors, and the stored position lies on the active chain of the
      last pass that completed. */
  lemma CanonicalTracking(t: Tree, cfg: Config, events: seq<PassEvent>)
    requires WellFormedTree(t)
    requires ValidRun(t, cfg, FRESH, events) && NoKills(events) && NoAborts(t, cfg, FRESH, events)
    ensures var d := Run(t, cfg, FRESH, events).d;
            && (forall x :: x in LoadIndex(d.index) ==>
                  x in t &&
                  (Canonical(d.status, t[x].height, x)
                   <==> d.current.Some? && AncestorOrSelf(t, x, d.current.value.hash)))
            && PositionOn(LastChain(t, cfg, FRESH, events), d.current)
  {
    EmptyIsSound(t);
    EmptyIsExact(t);
    RunTracks(t, cfg, FRESH, events);
    RunPosition(t, cfg, FRESH, events);
    RunKeepsSound(t, cfg, FRESH, events);
  }
}
