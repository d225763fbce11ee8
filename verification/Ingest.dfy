/** The ingest loop itself, updating its stores and files in place.  Each
    method is tied to the pass specification it implements. */
module Ingest {
  import opened Basics
  import opened Chain
  import opened IndexFile
  import opened DiskModel
  import opened DiskIO
  import opened Pass
  import opened PartWriter
  import opened ReorgState
  import opened Prefetch
  import PassFacts
  import CrashSafety
  import opened IngestFacts
  import PF = PartFiles
  import PR = PartRuns

  /** A value, or the way in which an exception ends the pass. */
  datatype Attempt<T> = Got(value: T) | Raised(outcome: Outcome)

  class Ingester {
    const disk: Disk
    const cfg: Config
    const index: IndexStore
    const status: BlockStatusStore
    const blocks: PartSequencer
    const transactions: PartSequencer
    const inputs: PartSequencer
    const outputs: PartSequencer
    var buffers: Quad<seq<Row>>

    function Sequencer(k: Kind): PartSequencer {
      match k
      case Blocks => blocks
      case Transactions => transactions
      case Inputs => inputs
      case Outputs => outputs
    }

    /** Everything shares one disk, and memory agrees with it. */
    ghost predicate Valid()
      reads this, disk, index, status, blocks, transactions, inputs, outputs
    {
      && index.disk == disk && status.disk == disk && index.Valid()
      && (forall k :: Sequencer(k).disk == disk && Sequencer(k).kind == k && Sequencer(k).cfg == cfg.parts)
      && (forall k :: Sequencer(k).Memory() == PF.Load(disk.state.parts.At(k)))
      && CrashSafety.PartsConsistent(disk.state.parts)
    }

    constructor (disk: Disk, cfg: Config)
      requires CrashSafety.PartsConsistent(disk.state.parts)
      ensures Valid() && this.disk == disk && this.cfg == cfg
      ensures index.pending == [] && index.CacheSound() && !index.allCurrent && fresh(index)
      ensures status.Memory() == Flags(disk.state.status, false)
    {
      this.disk, this.cfg := disk, cfg;
      index := new IndexStore(disk);
      status := new BlockStatusStore(disk);
      blocks := new PartSequencer(disk, Blocks, cfg.parts);
      transactions := new PartSequencer(disk, Transactions, cfg.parts);
      inputs := new PartSequencer(disk, Inputs, cfg.parts);
      outputs := new PartSequencer(disk, Outputs, cfg.parts);
      buffers := Quad([], [], [], []);
    }

    ghost predicate Buffered(batch: seq<Staged>)
      reads this
    {
      forall k :: buffers.At(k) == RowsFor(batch, k)
    }

    /** The objects hold the walk `w`: in particular the buffered blocks are
        exactly the staged index rows. */
    ghost predicate Represents(w: Walk)
      reads this, disk, index, status
    {
      && disk.state == w.d
      && status.Memory() == w.flags
      && index.pending == IndexRows(w.batch)
      && Buffered(w.batch)
    }

    // --- Checkpoint ----------------------------------------------------------

    lemma {:induction false} DrainLeaves(mode: PF.Mode, before: DiskState, batch: seq<Staged>, kinds: seq<Kind>,
                                         k: Kind)
      requires k !in kinds
      ensures var e := DoAll(before, DrainKinds(cfg, mode, before, batch, kinds));
              e.parts.At(k) == before.parts.At(k) && e.index == before.index
      decreases |kinds|
    {
      if kinds != [] {
        var n := |kinds| - 1;
        DrainLeaves(mode, before, batch, kinds[..n], k);
        var acts := DrainKinds(cfg, mode, before, batch, kinds[..n]);
        DoAppend(before, acts, DrainActs(cfg, mode, before, batch, kinds[n]));
        var f := before.parts.At(kinds[n]);
        DoTagged(DoAll(before, acts), kinds[n],
                 PF.WriteActions(cfg.parts, f, PF.Load(f), mode, RowsFor(batch, kinds[n])));
      }
    }

    /** Drains one logical CSV and clears its buffer. */
    method DrainKind(k: Kind, mode: PF.Mode, ghost before: DiskState, ghost history: seq<Action>,
                     ghost batch: seq<Staged>, ghost kinds: seq<Kind>)
      requires Valid() && k !in kinds && buffers.At(k) == RowsFor(batch, k)
      requires disk.Performed(before, history, DrainKinds(cfg, mode, before, batch, kinds))
      modifies `buffers, disk, Sequencer(k)
      ensures Valid()
      ensures disk.Performed(before, history, DrainKinds(cfg, mode, before, batch, kinds + [k]))
      ensures buffers == old(buffers).With(k, [])
    {
      hide PF.WriteActions, PF.Consistent;
      ghost var acts := DrainKinds(cfg, mode, before, batch, kinds);
      ghost var f := disk.state.parts.At(k);
      DrainLeaves(mode, before, batch, kinds, k);
      PR.CompleteWrite(cfg.parts, f, mode, RowsFor(batch, k)) by {
        assert CrashSafety.PartsConsistent(disk.state.parts);
      }
      CrashSafety.DrainKindStores(cfg, mode, disk.state, batch, k);
      Sequencer(k).Write(mode, buffers.At(k));
      buffers := buffers.With(k, []);
      ghost var more := DrainActs(cfg, mode, before, batch, k);
      assert (kinds + [k])[..|kinds|] == kinds;
      PerformedThen(before, history, acts, old(disk.state), more, disk);
      forall j
        ensures Sequencer(j).Memory() == PF.Load(disk.state.parts.At(j))
      {
      }
    }

    /** The buffers of the logical CSVs `kinds` are drained. */
    ghost predicate Drained(batch: seq<Staged>, kinds: seq<Kind>)
      reads this
    {
      forall k :: buffers.At(k) == if k in kinds then [] else RowsFor(batch, k)
    }

    lemma NoneDrained(mode: PF.Mode, batch: seq<Staged>)
      requires Buffered(batch)
      ensures Drained(batch, KINDS[..0])
      ensures disk.Performed(disk.state, disk.done, DrainKinds(cfg, mode, disk.state, batch, KINDS[..0]))
    {
      assert disk.done + [] == disk.done;
    }

    lemma AllDrained(mode: PF.Mode, before: DiskState, history: seq<Action>, batch: seq<Staged>)
      requires Drained(batch, KINDS)
      requires disk.Performed(before, history, DrainKinds(cfg, mode, before, batch, KINDS))
      ensures Buffered([])
      ensures disk.Performed(before, history, Drain(cfg, mode, before, batch)) && disk.state.index == before.index
    {
      hide DrainKinds;
      forall k { PassFacts.AllKinds(k); }
      PassFacts.DrainFacts(cfg, mode, before, batch);
    }

    /** Drains the four logical CSVs one after the other. */
    method DrainAll(mode: PF.Mode, ghost batch: seq<Staged>)
      requires Valid() && Buffered(batch)
      modifies `buffers, disk, blocks, transactions, inputs, outputs
      ensures Valid() && Buffered([])
      ensures disk.Performed(old(disk.state), old(disk.done), Drain(cfg, mode, old(disk.state), batch))
      ensures disk.state.index == old(disk.state.index)
    {
      hide PF.Load, PF.Consistent, DrainKinds, RowsFor, DoAll;
      ghost var before, history := disk.state, disk.done;
      NoneDrained(mode, batch);
      var i := 0;
      while i < |KINDS|
        invariant 0 <= i <= |KINDS| && Valid() && Drained(batch, KINDS[..i])
        invariant disk.Performed(before, history, DrainKinds(cfg, mode, before, batch, KINDS[..i]))
      {
        assert KINDS[..i + 1] == KINDS[..i] + [KINDS[i]];
        DrainKind(KINDS[i], mode, before, history, batch, KINDS[..i]);
        i := i + 1;
      }
      assert KINDS[..i] == KINDS;
      AllDrained(mode, before, history, batch);
    }

    /** Writes current.csv, if there is a position to write. */
    method WritePointer(at: Cursor)
      modifies disk
      ensures disk.Performed(old(disk.state), old(disk.done), SavePointer(at))
      ensures disk.state == old(disk.state).(current := PassFacts.PointerAfter(old(disk.state), at))
    {
      if at.hash.Some? && at.height >= 0 {
        disk.Perform(CurrentReplace(Pointer(at.height, at.hash.value)));
      } else {
        assert disk.done + [] == disk.done;
      }
    }

    /** Drain, index, flags, pointer. */
    method DoCheckpoint(mode: PF.Mode, at: Cursor, ghost w: Walk)
      requires Valid() && Represents(w) && at == w.at
      modifies this, disk, index, status, blocks, transactions, inputs, outputs
      ensures Valid() && Represents(Checkpoint(cfg, mode, w))
      ensures disk.Performed(old(disk.state), old(disk.done), CheckpointActs(cfg, mode, w))
      ensures index.allCurrent == old(index.allCurrent) && (old(index.CacheSound()) ==> index.CacheSound())
    {
      hide Drain, PF.Load, PF.Consistent, DoAll, RowsFor, IndexRows, CrashSafety.PartsConsistent, LoadIndex,
        DistinctHashes;
      ghost var before, history := disk.state, disk.done;
      ghost var a1, a2 := Drain(cfg, mode, before, w.batch), FlushIndex(w.batch);
      ghost var a3, a4 := FlushFlags(w.flags), SavePointer(w.at);
      DrainAll(mode, w.batch);
      ghost var d1 := disk.state;
      FlushedVersions(w.batch);
      index.Flush();
      PerformedThen(before, history, a1, d1, a2, disk);
      ghost var d2 := disk.state;
      status.Flush();
      PerformedThen(before, history, a1 + a2, d2, a3, disk);
      ghost var d3 := disk.state;
      WritePointer(at);
      PerformedThen(before, history, a1 + a2 + a3, d3, a4, disk);
    }

    lemma FlushedVersions(batch: seq<Staged>)
      ensures forall r :: r in IndexRows(batch) ==> r.version >= CURRENT_SCHEMA
      ensures IndexRows([]) == []
    {
    }

    // --- One block -----------------------------------------------------------

    /** Stages one parsed block's rows and its index row. */
    method BufferExport(b: Block, prevTime: Option<int>, ghost batch: seq<Staged>)
      requires Valid() && Buffered(batch) && index.pending == IndexRows(batch)
      requires NeedsExport(index.byHash, index.pending, b.hash) && !HasStaged(index.pending, b.hash)
      modifies `buffers, index`pending
      ensures Valid()
      ensures var s := Staged(b, if prevTime.Some? then Some(b.time - prevTime.value) else None);
              Buffered(batch + [s]) && index.pending == IndexRows(batch + [s])
    {
      hide PF.Load, PF.Consistent;
      var gap := if prevTime.Some? then Some(b.time - prevTime.value) else None;
      var before := buffers;
      buffers := Quad(before.blocks + RowsOf(b, gap, Blocks), before.transactions + RowsOf(b, gap, Transactions),
                      before.inputs + RowsOf(b, gap, Inputs), before.outputs + RowsOf(b, gap, Outputs));
      ghost var next := batch + [Staged(b, gap)];
      assert next[..|batch|] == batch;
      forall k
        ensures buffers.At(k) == RowsFor(next, k)
      {
        assert before.At(k) == RowsFor(batch, k);
        match k
        case Blocks =>
        case Transactions =>
        case Inputs =>
        case Outputs =>
      }
      PutStagedNew(index.pending, IndexRowOf(b));
      index.Add(IndexRowOf(b));
      assert IndexRows(next) == IndexRows(batch) + [IndexRowOf(b)];
    }

    /** One height of the active chain, fetched here or by a worker: exported if
        its hash is not indexed, and confirmed canonical. */
    method ProcessBlock(b: Block, prevTime: Option<int>, ghost w: Walk)
      requires Valid() && Represents(w) && prevTime == w.prevTime
      requires !HasStaged(IndexRows(w.batch), b.hash)
      modifies `buffers, index`pending, status
      ensures Valid() && Represents(Visit(w, b))
    {
      hide PF.Load, PF.Consistent;
      if index.NeedsExportOf(b.hash) {
        BufferExport(b, prevTime, w.batch);
      }
      status.SetCanonicalFlagIfPresent(b.height, b.hash, true);
    }

    // --- Where the pass starts -----------------------------------------------

    /** Before the first checkpoint the index has every block found on disk, if
        the cache says that no row is stale. */
    ghost predicate SeedSafe()
      reads this, disk, index
    {
      disk.state.current.None? && index.allCurrent ==>
        forall r :: r in FoundRows(disk.state.parts.blocks) ==> r.block in index.byHash
    }

    /** Indexes every row at the oldest schema; the highest row is returned. */
    method Seed(rows: seq<Row>) returns (top: Row)
      requires Valid() && index.pending == [] && index.CacheSound() && rows != []
      requires index.allCurrent ==> forall r :: r in rows ==> r.block in index.byHash
      modifies index, disk
      ensures index.Valid() && index.pending == [] && index.CacheSound() && index.allCurrent == old(index.allCurrent)
      ensures IsTop(rows, top) && forall r :: r in rows ==> r.block in index.byHash
      ensures var staged := SeedPending(old(index.byHash), [], rows);
              disk.Performed(old(disk.state), old(disk.done), if staged == [] then [] else [IndexAppend(staged)])
      ensures disk.state == old(disk.state).(index := disk.state.index)
    {
      hide PF.Load, PF.Consistent, DoAll, AddRow, DistinctHashes, LoadIndex, FoundRows, CrashSafety.PartsConsistent;
      top := rows[0];
      for i := 0 to |rows|
        invariant Valid() && top in rows
        invariant forall j :: 0 <= j < i ==> rows[j].height <= top.height
        invariant SeedPending(index.byHash, [], rows) == SeedPending(index.byHash, index.pending, rows[i..])
        modifies index`pending
      {
        if rows[i].height > top.height {
          top := rows[i];
        }
        index.Add(IndexRow(rows[i].height, rows[i].block, rows[i].prev, 1));
        assert rows[i..][0] == rows[i] && rows[i..][1..] == rows[i + 1..];
      }
      assert rows[|rows|..] == [];
      if index.allCurrent {
        SeedNothing(index.byHash, rows);
      }
      SeedCovers(index.byHash, [], rows);
      LoadIndexKeys(index.pending);
      index.Flush();
    }

    /** The stored position or, if there is none, the highest block found in
        the blocks parts, all of which are then indexed at the oldest schema. */
    method FindPosition() returns (pointer: Option<Pointer>, ghost top: Row)
      requires Valid() && index.pending == [] && index.CacheSound() && SeedSafe()
      modifies index, disk
      ensures Valid() && index.pending == [] && index.CacheSound()
      ensures index.allCurrent == old(index.allCurrent)
      ensures disk.state == old(disk.state).(index := disk.state.index)
      ensures pointer == Locate(old(disk.state), top).pointer
      ensures disk.Performed(old(disk.state), old(disk.done), Locate(old(disk.state), top).acts)
      ensures var rows := FoundRows(disk.state.parts.blocks);
              disk.state.current.None? ==> (rows != [] ==> IsTop(rows, top)) && forall r :: r in rows ==>
                r.block in index.byHash
    {
      hide PF.Load, PF.Consistent, DoAll, SeedPending;
      top := Row("", 0, "", 0, None);
      NothingPerformed(disk);
      if disk.state.current.Some? {
        return disk.state.current, top;
      }
      var rows := ReadParts();
      if rows == [] {
        return None, top;
      }
      var highest := Seed(rows);
      top := highest;
      pointer := Some(Pointer(highest.height, highest.block));
    }

    /** Reads the blocks parts back, in part order. */
    method ReadParts() returns (rows: seq<Row>)
      ensures rows == FoundRows(disk.state.parts.blocks)
    {
      var f := disk.state.parts.blocks;
      var highest := HighestPart(f.open.Keys + f.exported.Keys);
      rows := [];
      for n := 0 to highest
        invariant rows == RowsUpTo(f, n)
      {
        rows := rows + FileAt(f, n + 1);
      }
    }

    // --- Reorg recovery ------------------------------------------------------

    /** The preparation `p` was carried out from `before` on. */
    ghost predicate Carried(p: Prep, before: DiskState, history: seq<Action>, r: Attempt<Cursor>)
      reads this, disk, status
    {
      match p
      case Ready(acts, flags, at) =>
        r == Got(at) && status.Memory() == flags && disk.Performed(before, history, acts)
      case Halt(acts, flags, outcome, _) =>
        r == Raised(outcome) && status.Memory() == flags && disk.Performed(before, history, acts)
    }

    /** `live` has the hashes of the chain from `low` up to below `high`. */
    ghost predicate LiveHashes(node: Node, live: map<nat, Hash>, low: nat, high: nat) {
      forall h :: (h in live <==> low <= h < high) && (h in live && h < |node.chain| ==> live[h] == node.chain[h].hash)
    }

    /** Walks back to the highest block of the active chain and collects what
        it leaves behind, and the hashes it was told on the way. */
    method WalkBackwards(node: Node, at: Pointer)
      returns (found: Attempt<Pointer>, detached: seq<Pointer>, live: map<nat, Hash>)
      requires at.height < |node.chain|
      ensures match WalkBackFrom(index.byHash, node, cfg.maxReorgDepth, at, [])
              case Ancestor(anc, seen) =>
                && found == Got(anc) && detached == seen && anc.height < at.height
                && LiveHashes(node, live, anc.height, at.height)
              case NoAnswer => found == Raised(Aborted)
              case _ => found == Raised(Fatal)
    {
      var here := at;
      detached, live := [], map[];
      while true
        invariant here.height <= at.height
        invariant WalkBackFrom(index.byHash, node, cfg.maxReorgDepth, at, [])
               == WalkBackFrom(index.byHash, node, cfg.maxReorgDepth, here, detached)
        invariant LiveHashes(node, live, here.height, at.height)
        decreases here.height
      {
        detached := detached + [here];
        if |detached| > cfg.maxReorgDepth || here.hash !in index.byHash {
          return Raised(Fatal), detached, live;
        }
        var prev := index.byHash[here.hash].prev;
        if here.height == 0 || prev == NO_HASH {
          return Raised(Fatal), detached, live;
        }
        var answer := HashAt(node, AncestorHash(here.height - 1), here.height - 1);
        if answer.None? {
          return Raised(Aborted), detached, live;
        }
        live := live[here.height - 1 := answer.value];
        if answer.value == prev {
          return Got(Pointer(here.height - 1, prev)), detached, live;
        }
        here := Pointer(here.height - 1, prev);
      }
    }

    /** Marks the detached blocks non-canonical, lowest first. */
    method MarkDetached(detached: seq<Pointer>) returns (logged: seq<Pointer>)
      modifies status
      ensures status.Memory() == FlagDetached(old(status.Memory()), detached)
      ensures logged == Reversed(detached)
    {
      logged := [];
      var i := |detached|;
      assert detached[..i] == detached;
      while i > 0
        invariant 0 <= i <= |detached| && logged == Reversed(detached[i..])
        invariant FlagDetached(old(status.Memory()), detached) == FlagDetached(status.Memory(), detached[..i])
      {
        i := i - 1;
        assert detached[..i + 1][..i] == detached[..i] && detached[..i + 1][i] == detached[i];
        assert detached[i..][1..] == detached[i + 1..] && detached[i..][0] == detached[i];
        status.SetCanonicalFlag(detached[i].height, detached[i].hash, false);
        logged := logged + [detached[i]];
      }
      assert detached[0..] == detached;
    }

    /** From a stored position the node no longer has to the common ancestor. */
    method RecoverFromReorg(node: Node, at: Pointer) returns (r: Attempt<Cursor>)
      requires at.height < |node.chain|
      requires status.disk == disk && index.disk == disk
      modifies disk, status
      ensures match Recover(index.byHash, node, cfg.maxReorgDepth, old(status.Memory()), at)
              case Recovered(acts, flags, anc) =>
                && r == Got(CursorAt(Some(anc))) && status.Memory() == flags
                && disk.Performed(old(disk.state), old(disk.done), acts)
              case NotRecovered(flags, outcome, _) =>
                && r == Raised(outcome) && status.Memory() == flags
                && disk.Performed(old(disk.state), old(disk.done), [])
      ensures disk.state == old(disk.state).(status := disk.state.status, reorgs := disk.state.reorgs)
    {
      hide DoAll, WalkBackFrom, FlagDetached, Reversed;
      ghost var before, history := disk.state, disk.done;
      NothingPerformed(disk);
      var found, detached, live := WalkBackwards(node, at);
      if found.Raised? {
        return Raised(found.outcome);
      }
      var anc := found.value;
      var gone := MarkDetached(detached);
      var lowest := anc.height + 1;
      var attached: seq<Pointer> := [];
      for h := lowest to at.height + 1
        invariant h < at.height + 1 || node.ok(AttachedHash(at.height))
        invariant |attached| == h - lowest
        invariant forall i :: 0 <= i < |attached| ==> attached[i] == Pointer(lowest + i, node.chain[lowest + i].hash)
      {
        var answer := if h in live then Some(live[h]) else HashAt(node, AttachedHash(h), h);
        if answer.None? {
          return Raised(Aborted);
        }
        attached := attached + [Pointer(h, answer.value)];
      }
      assert attached == AttachedRange(node, lowest, at.height);
      ghost var flagged := status.Memory();
      status.Flush();
      var log := ReorgLog(lowest, at.height, gone, attached);
      disk.Perform(ReorgLogWrite(log));
      PerformedThen(before, history, FlushFlags(flagged), DoAll(before, FlushFlags(flagged)), [ReorgLogWrite(log)],
                    disk);
      r := Got(CursorAt(Some(anc)));
    }

    /** Compares the stored position with the chain, and recovers if need be. */
    method ReconcilePosition(node: Node, pointer: Option<Pointer>) returns (r: Attempt<Cursor>)
      requires status.disk == disk && index.disk == disk
      modifies disk, status
      ensures Carried(Reconcile(cfg, node, index.byHash, old(status.Memory()), pointer), old(disk.state),
                      old(disk.done), r)
      ensures disk.state == old(disk.state).(status := disk.state.status, reorgs := disk.state.reorgs)
    {
      hide Recover, DoAll;
      NothingPerformed(disk);
      if pointer.None? {
        return Got(NOWHERE);
      }
      var live := HashAt(node, CurrentHash, pointer.value.height);
      if live.None? {
        return Raised(Aborted);
      }
      if live.value == pointer.value.hash {
        return Got(CursorAt(pointer));
      }
      r := RecoverFromReorg(node, pointer.value);
    }

    // --- The pass ------------------------------------------------------------

    /** Rewinds below the stale row, and decides whether there is anything left
        to do. */
    method EnterLoop(node: Node, from: Cursor) returns (r: Attempt<Cursor>, ghost stale: Option<IndexRow>)
      requires Valid() && index.CacheSound()
      modifies index`allCurrent, disk, status
      ensures Valid() && index.CacheSound() && IsEarliestStale(index.byHash, stale)
      ensures old(index.allCurrent) ==> index.allCurrent
      ensures disk.state == old(disk.state).(status := disk.state.status, current := disk.state.current)
      ensures disk.state.current.None? ==> old(disk.state).current.None?
      ensures Carried(Enter(cfg, node, stale, Ready([], old(status.Memory()), from)), old(disk.state), old(disk.done),
                      r)
    {
      hide PF.Load, PF.Consistent, DoAll, IsEarliestStale;
      ghost var before, history, flags := disk.state, disk.done, status.Memory();
      NothingPerformed(disk);
      var lowest := index.EarliestStale();
      stale := lowest;
      var at := Rewind(from, lowest);
      if at.height >= Latest(cfg, node) {
        WritePointer(at);
        status.Flush();
        PerformedThen(before, history, SavePointer(at), DoAll(before, SavePointer(at)), FlushFlags(flags), disk);
        assert [] + SavePointer(at) + FlushFlags(flags) == SavePointer(at) + FlushFlags(flags);
        return Raised(CaughtUp), stale;
      }
      if at.hash.Some? && !node.ok(CurrentHeader) {
        return Raised(Aborted), stale;
      }
      r := Got(at);
    }

    /** Processes a block, and checkpoints if a batch is full. */
    method ProcessAndCheckpoint(mode: PF.Mode, b: Block, at: Cursor, prevTime: Option<int>, processed: nat,
                                ghost w: Walk)
      returns (ghost v: Walk, ghost acts: seq<Action>)
      requires Valid() && index.CacheSound() && Represents(w) && prevTime == w.prevTime && processed == w.processed + 1
      requires at == Cursor(b.height, Some(b.hash)) && !HasStaged(IndexRows(w.batch), b.hash)
      modifies this, disk, index, status, blocks, transactions, inputs, outputs
      ensures Valid() && index.CacheSound() && index.allCurrent == old(index.allCurrent) && Represents(v)
      ensures v == VisitAndCheckpoint(cfg, mode, w, b) && (v.batch == [] || v.batch == Visit(w, b).batch)
      ensures v == Visit(w, b).(d := v.d, acts := v.acts, flags := v.flags, batch := v.batch)
      ensures disk.Performed(old(disk.state), old(disk.done), acts) && v.acts == w.acts + acts
      ensures forall d :: Untouched(d, old(disk.state)) ==> Untouched(d, disk.state)
    {
      hide PF.Load, PF.Consistent, DoAll, Checkpoint, CheckpointActs;
      NothingPerformed(disk);
      ProcessBlock(b, prevTime, w);
      v, acts := Visit(w, b), [];
      if CheckpointDue(cfg, mode, processed) {
        CheckpointKeeps(cfg, mode, v);
        forall d | Untouched(d, disk.state) {
          CheckpointUntouched(cfg, mode, d, v);
        }
        acts := CheckpointActs(cfg, mode, v);
        DoCheckpoint(mode, at, v);
        v := Checkpoint(cfg, mode, v);
      }
    }

    /** Up to height `end` the blocks come from the iterator, `h` being next. */
    ghost predicate Supplies(prefetched: ParsedBlocks?, node: Node, h: nat, end: int)
      reads prefetched
    {
      h <= end ==>
        (prefetched != null && prefetched.Valid() && !prefetched.closed
         && prefetched.node == node && prefetched.next == h && prefetched.end == end)
    }

    /** The next block, from the workers or fetched here. */
    method NextBlock(node: Node, prefetched: ParsedBlocks?, h: nat, end: int) returns (answer: Option<Block>)
      requires Supplies(prefetched, node, h, end)
      modifies prefetched
      ensures answer == FetchResult(node, h)
      ensures answer.Some? ==> Supplies(prefetched, node, h + 1, end)
    {
      if h <= end {
        answer := prefetched.Next();
      } else {
        answer := FetchResult(node, h);
      }
    }

    /** The loop over the heights after `from`, with the workers running ahead
        if it is worth it; however it ends, they are stopped. */
    method ForwardLoop(node: Node, workers: nat, stopAt: nat, from: Cursor, latest: nat, ghost w0: Walk)
      returns (at: Cursor, ending: Ending, ghost w: Walk, ghost acts: seq<Action>)
      requires Valid() && index.CacheSound() && Represents(w0) && w0.batch == [] && w0.processed == 0 && w0.at == from
      requires Faithful(node) && latest == Latest(cfg, node) && from.height < latest
      requires w0.prevTime == if from.hash.Some? then Some(node.timeOf(from.hash.value)) else None
      modifies this, disk, index, status, blocks, transactions, inputs, outputs
      ensures Valid() && index.CacheSound() && index.allCurrent == old(index.allCurrent) && Represents(w) && at == w.at
      ensures var mode := ModeFor(cfg, from, latest);
              var visits := VisitsFrom(node, stopAt, ParallelEnd(cfg, node, workers, from, latest), latest,
                                       from.height + 1, from.hash);
              w == VisitAll(cfg, mode, w0, visits.blocks) && ending == visits.ending
      ensures disk.Performed(old(disk.state), old(disk.done), acts) && w.acts == w0.acts + acts
      ensures Untouched(old(disk.state), disk.state)
      ensures w.batch == [] || (w.at.hash.Some? && w.at.height >= 0)
    {
      hide PF.Load, PF.Consistent, DoAll, VisitAll, VisitsFrom, Untouched, ModeFor;
      var mode := ModeFor(cfg, from, latest);
      var end := ParallelEnd(cfg, node, workers, from, latest);
      var prefetched: ParsedBlocks? := null;
      if end >= 0 {
        prefetched := new ParsedBlocks(node, from.height + 1, end, workers);
      }
      at, ending, w, acts := VisitHeights(node, prefetched, mode, stopAt, end, from, latest, w0);
      if prefetched != null {
        prefetched.Close();
      }
    }

    /** One height after the other: up to `end` from the workers, then fetched
        here. */
    method VisitHeights(node: Node, prefetched: ParsedBlocks?, mode: PF.Mode, stopAt: nat, end: int, from: Cursor,
                        latest: nat, ghost w0: Walk)
      returns (at: Cursor, ending: Ending, ghost w: Walk, ghost acts: seq<Action>)
      requires Valid() && index.CacheSound() && Represents(w0) && w0.batch == [] && w0.processed == 0 && w0.at == from
      requires Faithful(node) && latest == Latest(cfg, node) && from.height < latest
      requires w0.prevTime == if from.hash.Some? then Some(node.timeOf(from.hash.value)) else None
      requires Supplies(prefetched, node, from.height + 1, end)
      modifies this, disk, index, status, blocks, transactions, inputs, outputs, prefetched
      ensures Valid() && index.CacheSound() && index.allCurrent == old(index.allCurrent) && Represents(w) && at == w.at
      ensures var visits := VisitsFrom(node, stopAt, end, latest, from.height + 1, from.hash);
              w == VisitAll(cfg, mode, w0, visits.blocks) && ending == visits.ending
      ensures disk.Performed(old(disk.state), old(disk.done), acts) && w.acts == w0.acts + acts
      ensures Untouched(old(disk.state), disk.state)
      ensures w.batch == [] || (w.at.hash.Some? && w.at.height >= 0)
    {
      hide PF.Load, PF.Consistent, DoAll, VisitAll, VisitsFrom, LoopAt, Untouched, HasStaged, VisitAndCheckpoint,
        Visit, Valid,
        Represents, Supplies, Faithful, Disk.Performed, IndexStore.CacheSound;
      var prevTime := if from.hash.Some? then Some(node.timeOf(from.hash.value)) else None;
      var h, processed := from.height + 1, 0;
      ghost var all := VisitsFrom(node, stopAt, end, latest, h, from.hash);
      ghost var visited: seq<Block> := [];
      at, w, ending, acts := from, w0, Done, [];
      NothingPerformed(disk);
      UntouchedSelf(disk.state);
      LoopBegins(cfg, mode, node, stopAt, end, latest, w0);
      assert w.acts + [] == w.acts;
      while h <= latest
        invariant 0 <= h <= latest + 1
        invariant Valid() && index.CacheSound() && index.allCurrent == old(index.allCurrent) && Represents(w)
        invariant at == w.at && prevTime == w.prevTime && processed == w.processed
        invariant LoopAt(cfg, mode, node, stopAt, end, latest, w0, all, visited, h, w)
        invariant disk.Performed(old(disk.state), old(disk.done), acts) && w.acts == w0.acts + acts
        invariant Untouched(old(disk.state), disk.state)
        invariant Supplies(prefetched, node, h, end)
      {
        if h >= stopAt {
          ending := Stopped;
          break;
        }
        var answer := NextBlock(node, prefetched, h, end);
        if answer.None? {
          ending := Failed;
          break;
        }
        var b := answer.value;
        if h <= end && at.hash.Some? && b.prev != at.hash.value {
          ending := Mismatch;
          break;
        }
        LoopServes(cfg, mode, node, stopAt, end, latest, w0, all, visited, h, w);
        at, processed := Cursor(h, Some(b.hash)), processed + 1;
        PerformedMeans(old(disk.state), old(disk.done), acts, disk);
        ghost var mid := disk.state;
        ghost var v, more := ProcessAndCheckpoint(mode, b, at, prevTime, processed, w);
        VisitMoves(w, b);
        LoopGoesOn(cfg, mode, node, stopAt, end, latest, w0, all, visited, h, w, v);
        PerformedThen(old(disk.state), old(disk.done), acts, mid, more, disk);
        assert w.acts + more == w0.acts + (acts + more);
        w, acts, visited := v, acts + more, visited + [b];
        prevTime := Some(b.time);
        h := h + 1;
      }
      LoopEnds(cfg, mode, node, stopAt, end, latest, w0, all, visited, h, w);
    }

    /** Every block found on disk is indexed, unless there is a position. */
    ghost predicate Seeded()
      reads disk, index
    {
      disk.state.current.None? ==> forall r :: r in FoundRows(disk.state.parts.blocks) ==> r.block in index.byHash
    }

    lemma CarriedThen(p: Prep, before: DiskState, history: seq<Action>, acts: seq<Action>, mid: DiskState,
                      r: Attempt<Cursor>)
      requires mid == DoAll(before, acts) && Carried(p, mid, history + acts, r)
      ensures Carried(Prefix(acts, p), before, history, r)
    {
      PerformedThen(before, history, acts, mid, p.acts, disk);
    }

    /** From the located position to the start of the loop. */
    method ReconcileAndEnter(node: Node, pointer: Option<Pointer>)
      returns (r: Attempt<Cursor>, ghost stale: Option<IndexRow>)
      requires Valid() && index.CacheSound() && index.pending == []
      modifies index`allCurrent, disk, status
      ensures Valid() && index.CacheSound()
      ensures disk.state.parts == old(disk.state.parts) && disk.state.index == old(disk.state.index)
      ensures disk.state.current.None? ==> old(disk.state).current.None?
      ensures var p := Reconcile(cfg, node, index.byHash, old(status.Memory()), pointer);
              && Carried(if p.Halt? then p else Enter(cfg, node, stale, p), old(disk.state), old(disk.done), r)
              && (p.Ready? ==> IsEarliestStale(index.byHash, stale))
      ensures r.Got? ==> r.value.height < Latest(cfg, node)
    {
      hide PF.Load, PF.Consistent, DoAll, IsEarliestStale, Reconcile;
      ghost var p := Reconcile(cfg, node, index.byHash, status.Memory(), pointer);
      r := ReconcilePosition(node, pointer);
      stale := None;
      if r.Raised? {
        return r, stale;
      }
      label Reconciled:
      r, stale := EnterLoop(node, r.value);
      EnterAfter(cfg, node, stale, p);
      CarriedThen(Enter(cfg, node, stale, Ready([], p.flags, p.at)), old(disk.state), old(disk.done), p.acts,
                  old@Reconciled(disk.state), r);
    }

    /** Everything before the loop. */
    method PreparePass(node: Node) returns (r: Attempt<Cursor>, ghost picks: Picks)
      requires Valid() && index.pending == [] && index.CacheSound() && SeedSafe()
      modifies index, disk, status
      ensures Valid() && index.CacheSound() && index.pending == []
      ensures ValidPicks(picks, old(disk.state)) && SeedSafe() && (r.Got? ==> Seeded())
      ensures Carried(Prepare(cfg, node, picks, old(disk.state), old(status.Memory())), old(disk.state),
                      old(disk.done), r)
      ensures r.Got? ==> r.value.height < Latest(cfg, node)
    {
      hide PF.Load, PF.Consistent, DoAll, IsEarliestStale, Reconcile, Enter, FoundRows;
      NothingPerformed(disk);
      picks := PicksExist(disk.state);
      if !node.ok(BlockCount) {
        return Raised(Aborted), picks;
      }
      var latest := Latest(cfg, node);
      if latest < 0 {
        return Raised(CaughtUp), picks;
      }
      if !node.ok(LatestHash) {
        return Raised(Aborted), picks;
      }
      ghost var before, history := disk.state, disk.done;
      var tip := Pointer(latest, node.chain[latest].hash);
      disk.Perform(LatestReplace(tip));
      ghost var d1 := disk.state;
      var pointer, top := FindPosition();
      LatestIsIrrelevant(before, tip, top);
      ghost var found := Locate(before, top);
      PerformedThen(before, history, [LatestReplace(tip)], d1, found.acts, disk);
      ghost var begun, d2 := [LatestReplace(tip)] + found.acts, disk.state;
      assert index.byHash == LoadIndex(d2.index);
      ghost var stale: Option<IndexRow>;
      r, stale := ReconcileAndEnter(node, pointer);
      ghost var p := Reconcile(cfg, node, LoadIndex(d2.index), old(status.Memory()), pointer);
      if p.Halt? {
        stale := StaleFor(before, top);
      }
      picks := Picks(top, stale);
      CarriedThen(if p.Halt? then p else Enter(cfg, node, stale, p), before, history, begun, d2, r);
    }

    /** The loop and the last checkpoint. */
    method CatchUp(node: Node, workers: nat, stopAt: nat, from: Cursor, ghost before: DiskState,
                   ghost history: seq<Action>, ghost p: Prep)
      returns (outcome: Outcome)
      requires Valid() && index.CacheSound() && index.pending == [] && Seeded() && Faithful(node)
      requires p.Ready? && Carried(p, before, history, Got(from)) && from.height < Latest(cfg, node)
      requires 0 <= Latest(cfg, node)
      modifies this, disk, index, status, blocks, transactions, inputs, outputs
      ensures Valid() && index.CacheSound() && SeedSafe() && (outcome.Aborted? || index.pending == [])
      ensures var r := RunLoop(cfg, node, workers, stopAt, before, p);
              && outcome == r.outcome && status.Memory() == r.flags && disk.Performed(before, history, r.acts)
    {
      hide PF.Load, PF.Consistent, DoAll, VisitAll, Checkpoint, CheckpointActs, VisitsFrom;
      var latest := Latest(cfg, node);
      var mode := ModeFor(cfg, from, latest);
      buffers := Quad([], [], [], []);
      ghost var w0, d0 := StartWalk(node, before, p), disk.state;
      var at, ending, w, acts := ForwardLoop(node, workers, stopAt, from, latest, w0);
      PerformedThen(before, history, p.acts, d0, acts, disk);
      if ending.Failed? {
        return Aborted;
      }
      ghost var d1, more := disk.state, CheckpointActs(cfg, mode, w);
      CheckpointKeeps(cfg, mode, w);
      CheckpointUntouched(cfg, mode, d0, w);
      DoCheckpoint(mode, at, w);
      PerformedThen(before, history, p.acts + acts, d1, more, disk);
      outcome := if at.height >= latest then CaughtUp else Again;
    }

    /** One tip check and catch-up: exactly the pass the specification says. */
    method RunOnePass(node: Node, workers: nat, stopAt: nat) returns (outcome: Outcome, ghost picks: Picks)
      requires Valid() && index.pending == [] && index.CacheSound() && SeedSafe() && Faithful(node)
      modifies this, disk, index, status, blocks, transactions, inputs, outputs
      ensures Valid() && index.CacheSound() && SeedSafe() && (outcome.Aborted? || index.pending == [])
      ensures ValidPicks(picks, old(disk.state))
      ensures var r := RunPass(cfg, node, workers, stopAt, picks, old(disk.state), old(status.Memory()));
              && outcome == r.outcome && status.Memory() == r.flags
              && disk.Performed(old(disk.state), old(disk.done), r.acts)
    {
      hide PF.Load, PF.Consistent, DoAll, RunLoop, ValidPicks, Enter, Reconcile, Faithful;
      ghost var before, history, flags := disk.state, disk.done, status.Memory();
      var r;
      r, picks := PreparePass(node);
      if r.Raised? {
        return r.outcome, picks;
      }
      outcome := CatchUp(node, workers, stopAt, r.value, before, history, Prepare(cfg, node, picks, before, flags));
    }

    /** One turn of the daemon: what an aborted pass staged is forgotten. */
    method Cycle(node: Node, workers: nat, stopAt: nat) returns (outcome: Outcome, ghost picks: Picks)
      requires Valid() && index.pending == [] && index.CacheSound() && SeedSafe() && Faithful(node)
      modifies this, disk, index, status, blocks, transactions, inputs, outputs
      ensures Valid() && index.pending == [] && index.CacheSound() && SeedSafe()
      ensures ValidPicks(picks, old(disk.state))
      ensures var r := RunPass(cfg, node, workers, stopAt, picks, old(disk.state), old(status.Memory()));
              && outcome == r.outcome && status.Memory() == r.flags
              && disk.Performed(old(disk.state), old(disk.done), r.acts)
    {
      hide RunPass, ValidPicks, PF.Load, PF.Consistent, DoAll, FoundRows, Faithful;
      outcome, picks := RunOnePass(node, workers, stopAt);
      if outcome.Aborted? {
        index.DiscardPending();
      }
    }
  }
}
