/** The index is never ahead of the exports, and every indexed block has its
    predecessor in the index: both hold at every point at which rpc-ingest can
    be killed, whatever the node answers and however often it is restarted. */
module CrashSafety {
  import opened Basics
  import opened Chain
  import opened IndexFile
  import opened DiskModel
  import opened Pass
  import opened PassFacts
  import PF = PartFiles
  import PR = PartRuns

  // --- The invariant -------------------------------------------------------

  ghost predicate IndexClosed(t: Tree, idx: ByHash) {
    && (forall h {:trigger idx[h]} :: h in idx ==>
          h in t && idx[h] == IndexRow(t[h].height, h, t[h].prev, idx[h].version) && idx[h].version >= 1)
    && (forall h {:trigger t[h].prev} :: h in idx && h in t && t[h].prev != NO_HASH ==> t[h].prev in idx)
  }

  ghost predicate DeliveredWith(parts: Quad<PF.Files>, b: Block, gap: Option<int>) {
    forall k :: PR.Stored(parts.At(k), RowsOf(b, gap, k))
  }

  /** All rows of the block reached the four logical CSVs: they are in the open
      part or in a part that was exported. */
  ghost predicate Delivered(parts: Quad<PF.Files>, b: Block) {
    exists gap :: DeliveredWith(parts, b, gap)
  }

  ghost predicate NotAhead(t: Tree, idx: ByHash, parts: Quad<PF.Files>) {
    forall h :: h in idx && h in t && idx[h].version >= CURRENT_SCHEMA ==> Delivered(parts, t[h])
  }

  ghost predicate FromTree(t: Tree, r: Row) {
    r.block in t && r.height == t[r.block].height && r.prev == t[r.block].prev
  }

  ghost predicate RowBefore(rows: seq<Row>, n: int, h: Hash) {
    exists j :: 0 <= j < n <= |rows| && rows[j].block == h
  }

  /** Every block row of a file has its predecessor indexed or earlier in the
      same file. */
  ghost predicate FileClosed(t: Tree, idx: ByHash, rows: seq<Row>) {
    forall i :: 0 <= i < |rows| ==>
      && FromTree(t, rows[i])
      && (rows[i].prev == NO_HASH || rows[i].prev in idx || RowBefore(rows, i, rows[i].prev))
  }

  ghost predicate FilesClosed(t: Tree, idx: ByHash, f: PF.Files) {
    && (forall n :: n in f.open ==> FileClosed(t, idx, f.open[n]))
    && (forall n :: n in f.exported ==> FileClosed(t, idx, f.exported[n]))
  }

  ghost predicate PartsConsistent(parts: Quad<PF.Files>) {
    forall k :: PF.Consistent(parts.At(k))
  }

  ghost predicate PointerIndexed(t: Tree, idx: ByHash, p: Option<Pointer>) {
    p.Some? ==> p.value.hash in idx && p.value.hash in t && t[p.value.hash].height == p.value.height
  }

  ghost predicate Sound(t: Tree, d: DiskState) {
    var idx := LoadIndex(d.index);
    && PartsConsistent(d.parts)
    && IndexClosed(t, idx)
    && NotAhead(t, idx, d.parts)
    && PointerIndexed(t, idx, d.current)
    && (d.current.None? ==> FilesClosed(t, idx, d.parts.blocks))
  }

  lemma EmptyIsSound(t: Tree)
    ensures Sound(t, EMPTY_DISK)
  {
    PR.EmptyIsConsistent();
  }

  /** The invariant holds wherever a kill is allowed, and at the end. */
  ghost predicate Killable(t: Tree, d: DiskState, acts: seq<Action>) {
    && (forall cut :: 0 <= cut <= |acts| && SafeKill(acts, cut) ==> Sound(t, DoAll(d, acts[..cut])))
    && Sound(t, DoAll(d, acts))
  }

  lemma KillableEnds(t: Tree, d: DiskState, acts: seq<Action>)
    requires Killable(t, d, acts)
    ensures Sound(t, DoAll(d, acts))
  {
  }

  lemma KillableSum(t: Tree, d: DiskState, xs: seq<Action>, ys: seq<Action>)
    requires Killable(t, d, xs) && Killable(t, DoAll(d, xs), ys)
    ensures Killable(t, d, xs + ys) && DoAll(d, xs + ys) == DoAll(DoAll(d, xs), ys)
  {
    var acts := xs + ys;
    forall cut | 0 <= cut <= |acts| && SafeKill(acts, cut)
      ensures Sound(t, DoAll(d, acts[..cut]))
    {
      if cut <= |xs| {
        assert acts[..cut] == xs[..cut];
        assert cut > 0 ==> acts[cut - 1] == xs[cut - 1];
      } else {
        assert acts[..cut] == xs + ys[..cut - |xs|];
        DoAppend(d, xs, ys[..cut - |xs|]);
        assert acts[cut - 1] == ys[cut - |xs| - 1];
      }
    }
    DoAppend(d, xs, ys);
  }

  lemma KillableNone(t: Tree, d: DiskState)
    requires Sound(t, d)
    ensures Killable(t, d, [])
  {
  }

  lemma KillableOne(t: Tree, d: DiskState, a: Action)
    requires Sound(t, d) && Sound(t, Do(d, a))
    ensures Killable(t, d, [a])
  {
    DoOne(d, a);
    forall cut | 0 <= cut <= |[a]| && SafeKill([a], cut)
      ensures Sound(t, DoAll(d, [a][..cut]))
    {
      if cut == 1 { assert [a][..1] == [a]; }
    }
  }

  // --- Steps that leave parts and index alone -------------------------------

  predicate Harmless(a: Action) {
    a.StatusReplace? || a.LatestReplace? || a.ReorgLogWrite?
  }

  ghost predicate AllHarmless(acts: seq<Action>) {
    forall a :: a in acts ==> Harmless(a)
  }

  lemma {:induction false} HarmlessLeaves(d: DiskState, acts: seq<Action>)
    requires AllHarmless(acts)
    ensures var e := DoAll(d, acts);
            e.parts == d.parts && e.index == d.index && e.current == d.current
    decreases |acts|
  {
    if acts != [] {
      var n := |acts| - 1;
      HarmlessLeaves(d, acts[..n]);
      assert Harmless(acts[n]);
    }
  }

  lemma HarmlessKeepsSound(t: Tree, d: DiskState, acts: seq<Action>)
    requires Sound(t, d) && AllHarmless(acts)
    ensures Killable(t, d, acts)
    ensures var e := DoAll(d, acts);
            Sound(t, e) && e.parts == d.parts && e.index == d.index && e.current == d.current
  {
    hide DoAll, PartsConsistent, IndexClosed, NotAhead, PointerIndexed, FilesClosed;
    forall cut | 0 <= cut <= |acts|
      ensures Sound(t, DoAll(d, acts[..cut]))
    {
      HarmlessLeaves(d, acts[..cut]);
    }
    assert acts[..|acts|] == acts;
    HarmlessLeaves(d, acts);
  }

  lemma SavePointerKeepsSound(t: Tree, d: DiskState, at: Cursor)
    requires Sound(t, d)
    requires at.hash.Some? ==> PointerIndexed(t, LoadIndex(d.index), Some(Pointer(Max(at.height, 0), at.hash.value)))
    ensures Killable(t, d, SavePointer(at))
    ensures Sound(t, DoAll(d, SavePointer(at)))
    ensures DoAll(d, SavePointer(at)).index == d.index
  {
    if SavePointer(at) == [] {
      KillableNone(t, d);
    } else {
      var a := CurrentReplace(Pointer(at.height, at.hash.value));
      DoOne(d, a);
      KillableOne(t, d, a);
    }
  }

  // --- Seeding -------------------------------------------------------------

  ghost predicate Versioned(idx: ByHash) {
    forall h :: h in idx ==> idx[h].version >= 1
  }

  ghost predicate RowFound(rows: seq<Row>, p: IndexRow) {
    exists r :: r in rows && p == IndexRow(r.height, r.block, r.prev, 1)
  }

  lemma StagedOnce(pending: seq<IndexRow>, row: IndexRow, h: Hash)
    requires !HasStaged(pending, row.hash)
    ensures HasStaged(pending + [row], h) <==> HasStaged(pending, h) || h == row.hash
  {
    if HasStaged(pending, h) {
      var i :| 0 <= i < |pending| && pending[i].hash == h;
      assert (pending + [row])[i].hash == h;
    }
    assert (pending + [row])[|pending|] == row;
  }

  ghost predicate SeedInv(idx: ByHash, pending: seq<IndexRow>, all: seq<Row>) {
    && DistinctHashes(pending)
    && forall p :: p in pending ==> RowFound(all, p) && p.hash !in idx
  }

  lemma SeedOne(idx: ByHash, pending: seq<IndexRow>, r: Row, all: seq<Row>)
    requires Versioned(idx) && SeedInv(idx, pending, all) && r in all
    ensures var next := AddRow(idx, pending, IndexRow(r.height, r.block, r.prev, 1));
            && SeedInv(idx, next, all)
            && Covered(idx, next, r.block)
            && forall h :: HasStaged(pending, h) ==> HasStaged(next, h)
  {
    var row := IndexRow(r.height, r.block, r.prev, 1);
    assert RowFound(all, row);
    var found := FindStaged(pending, r.block);
    if r.block !in idx && found.None? {
      PutStagedNew(pending, row);
      forall h {
        StagedOnce(pending, row, h);
      }
    }
  }

  lemma {:induction false} SeedStages(idx: ByHash, pending: seq<IndexRow>, rows: seq<Row>, all: seq<Row>)
    requires Versioned(idx) && SeedInv(idx, pending, all)
    requires forall r :: r in rows ==> r in all
    ensures var s := SeedPending(idx, pending, rows);
            && SeedInv(idx, s, all)
            && (forall h :: HasStaged(pending, h) ==> HasStaged(s, h))
            && (forall r :: r in rows ==> Covered(idx, s, r.block))
    decreases |rows|
  {
    if rows != [] {
      var r := rows[0];
      SeedOne(idx, pending, r, all);
      var next := AddRow(idx, pending, IndexRow(r.height, r.block, r.prev, 1));
      SeedStages(idx, next, rows[1..], all);
      assert rows == [r] + rows[1..];
    }
  }

  // --- Rows on disk --------------------------------------------------------

  lemma {:induction false} FoundRowsClosed(t: Tree, idx: ByHash, f: PF.Files, n: nat)
    requires FilesClosed(t, idx, f)
    ensures FileClosed(t, idx, RowsUpTo(f, n))
  {
    if n > 0 {
      FoundRowsClosed(t, idx, f, n - 1);
      ConcatClosed(t, idx, RowsUpTo(f, n - 1), FileAt(f, n));
    }
  }

  lemma ConcatClosed(t: Tree, idx: ByHash, xs: seq<Row>, ys: seq<Row>)
    requires FileClosed(t, idx, xs) && FileClosed(t, idx, ys)
    ensures FileClosed(t, idx, xs + ys)
  {
    var rows := xs + ys;
    forall i | 0 <= i < |rows|
      ensures FromTree(t, rows[i])
      ensures rows[i].prev == NO_HASH || rows[i].prev in idx || RowBefore(rows, i, rows[i].prev)
    {
      if i < |xs| {
        if RowBefore(xs, i, rows[i].prev) {
          var j :| 0 <= j < i && xs[j].block == rows[i].prev;
          assert rows[j] == xs[j];
        }
      } else if RowBefore(ys, i - |xs|, rows[i].prev) {
        var j :| 0 <= j < i - |xs| && ys[j].block == rows[i].prev;
        assert rows[|xs| + j] == ys[j];
      }
    }
  }

  lemma SeededRow(t: Tree, idx: ByHash, rows: seq<Row>, p: IndexRow)
    requires FileClosed(t, idx, rows) && RowFound(rows, p)
    ensures p.hash in t && p == IndexRow(t[p.hash].height, p.hash, t[p.hash].prev, 1)
    ensures t[p.hash].prev == NO_HASH || t[p.hash].prev in idx || exists r :: r in rows && r.block == t[p.hash].prev
  {
    var r :| r in rows && p == IndexRow(r.height, r.block, r.prev, 1);
    var i :| 0 <= i < |rows| && rows[i] == r;
    assert FromTree(t, rows[i]);
    if RowBefore(rows, i, r.prev) {
      var j :| 0 <= j < i && rows[j].block == r.prev;
      assert rows[j] in rows;
    }
  }

  /** The rows seeding adds to the index. */
  lemma SeedAdds(idx: ByHash, rows: seq<Row>)
    requires Versioned(idx)
    ensures var added := LoadIndex(SeedPending(idx, [], rows));
            && (forall h :: h in added ==> added[h].hash == h && h !in idx && RowFound(rows, added[h]))
            && (forall r :: r in rows ==> r.block in idx || r.block in added)
  {
    var pending := SeedPending(idx, [], rows);
    SeedStages(idx, [], rows, rows);
    LoadIndexKeys(pending);
    forall r | r in rows
      ensures r.block in idx || r.block in LoadIndex(pending)
    {
      assert Covered(idx, pending, r.block);
    }
  }

  /** Seeding adds only oldest-schema rows and keeps the index closed. */
  lemma SeedClosed(t: Tree, idx: ByHash, rows: seq<Row>)
    requires WellFormedTree(t) && IndexClosed(t, idx) && FileClosed(t, idx, rows)
    ensures var next := idx + LoadIndex(SeedPending(idx, [], rows));
            && IndexClosed(t, next)
            && (forall h :: h in idx ==> h in next && next[h] == idx[h])
            && (forall h :: h in next && h !in idx ==> next[h].version == 1)
            && (forall r :: r in rows ==> r.block in next)
  {
    SeedAdds(idx, rows);
    var added := LoadIndex(SeedPending(idx, [], rows));
    forall h | h in added
      ensures h in t && added[h] == IndexRow(t[h].height, h, t[h].prev, 1)
      ensures t[h].prev != NO_HASH ==> t[h].prev in idx || t[h].prev in added
    {
      SeededRow(t, idx, rows, added[h]);
    }
  }

  lemma LocateKeepsSound(t: Tree, d: DiskState, top: Row)
    requires WellFormedTree(t) && Sound(t, d)
    requires d.current.None? && FoundRows(d.parts.blocks) != [] ==> IsTop(FoundRows(d.parts.blocks), top)
    ensures var found := Locate(d, top);
            var e := DoAll(d, found.acts);
            && Killable(t, d, found.acts)
            && Sound(t, e)
            && e.current == d.current && e.parts == d.parts
            && PointerIndexed(t, LoadIndex(e.index), found.pointer)
  {
    var found := Locate(d, top);
    var idx := LoadIndex(d.index);
    if d.current.Some? || FoundRows(d.parts.blocks) == [] {
      KillableNone(t, d);
    } else {
      var rows := FoundRows(d.parts.blocks);
      FoundRowsClosed(t, idx, d.parts.blocks, PF.Highest(d.parts.blocks.open.Keys + d.parts.blocks.exported.Keys));
      SeedClosed(t, idx, rows);
      var pending := SeedPending(idx, [], rows);
      LoadIndexAppend(d.index, pending);
      var e := Do(d, IndexAppend(pending));
      assert LoadIndex(e.index) == idx + LoadIndex(pending);
      GrownIndexKeepsFiles(t, idx, LoadIndex(e.index), d.parts.blocks);
      assert NotAhead(t, LoadIndex(e.index), d.parts);
      assert Sound(t, e);
      var i :| 0 <= i < |rows| && rows[i] == top;
      assert FromTree(t, rows[i]);
      if pending == [] {
        assert d.index + pending == d.index;
        KillableNone(t, d);
      } else {
        DoOne(d, IndexAppend(pending));
        KillableOne(t, d, IndexAppend(pending));
      }
    }
  }

  lemma GrownIndexKeepsFiles(t: Tree, idx: ByHash, next: ByHash, f: PF.Files)
    requires FilesClosed(t, idx, f) && forall h :: h in idx ==> h in next
    ensures FilesClosed(t, next, f)
  {
  }

  // --- Draining ------------------------------------------------------------

  ghost predicate InBatch(batch: seq<Staged>, n: int, h: Hash) {
    exists j :: 0 <= j < n <= |batch| && batch[j].block.hash == h
  }

  /** The staged blocks are distinct, at most as high as the position, and each
      has its predecessor indexed or staged before it. */
  ghost predicate BatchOk(t: Tree, idx: ByHash, batch: seq<Staged>, top: int) {
    && (forall i :: 0 <= i < |batch| ==>
          && InTree(t, batch[i].block)
          && batch[i].block.height <= top
          && (batch[i].block.prev == NO_HASH || batch[i].block.prev in idx || InBatch(batch, i, batch[i].block.prev)))
    && Distinct(batch)
  }

  lemma {:induction false} BlockRowsAt(batch: seq<Staged>)
    ensures |RowsFor(batch, Blocks)| == |batch|
    ensures forall i :: 0 <= i < |batch| ==>
      RowsFor(batch, Blocks)[i] ==
        Row(batch[i].block.hash, batch[i].block.height, batch[i].block.prev, 0, batch[i].sincePrev)
  {
    if batch != [] {
      BlockRowsAt(batch[..|batch| - 1]);
    }
  }

  lemma {:induction false} RowsForContains(batch: seq<Staged>, i: nat, k: Kind)
    requires i < |batch|
    ensures forall r :: r in RowsOf(batch[i].block, batch[i].sincePrev, k) ==> r in RowsFor(batch, k)
    decreases |batch|
  {
    var n := |batch| - 1;
    if i < n {
      RowsForContains(batch[..n], i, k);
    }
  }

  lemma BatchFileClosed(t: Tree, idx: ByHash, batch: seq<Staged>, top: int)
    requires BatchOk(t, idx, batch, top)
    ensures FileClosed(t, idx, RowsFor(batch, Blocks))
  {
    BlockRowsAt(batch);
    var rows := RowsFor(batch, Blocks);
    forall i | 0 <= i < |rows|
      ensures FromTree(t, rows[i])
      ensures rows[i].prev == NO_HASH || rows[i].prev in idx || RowBefore(rows, i, rows[i].prev)
    {
      assert InTree(t, batch[i].block);
      if InBatch(batch, i, rows[i].prev) {
        var j :| 0 <= j < i && batch[j].block.hash == rows[i].prev;
        assert rows[j].block == rows[i].prev;
      }
    }
  }

  lemma {:induction false} WritesKeepFilesClosed(t: Tree, idx: ByHash, f: PF.Files, acts: seq<PF.PartAction>,
                                                 rows: seq<Row>)
    requires FilesClosed(t, idx, f) && FileClosed(t, idx, rows)
    requires forall a :: a in acts ==> (a.Append? || a.Publish? ==> a.rows == rows)
    ensures FilesClosed(t, idx, PF.ApplyAll(f, acts))
    decreases |acts|
  {
    if acts != [] {
      var n := |acts| - 1;
      WritesKeepFilesClosed(t, idx, f, acts[..n], rows);
      var g := PF.ApplyAll(f, acts[..n]);
      var a := acts[n];
      if a.Append? {
        assert FileClosed(t, idx, []);
        ConcatClosed(t, idx, if a.number in g.open then g.open[a.number] else [], rows);
      }
    }
  }

  /** Replacing the files of one logical CSV by ones that have grown. */
  lemma GrownPartKeepsSound(t: Tree, d: DiskState, k: Kind, g: PF.Files)
    requires Sound(t, d) && PF.Consistent(g) && PF.Grows(d.parts.At(k), g)
    requires k == Blocks && d.current.None? ==> FilesClosed(t, LoadIndex(d.index), g)
    ensures Sound(t, d.(parts := d.parts.With(k, g)))
  {
    var parts := d.parts.With(k, g);
    forall j
      ensures PF.Consistent(parts.At(j))
    {
      assert PF.Consistent(d.parts.At(j));
    }
    forall j
      ensures PF.Grows(d.parts.At(j), parts.At(j))
    {
      PR.GrowsRefl(d.parts.At(j));
    }
    GrownPartsKeepNotAhead(t, LoadIndex(d.index), d.parts, parts);
    assert k != Blocks ==> parts.At(Blocks) == d.parts.At(Blocks);
  }

  ghost predicate PartsGrow(p: Quad<PF.Files>, q: Quad<PF.Files>) {
    forall k :: PF.Grows(p.At(k), q.At(k))
  }

  lemma GrownPartsKeepDelivered(p: Quad<PF.Files>, q: Quad<PF.Files>, b: Block, gap: Option<int>)
    requires PartsGrow(p, q) && DeliveredWith(p, b, gap)
    ensures DeliveredWith(q, b, gap)
  {
    forall k
      ensures PR.Stored(q.At(k), RowsOf(b, gap, k))
    {
      assert PF.Grows(p.At(k), q.At(k));
      assert PR.Stored(p.At(k), RowsOf(b, gap, k));
    }
  }

  lemma GrownPartsKeepNotAhead(t: Tree, idx: ByHash, p: Quad<PF.Files>, q: Quad<PF.Files>)
    requires NotAhead(t, idx, p) && PartsGrow(p, q)
    ensures NotAhead(t, idx, q)
  {
    forall h | h in idx && h in t && idx[h].version >= CURRENT_SCHEMA
      ensures Delivered(q, t[h])
    {
      assert Delivered(p, t[h]);
      var gap :| DeliveredWith(p, t[h], gap);
      GrownPartsKeepDelivered(p, q, t[h], gap);
    }
  }

  lemma WriteActionRows(cfg: PF.PartConfig, f: PF.Files, m: PF.Counter, mode: PF.Mode, rows: seq<Row>)
    ensures forall a :: a in PF.WriteActions(cfg, f, m, mode, rows) ==> (a.Append? || a.Publish? ==> a.rows == rows)
  {
  }

  lemma DrainCut(t: Tree, cfg: Config, mode: PF.Mode, d: DiskState, batch: seq<Staged>, top: int, k: Kind, cut: nat)
    requires Sound(t, d) && BatchOk(t, LoadIndex(d.index), batch, top)
    requires SafeKill(DrainActs(cfg, mode, d, batch, k), cut)
    ensures Sound(t, DoAll(d, DrainActs(cfg, mode, d, batch, k)[..cut]))
  {
    var f := d.parts.At(k);
    var rows := RowsFor(batch, k);
    var writes := PF.WriteActions(cfg.parts, f, PF.Load(f), mode, rows);
    var idx := LoadIndex(d.index);
    assert PF.Consistent(f);
    assert DrainActs(cfg, mode, d, batch, k)[..cut] == Tag(k, writes[..cut]);
    DoTagged(d, k, writes[..cut]);
    PR.WriteKeepsParts(cfg.parts, f, mode, rows, cut);
    if k == Blocks && d.current.None? {
      BatchFileClosed(t, idx, batch, top);
      WriteActionRows(cfg.parts, f, PF.Load(f), mode, rows);
      WritesKeepFilesClosed(t, idx, f, writes[..cut], rows);
    }
    GrownPartKeepsSound(t, d, k, PF.ApplyAll(f, writes[..cut]));
  }

  /** A completed drain of one logical CSV. */
  lemma DrainKindStores(cfg: Config, mode: PF.Mode, d: DiskState, batch: seq<Staged>, k: Kind)
    requires PartsConsistent(d.parts)
    ensures var e := DoAll(d, DrainActs(cfg, mode, d, batch, k));
            && PartsConsistent(e.parts)
            && e == d.(parts := e.parts)
            && PartsGrow(d.parts, e.parts)
            && (forall j :: j != k ==> e.parts.At(j) == d.parts.At(j))
            && PR.Stored(e.parts.At(k), RowsFor(batch, k))
  {
    var f := d.parts.At(k);
    var rows := RowsFor(batch, k);
    assert PF.Consistent(f);
    DoTagged(d, k, PF.WriteActions(cfg.parts, f, PF.Load(f), mode, rows));
    PR.CompleteWrite(cfg.parts, f, mode, rows);
    var e := DoAll(d, DrainActs(cfg, mode, d, batch, k));
    forall j
      ensures PF.Grows(d.parts.At(j), e.parts.At(j)) && PF.Consistent(e.parts.At(j))
    {
      assert PF.Consistent(d.parts.At(j));
      PR.GrowsRefl(d.parts.At(j));
    }
  }

  lemma DrainKindKeepsSound(t: Tree, cfg: Config, mode: PF.Mode, d: DiskState, batch: seq<Staged>, top: int, k: Kind)
    requires Sound(t, d) && BatchOk(t, LoadIndex(d.index), batch, top)
    ensures var acts := DrainActs(cfg, mode, d, batch, k);
            Killable(t, d, acts) && Sound(t, DoAll(d, acts))
  {
    var acts := DrainActs(cfg, mode, d, batch, k);
    forall cut | 0 <= cut <= |acts| && SafeKill(acts, cut)
      ensures Sound(t, DoAll(d, acts[..cut]))
    {
      DrainCut(t, cfg, mode, d, batch, top, k, cut);
    }
    assert acts[..|acts|] == acts;
    WriteEndsSafely(cfg.parts, d.parts.At(k), mode, RowsFor(batch, k));
  }

  lemma WriteEndsSafely(cfg: PF.PartConfig, f: PF.Files, mode: PF.Mode, rows: seq<Row>)
    ensures var acts := PF.WriteActions(cfg, f, PF.Load(f), mode, rows);
            PF.SafeCut(acts, |acts|)
  {
  }

  lemma PartsGrowTrans(p: Quad<PF.Files>, q: Quad<PF.Files>, r: Quad<PF.Files>)
    requires PartsGrow(p, q) && PartsGrow(q, r)
    ensures PartsGrow(p, r)
  {
    forall k
      ensures PF.Grows(p.At(k), r.At(k))
    {
      assert PF.Grows(p.At(k), q.At(k)) && PF.Grows(q.At(k), r.At(k));
    }
  }

  ghost predicate AllStored(parts: Quad<PF.Files>, batch: seq<Staged>) {
    forall k :: PR.Stored(parts.At(k), RowsFor(batch, k))
  }

  /** One more logical CSV drained. */
  lemma DrainNext(t: Tree, cfg: Config, mode: PF.Mode, d: DiskState, e: DiskState, acts: seq<Action>,
                  batch: seq<Staged>, top: int, k: Kind)
    requires Sound(t, d) && BatchOk(t, LoadIndex(d.index), batch, top)
    requires Killable(t, d, acts) && e == DoAll(d, acts) && Sound(t, e)
    requires e == d.(parts := e.parts) && PartsGrow(d.parts, e.parts) && e.parts.At(k) == d.parts.At(k)
    ensures var all := acts + DrainActs(cfg, mode, d, batch, k);
            var g := DoAll(d, all);
            && Killable(t, d, all)
            && Sound(t, g)
            && g == d.(parts := g.parts)
            && PartsGrow(d.parts, g.parts)
            && PartsGrow(e.parts, g.parts)
            && (forall j :: j != k ==> g.parts.At(j) == e.parts.At(j))
            && PR.Stored(g.parts.At(k), RowsFor(batch, k))
  {
    var more := DrainActs(cfg, mode, e, batch, k);
    assert more == DrainActs(cfg, mode, d, batch, k);
    DrainKindKeepsSound(t, cfg, mode, e, batch, top, k);
    DrainKindStores(cfg, mode, e, batch, k);
    KillableSum(t, d, acts, more);
    DoAppend(d, acts, more);
    PartsGrowTrans(d.parts, e.parts, DoAll(e, more).parts);
  }

  ghost predicate Drained(t: Tree, d: DiskState, acts: seq<Action>, e: DiskState) {
    && Killable(t, d, acts)
    && e == DoAll(d, acts)
    && e == d.(parts := e.parts)
    && PartsGrow(d.parts, e.parts)
  }

  lemma DrainKind(t: Tree, cfg: Config, mode: PF.Mode, d: DiskState, e: DiskState, acts: seq<Action>,
                  batch: seq<Staged>, top: int, k: Kind)
    requires Sound(t, d) && BatchOk(t, LoadIndex(d.index), batch, top)
    requires Drained(t, d, acts, e) && e.parts.At(k) == d.parts.At(k)
    ensures var all := acts + DrainActs(cfg, mode, d, batch, k);
            var g := DoAll(d, all);
            && Drained(t, d, all, g)
            && (forall j :: j != k ==> g.parts.At(j) == e.parts.At(j))
            && PR.Stored(g.parts.At(k), RowsFor(batch, k))
  {
    DrainNext(t, cfg, mode, d, e, acts, batch, top, k);
  }

  ghost predicate DrainedKinds(t: Tree, d: DiskState, batch: seq<Staged>, kinds: seq<Kind>, acts: seq<Action>) {
    var e := DoAll(d, acts);
    && Drained(t, d, acts, e)
    && (forall k :: k !in kinds ==> e.parts.At(k) == d.parts.At(k))
    && (forall k :: k in kinds ==> PR.Stored(e.parts.At(k), RowsFor(batch, k)))
  }

  lemma DrainOneMore(t: Tree, cfg: Config, mode: PF.Mode, d: DiskState, batch: seq<Staged>, top: int,
                     kinds: seq<Kind>, acts: seq<Action>, k: Kind)
    requires Sound(t, d) && BatchOk(t, LoadIndex(d.index), batch, top)
    requires DrainedKinds(t, d, batch, kinds, acts) && k !in kinds
    ensures DrainedKinds(t, d, batch, kinds + [k], acts + DrainActs(cfg, mode, d, batch, k))
  {
    var e := DoAll(d, acts);
    DrainKind(t, cfg, mode, d, e, acts, batch, top, k);
    var g := DoAll(d, acts + DrainActs(cfg, mode, d, batch, k));
    forall j | j in kinds + [k]
      ensures PR.Stored(g.parts.At(j), RowsFor(batch, j))
    {
      if j != k {
        assert g.parts.At(j) == e.parts.At(j);
      }
    }
  }

  lemma NothingDrained(t: Tree, d: DiskState, batch: seq<Staged>)
    requires Sound(t, d)
    ensures DrainedKinds(t, d, batch, [], [])
  {
    KillableNone(t, d);
    forall k { PR.GrowsRefl(d.parts.At(k)); }
  }

  lemma DrainKeepsSound(t: Tree, cfg: Config, mode: PF.Mode, d: DiskState, batch: seq<Staged>, top: int)
    requires Sound(t, d) && BatchOk(t, LoadIndex(d.index), batch, top)
    ensures DrainedKinds(t, d, batch, KINDS, Drain(cfg, mode, d, batch))
  {
    NothingDrained(t, d, batch);
    forall i, acts | 0 <= i < |KINDS| && DrainedKinds(t, d, batch, KINDS[..i], acts)
      ensures DrainedKinds(t, d, batch, KINDS[..i + 1], acts + DrainActs(cfg, mode, d, batch, KINDS[i]))
    {
      assert KINDS[..i + 1] == KINDS[..i] + [KINDS[i]];
      DrainOneMore(t, cfg, mode, d, batch, top, KINDS[..i], acts, KINDS[i]);
    }
    DrainInduction(cfg, mode, d, batch, KINDS, (ks, acts) => DrainedKinds(t, d, batch, ks, acts));
  }

  lemma DrainStoresAll(t: Tree, cfg: Config, mode: PF.Mode, d: DiskState, batch: seq<Staged>, top: int)
    requires Sound(t, d) && BatchOk(t, LoadIndex(d.index), batch, top)
    ensures var acts := Drain(cfg, mode, d, batch);
            var e := DoAll(d, acts);
            Killable(t, d, acts) && Sound(t, e) && e == d.(parts := e.parts) && AllStored(e.parts, batch)
  {
    DrainKeepsSound(t, cfg, mode, d, batch, top);
    forall k { AllKinds(k); }
  }

  // --- Checkpoint ----------------------------------------------------------

  lemma BatchDelivered(parts: Quad<PF.Files>, batch: seq<Staged>, i: nat)
    requires i < |batch| && AllStored(parts, batch)
    ensures Delivered(parts, batch[i].block)
  {
    forall k
      ensures PR.Stored(parts.At(k), RowsOf(batch[i].block, batch[i].sincePrev, k))
    {
      RowsForContains(batch, i, k);
      assert PR.Stored(parts.At(k), RowsFor(batch, k));
    }
    assert DeliveredWith(parts, batch[i].block, batch[i].sincePrev);
  }

  /** The index after a flush. */
  lemma FlushedIndex(t: Tree, idx: ByHash, rows: seq<IndexRow>, batch: seq<Staged>, top: int)
    requires BatchOk(t, idx, batch, top) && rows == IndexRows(batch)
    ensures var added := LoadIndex(rows);
            && (forall h :: h in added <==> InBatch(batch, |batch|, h))
            && (forall i :: 0 <= i < |batch| ==> batch[i].block.hash in added && added[batch[i].block.hash] == rows[i])
  {
    assert DistinctHashes(rows);
    LoadIndexDistinct(rows);
    LoadIndexKeys(rows);
    forall i | 0 <= i < |batch|
      ensures batch[i].block.hash in LoadIndex(rows) && LoadIndex(rows)[batch[i].block.hash] == rows[i]
    {
      assert rows[i] in rows;
    }
    forall h | h in LoadIndex(rows)
      ensures InBatch(batch, |batch|, h)
    {
      var r := LoadIndex(rows)[h];
      var i :| 0 <= i < |rows| && rows[i] == r;
      assert batch[i].block.hash == h;
    }
  }

  lemma StagedRow(t: Tree, idx: ByHash, batch: seq<Staged>, top: int, i: nat)
    requires BatchOk(t, idx, batch, top) && i < |batch|
    ensures var h := batch[i].block.hash;
            && h in t && IndexRowOf(batch[i].block) == IndexRow(t[h].height, h, t[h].prev, CURRENT_SCHEMA)
            && (t[h].prev == NO_HASH || t[h].prev in idx || InBatch(batch, |batch|, t[h].prev))
  {
    assert InTree(t, batch[i].block);
    var prev := batch[i].block.prev;
    if InBatch(batch, i, prev) {
      var j :| 0 <= j < i && batch[j].block.hash == prev;
    }
  }

  lemma FlushKeepsClosed(t: Tree, idx: ByHash, batch: seq<Staged>, top: int)
    requires WellFormedTree(t) && IndexClosed(t, idx) && BatchOk(t, idx, batch, top)
    ensures IndexClosed(t, idx + LoadIndex(IndexRows(batch)))
  {
    var added := LoadIndex(IndexRows(batch));
    FlushedIndex(t, idx, IndexRows(batch), batch, top);
    forall h | h in added
      ensures h in t && added[h] == IndexRow(t[h].height, h, t[h].prev, CURRENT_SCHEMA)
      ensures t[h].prev != NO_HASH ==> t[h].prev in idx || t[h].prev in added
    {
      var i :| 0 <= i < |batch| && batch[i].block.hash == h;
      StagedRow(t, idx, batch, top, i);
    }
  }

  lemma FlushKeepsNotAhead(t: Tree, idx: ByHash, batch: seq<Staged>, top: int, parts: Quad<PF.Files>)
    requires BatchOk(t, idx, batch, top) && NotAhead(t, idx, parts) && AllStored(parts, batch)
    ensures NotAhead(t, idx + LoadIndex(IndexRows(batch)), parts)
  {
    var added := LoadIndex(IndexRows(batch));
    FlushedIndex(t, idx, IndexRows(batch), batch, top);
    forall h | h in added && h in t
      ensures Delivered(parts, t[h])
    {
      var i :| 0 <= i < |batch| && batch[i].block.hash == h;
      assert InTree(t, batch[i].block);
      BatchDelivered(parts, batch, i);
    }
  }

  /** After a drain, flushing the index keeps it closed and behind the exports. */
  lemma FlushIndexKeepsSound(t: Tree, d: DiskState, batch: seq<Staged>, top: int)
    requires WellFormedTree(t) && Sound(t, d)
    requires BatchOk(t, LoadIndex(d.index), batch, top) && AllStored(d.parts, batch)
    ensures var e := DoAll(d, FlushIndex(batch));
            && Killable(t, d, FlushIndex(batch))
            && Sound(t, e)
            && LoadIndex(e.index) == LoadIndex(d.index) + LoadIndex(IndexRows(batch))
            && e == d.(index := e.index)
  {
    if batch == [] {
      assert IndexRows(batch) == [];
      KillableNone(t, d);
    } else {
      var idx := LoadIndex(d.index);
      var a := IndexAppend(IndexRows(batch));
      var e := Do(d, a);
      LoadIndexAppend(d.index, IndexRows(batch));
      var next := LoadIndex(e.index);
      FlushKeepsClosed(t, idx, batch, top);
      FlushKeepsNotAhead(t, idx, batch, top, d.parts);
      if d.current.None? {
        GrownIndexKeepsFiles(t, idx, next, d.parts.blocks);
      }
      DoOne(d, a);
      KillableOne(t, d, a);
    }
  }

  ghost predicate Known(idx: ByHash, batch: seq<Staged>, h: Hash) {
    h in idx || InBatch(batch, |batch|, h)
  }

  /** The position is indexed or staged, and so is the active block it stands
      for. */
  ghost predicate CursorKnown(t: Tree, chain: seq<Block>, idx: ByHash, batch: seq<Staged>, at: Cursor) {
    && at.height < |chain|
    && (at.hash.None? ==> at.height == -1)
    && (at.hash.Some? ==> at.height >= 0 && at.hash.value in t && t[at.hash.value].height == at.height
                          && Known(idx, batch, at.hash.value))
    && (at.height >= 0 ==> Known(idx, batch, chain[at.height].hash))
  }

  ghost predicate WalkOk(t: Tree, chain: seq<Block>, d: DiskState, w: Walk) {
    && w.d == DoAll(d, w.acts)
    && Killable(t, d, w.acts)
    && Sound(t, w.d)
    && BatchOk(t, LoadIndex(w.d.index), w.batch, w.at.height)
    && CursorKnown(t, chain, LoadIndex(w.d.index), w.batch, w.at)
  }

  lemma DrainAndFlush(t: Tree, cfg: Config, mode: PF.Mode, d: DiskState, batch: seq<Staged>, top: int)
    requires WellFormedTree(t) && Sound(t, d) && BatchOk(t, LoadIndex(d.index), batch, top)
    ensures var acts := Drain(cfg, mode, d, batch) + FlushIndex(batch);
            var e := DoAll(d, acts);
            && Killable(t, d, acts)
            && LoadIndex(e.index) == LoadIndex(d.index) + LoadIndex(IndexRows(batch))
  {
    DrainStoresAll(t, cfg, mode, d, batch, top);
    var d1 := DoAll(d, Drain(cfg, mode, d, batch));
    assert d1.index == d.index;
    FlushIndexKeepsSound(t, d1, batch, top);
    KillableSum(t, d, Drain(cfg, mode, d, batch), FlushIndex(batch));
  }

  lemma FlagsAndPointer(t: Tree, d: DiskState, flags: Flags, at: Cursor)
    requires Sound(t, d)
    requires at.hash.Some? ==> PointerIndexed(t, LoadIndex(d.index), Some(Pointer(Max(at.height, 0), at.hash.value)))
    ensures var acts := FlushFlags(flags) + SavePointer(at);
            Killable(t, d, acts) && DoAll(d, acts).index == d.index
  {
    var a3 := FlushFlags(flags);
    HarmlessKeepsSound(t, d, a3);
    SavePointerKeepsSound(t, DoAll(d, a3), at);
    KillableSum(t, d, a3, SavePointer(at));
  }

  lemma PointerAfterFlush(t: Tree, idx: ByHash, batch: seq<Staged>, chain: seq<Block>, at: Cursor)
    requires BatchOk(t, idx, batch, at.height) && CursorKnown(t, chain, idx, batch, at)
    ensures at.hash.Some? ==>
      PointerIndexed(t, idx + LoadIndex(IndexRows(batch)), Some(Pointer(Max(at.height, 0), at.hash.value)))
  {
    FlushedIndex(t, idx, IndexRows(batch), batch, at.height);
  }

  lemma CheckpointEnd(t: Tree, cfg: Config, mode: PF.Mode, w: Walk, chain: seq<Block>)
    requires WellFormedTree(t) && Sound(t, w.d)
    requires BatchOk(t, LoadIndex(w.d.index), w.batch, w.at.height)
    requires CursorKnown(t, chain, LoadIndex(w.d.index), w.batch, w.at)
    ensures var e := DoAll(w.d, Drain(cfg, mode, w.d, w.batch) + FlushIndex(w.batch));
            var acts := FlushFlags(w.flags) + SavePointer(w.at);
            && Killable(t, e, acts)
            && LoadIndex(DoAll(e, acts).index) == LoadIndex(w.d.index) + LoadIndex(IndexRows(w.batch))
  {
    DrainAndFlush(t, cfg, mode, w.d, w.batch, w.at.height);
    var e := DoAll(w.d, Drain(cfg, mode, w.d, w.batch) + FlushIndex(w.batch));
    PointerAfterFlush(t, LoadIndex(w.d.index), w.batch, chain, w.at);
    FlagsAndPointer(t, e, w.flags, w.at);
  }

  lemma CheckpointStages(t: Tree, cfg: Config, mode: PF.Mode, w: Walk, chain: seq<Block>)
    requires WellFormedTree(t) && Sound(t, w.d)
    requires BatchOk(t, LoadIndex(w.d.index), w.batch, w.at.height)
    requires CursorKnown(t, chain, LoadIndex(w.d.index), w.batch, w.at)
    ensures var acts := CheckpointActs(cfg, mode, w);
            var e := DoAll(w.d, acts);
            && Killable(t, w.d, acts)
            && LoadIndex(e.index) == LoadIndex(w.d.index) + LoadIndex(IndexRows(w.batch))
  {
    var xs := Drain(cfg, mode, w.d, w.batch) + FlushIndex(w.batch);
    var ys := FlushFlags(w.flags) + SavePointer(w.at);
    assert CheckpointActs(cfg, mode, w) == xs + ys;
    DrainAndFlush(t, cfg, mode, w.d, w.batch, w.at.height);
    CheckpointEnd(t, cfg, mode, w, chain);
    KillableSum(t, w.d, xs, ys);
  }

  lemma CheckpointKeepsWalk(t: Tree, cfg: Config, mode: PF.Mode, chain: seq<Block>, d: DiskState, w: Walk)
    requires WellFormedTree(t) && WalkOk(t, chain, d, w)
    ensures WalkOk(t, chain, d, Checkpoint(cfg, mode, w))
  {
    var idx := LoadIndex(w.d.index);
    CheckpointStages(t, cfg, mode, w, chain);
    FlushedIndex(t, idx, IndexRows(w.batch), w.batch, w.at.height);
    var acts := CheckpointActs(cfg, mode, w);
    DoAppend(d, w.acts, acts);
    KillableSum(t, d, w.acts, acts);
  }

  // --- The loop ------------------------------------------------------------

  lemma NotStagedYet(t: Tree, idx: ByHash, batch: seq<Staged>, top: int, b: Block)
    requires BatchOk(t, idx, batch, top) && InTree(t, b) && b.height > top
    ensures !InBatch(batch, |batch|, b.hash) && !HasStaged(IndexRows(batch), b.hash)
  {
    forall j | 0 <= j < |batch|
      ensures batch[j].block.hash != b.hash
    {
      assert InTree(t, batch[j].block);
    }
  }

  lemma StageKeepsBatch(t: Tree, idx: ByHash, batch: seq<Staged>, top: int, s: Staged)
    requires BatchOk(t, idx, batch, top) && InTree(t, s.block) && s.block.height == top + 1
    requires s.block.prev == NO_HASH || Known(idx, batch, s.block.prev)
    ensures BatchOk(t, idx, batch + [s], top + 1)
  {
    NotStagedYet(t, idx, batch, top, s.block);
    var next := batch + [s];
    forall i | 0 <= i < |next|
      ensures InTree(t, next[i].block) && next[i].block.height <= top + 1
      ensures next[i].block.prev == NO_HASH || next[i].block.prev in idx || InBatch(next, i, next[i].block.prev)
    {
      if i < |batch| {
        assert next[i] == batch[i];
        if InBatch(batch, i, batch[i].block.prev) {
          var j :| 0 <= j < i && batch[j].block.hash == batch[i].block.prev;
          assert next[j] == batch[j];
        }
      } else if InBatch(batch, |batch|, s.block.prev) {
        var j :| 0 <= j < |batch| && batch[j].block.hash == s.block.prev;
        assert next[j] == batch[j];
      }
    }
    forall i, j | 0 <= i < j < |next|
      ensures next[i].block.hash != next[j].block.hash
    {
      if j == |batch| {
        assert InBatch(batch, |batch|, next[i].block.hash);
      }
    }
  }

  lemma VisitKeepsWalk(t: Tree, chain: seq<Block>, d: DiskState, w: Walk)
    requires WellFormedTree(t) && ActiveChain(t, chain) && WalkOk(t, chain, d, w)
    requires w.at.height + 1 < |chain|
    ensures WalkOk(t, chain, d, Visit(w, chain[w.at.height + 1]))
  {
    var b := chain[w.at.height + 1];
    var idx := LoadIndex(w.d.index);
    var v := Visit(w, b);
    assert InTree(t, b) && b.height == w.at.height + 1;
    if w.at.height >= 0 {
      assert b.prev == chain[w.at.height].hash;
    }
    NotStagedYet(t, idx, w.batch, w.at.height, b);
    if v.batch != w.batch {
      StageKeepsBatch(t, idx, w.batch, w.at.height, v.batch[|w.batch|]);
      assert v.batch[|w.batch|].block == b;
      assert InBatch(v.batch, |v.batch|, b.hash);
    } else {
      assert FindStaged(IndexRows(w.batch), b.hash).None?;
      assert b.hash in idx;
    }
  }

  lemma StepKeepsWalk(t: Tree, cfg: Config, mode: PF.Mode, chain: seq<Block>, d: DiskState, w: Walk)
    requires WellFormedTree(t) && ActiveChain(t, chain) && WalkOk(t, chain, d, w)
    requires w.at.height + 1 < |chain|
    ensures var v := VisitAndCheckpoint(cfg, mode, w, chain[w.at.height + 1]);
            WalkOk(t, chain, d, v) && v.at.height == w.at.height + 1
  {
    var v := Visit(w, chain[w.at.height + 1]);
    VisitKeepsWalk(t, chain, d, w);
    if CheckpointDue(cfg, mode, v.processed) {
      CheckpointKeepsWalk(t, cfg, mode, chain, d, v);
    }
  }

  lemma LoopKeepsWalk(t: Tree, cfg: Config, mode: PF.Mode, chain: seq<Block>, d: DiskState, w: Walk, n: nat)
    requires WellFormedTree(t) && ActiveChain(t, chain) && WalkOk(t, chain, d, w)
    requires w.at.height + 1 + n <= |chain|
    ensures var v := VisitAll(cfg, mode, w, chain[w.at.height + 1..w.at.height + 1 + n]);
            WalkOk(t, chain, d, v) && v.at.height == w.at.height + n
  {
    var step := (v, b) => VisitAndCheckpoint(cfg, mode, v, b);
    var Inv := v => WalkOk(t, chain, d, v);
    forall v: Walk, b: Block {:trigger step(v, b)}
      | Inv(v) && w.at.height <= v.at.height && v.at.height + 1 < |chain| && b == chain[v.at.height + 1]
      ensures Inv(step(v, b)) && step(v, b).at.height == v.at.height + 1
    {
      StepKeepsWalk(t, cfg, mode, chain, d, v);
    }
    FoldInduction(step, chain, w, n, Inv);
  }

  // --- Before the loop -----------------------------------------------------

  /** The walk back never leaves the index. */
  lemma {:induction false} WalkBackStaysIndexed(t: Tree, idx: ByHash, node: Node, maxDepth: nat, at: Pointer,
                                                seen: seq<Pointer>)
    requires WellFormedTree(t) && IndexClosed(t, idx) && PointerIndexed(t, idx, Some(at))
    requires at.height < |node.chain|
    ensures var r := WalkBackFrom(idx, node, maxDepth, at, seen);
            && !r.Unindexed?
            && (r.Ancestor? ==>
                  && PointerIndexed(t, idx, Some(r.at))
                  && r.at.height < |node.chain| && node.chain[r.at.height].hash == r.at.hash)
    decreases at.height
  {
    var detached := seen + [at];
    if |detached| <= maxDepth && at.height > 0 {
      var prev := idx[at.hash].prev;
      var live := HashAt(node, AncestorHash(at.height - 1), at.height - 1);
      if prev != NO_HASH && live.Some? && live.value != prev {
        WalkBackStaysIndexed(t, idx, node, maxDepth, Pointer(at.height - 1, prev), detached);
      }
    }
  }

  /** The position is an indexed block of the active chain, or there is none. */
  ghost predicate OnChain(t: Tree, idx: ByHash, chain: seq<Block>, at: Cursor) {
    || at == NOWHERE
    || (&& at.hash.Some? && 0 <= at.height < |chain| && chain[at.height].hash == at.hash.value
        && PointerIndexed(t, idx, Some(Pointer(at.height, at.hash.value))))
  }

  lemma RecoverOnChain(t: Tree, node: Node, maxDepth: nat, idx: ByHash, flags: Flags, at: Pointer)
    requires WellFormedTree(t) && IndexClosed(t, idx) && PointerIndexed(t, idx, Some(at))
    requires at.height < |node.chain|
    ensures var r := Recover(idx, node, maxDepth, flags, at);
            r.Recovered? ==> AllHarmless(r.acts) && OnChain(t, idx, node.chain, CursorAt(Some(r.at)))
  {
    WalkBackStaysIndexed(t, idx, node, maxDepth, at, []);
  }

  lemma ReconcileOnChain(t: Tree, cfg: Config, node: Node, idx: ByHash, flags: Flags, pointer: Option<Pointer>)
    requires WellFormedTree(t) && IndexClosed(t, idx) && PointerIndexed(t, idx, pointer)
    ensures var p := Reconcile(cfg, node, idx, flags, pointer);
            AllHarmless(p.acts) && (p.Ready? ==> OnChain(t, idx, node.chain, p.at))
  {
    if pointer.Some? && HashAt(node, CurrentHash, pointer.value.height).Some? {
      RecoverOnChain(t, node, cfg.maxReorgDepth, idx, flags, pointer.value);
    }
  }

  lemma {:induction false} IndexedBelow(t: Tree, chain: seq<Block>, idx: ByHash, i: nat, j: nat)
    requires WellFormedTree(t) && IndexClosed(t, idx) && ActiveChain(t, chain)
    requires i <= j < |chain| && chain[j].hash in idx
    ensures chain[i].hash in idx
    decreases j
  {
    assert InTree(t, chain[j]);
    if i < j {
      assert chain[j].prev == chain[j - 1].hash;
      assert InTree(t, chain[j - 1]);
      IndexedBelow(t, chain, idx, i, j - 1);
    }
  }

  lemma RewindKnown(t: Tree, chain: seq<Block>, idx: ByHash, at: Cursor, stale: Option<IndexRow>)
    requires WellFormedTree(t) && IndexClosed(t, idx) && ActiveChain(t, chain) && OnChain(t, idx, chain, at)
    requires IsEarliestStale(idx, stale)
    ensures CursorKnown(t, chain, idx, [], Rewind(at, stale))
  {
    var from := Rewind(at, stale);
    if from != at {
      assert idx[stale.value.hash] == stale.value;
      if from.height >= 0 {
        IndexedBelow(t, chain, idx, from.height, at.height);
      }
    }
  }

  lemma PointerOfCursor(t: Tree, chain: seq<Block>, idx: ByHash, at: Cursor)
    requires CursorKnown(t, chain, idx, [], at)
    ensures at.hash.Some? ==> PointerIndexed(t, idx, Some(Pointer(Max(at.height, 0), at.hash.value)))
  {
  }

  lemma PointerAndFlags(t: Tree, d: DiskState, flags: Flags, at: Cursor)
    requires Sound(t, d)
    requires at.hash.Some? ==> PointerIndexed(t, LoadIndex(d.index), Some(Pointer(Max(at.height, 0), at.hash.value)))
    ensures Killable(t, d, SavePointer(at) + FlushFlags(flags))
  {
    SavePointerKeepsSound(t, d, at);
    HarmlessKeepsSound(t, DoAll(d, SavePointer(at)), FlushFlags(flags));
    KillableSum(t, d, SavePointer(at), FlushFlags(flags));
  }

  lemma BeginKeepsSound(t: Tree, d: DiskState, latest: Pointer, top: Row)
    requires WellFormedTree(t) && Sound(t, d)
    requires d.current.None? && FoundRows(d.parts.blocks) != [] ==> IsTop(FoundRows(d.parts.blocks), top)
    ensures var begun := [LatestReplace(latest)] + Locate(d, top).acts;
            && Killable(t, d, begun)
            && DoAll(d, begun).index == DoAll(d, Locate(d, top).acts).index
            && PointerIndexed(t, LoadIndex(DoAll(d, begun).index), Locate(d, top).pointer)
  {
    var a := LatestReplace(latest);
    var e := Do(d, a);
    assert Harmless(a);
    DoOne(d, a);
    HarmlessKeepsSound(t, d, [a]);
    LocateKeepsSound(t, e, top);
    LocateKeepsSound(t, d, top);
    assert Locate(e, top) == Locate(d, top);
    KillableSum(t, d, [a], Locate(e, top).acts);
    SameIndex(d, e, Locate(d, top).acts);
  }

  lemma {:induction false} SameIndex(d: DiskState, e: DiskState, acts: seq<Action>)
    requires d.index == e.index
    ensures DoAll(d, acts).index == DoAll(e, acts).index
    decreases |acts|
  {
    if acts != [] {
      SameIndex(d, e, acts[..|acts| - 1]);
    }
  }

  /** `p` may follow on disk `d`: it is safe to kill anywhere, and ready means
      that the position is known. */
  ghost predicate PrepOk(t: Tree, chain: seq<Block>, d: DiskState, p: Prep) {
    && Killable(t, d, p.acts)
    && (p.Ready? ==> CursorKnown(t, chain, LoadIndex(DoAll(d, p.acts).index), [], p.at))
  }

  lemma EnterEnds(t: Tree, d: DiskState, acts: seq<Action>, flags: Flags, from: Cursor)
    requires Killable(t, d, acts)
    requires var idx := LoadIndex(DoAll(d, acts).index);
             from.hash.Some? ==> PointerIndexed(t, idx, Some(Pointer(Max(from.height, 0), from.hash.value)))
    ensures Killable(t, d, acts + SavePointer(from) + FlushFlags(flags))
  {
    hide DoAll, Killable, LoadIndex, PointerIndexed, SavePointer, FlushFlags, Sound;
    KillableEnds(t, d, acts);
    PointerAndFlags(t, DoAll(d, acts), flags, from);
    KillableSum(t, d, acts, SavePointer(from) + FlushFlags(flags));
    assert acts + (SavePointer(from) + FlushFlags(flags)) == acts + SavePointer(from) + FlushFlags(flags);
  }

  lemma EnterReady(t: Tree, cfg: Config, node: Node, stale: Option<IndexRow>, d: DiskState, p: Prep)
    requires WellFormedTree(t) && ActiveChain(t, node.chain) && Sound(t, d)
    requires p.Ready? && AllHarmless(p.acts) && OnChain(t, LoadIndex(d.index), node.chain, p.at)
    requires IsEarliestStale(LoadIndex(d.index), stale)
    ensures Killable(t, d, p.acts)
    ensures CursorKnown(t, node.chain, LoadIndex(DoAll(d, p.acts).index), [], Rewind(p.at, stale))
  {
    RewindKnown(t, node.chain, LoadIndex(d.index), p.at, stale);
    HarmlessKeepsSound(t, d, p.acts);
  }

  lemma EnterFrom(t: Tree, cfg: Config, node: Node, stale: Option<IndexRow>, d: DiskState, p: Prep)
    requires p.Ready? && Killable(t, d, p.acts)
    requires CursorKnown(t, node.chain, LoadIndex(DoAll(d, p.acts).index), [], Rewind(p.at, stale))
    ensures PrepOk(t, node.chain, d, Enter(cfg, node, stale, p))
  {
    var from := Rewind(p.at, stale);
    PointerOfCursor(t, node.chain, LoadIndex(DoAll(d, p.acts).index), from);
    EnterEnds(t, d, p.acts, p.flags, from);
  }

  lemma EnterKeepsSound(t: Tree, cfg: Config, node: Node, stale: Option<IndexRow>, d: DiskState, p: Prep)
    requires WellFormedTree(t) && ActiveChain(t, node.chain) && Sound(t, d)
    requires p.Ready? && AllHarmless(p.acts) && OnChain(t, LoadIndex(d.index), node.chain, p.at)
    requires IsEarliestStale(LoadIndex(d.index), stale)
    ensures PrepOk(t, node.chain, d, Enter(cfg, node, stale, p))
  {
    EnterReady(t, cfg, node, stale, d, p);
    EnterFrom(t, cfg, node, stale, d, p);
  }

  lemma PrefixKeepsSound(t: Tree, chain: seq<Block>, d: DiskState, begun: seq<Action>, p: Prep)
    requires Killable(t, d, begun) && PrepOk(t, chain, DoAll(d, begun), p)
    ensures PrepOk(t, chain, d, Prefix(begun, p))
  {
    KillableSum(t, d, begun, p.acts);
  }

  lemma ReconcileThenEnter(t: Tree, cfg: Config, node: Node, stale: Option<IndexRow>, e: DiskState, flags: Flags,
                           pointer: Option<Pointer>)
    requires WellFormedTree(t) && ActiveChain(t, node.chain) && Sound(t, e)
    requires PointerIndexed(t, LoadIndex(e.index), pointer) && IsEarliestStale(LoadIndex(e.index), stale)
    ensures var p := Reconcile(cfg, node, LoadIndex(e.index), flags, pointer);
            PrepOk(t, node.chain, e, if p.Halt? then p else Enter(cfg, node, stale, p))
  {
    var p := Reconcile(cfg, node, LoadIndex(e.index), flags, pointer);
    ReconcileOnChain(t, cfg, node, LoadIndex(e.index), flags, pointer);
    if p.Halt? {
      HarmlessKeepsSound(t, e, p.acts);
    } else {
      EnterKeepsSound(t, cfg, node, stale, e, p);
    }
  }

  lemma PrepareKeepsSound(t: Tree, cfg: Config, node: Node, picks: Picks, d: DiskState, flags: Flags)
    requires WellFormedTree(t) && ActiveChain(t, node.chain) && Sound(t, d) && ValidPicks(picks, d)
    ensures PrepOk(t, node.chain, d, Prepare(cfg, node, picks, d, flags))
  {
    var latest := Latest(cfg, node);
    KillableNone(t, d);
    if node.ok(BlockCount) && latest >= 0 && node.ok(LatestHash) {
      var pointer := Pointer(latest, node.chain[latest].hash);
      BeginKeepsSound(t, d, pointer, picks.top);
      var begun := [LatestReplace(pointer)] + Locate(d, picks.top).acts;
      var e := DoAll(d, begun);
      ReconcileThenEnter(t, cfg, node, picks.stale, e, flags, Locate(d, picks.top).pointer);
      var p := Reconcile(cfg, node, LoadIndex(e.index), flags, Locate(d, picks.top).pointer);
      PrefixKeepsSound(t, node.chain, d, begun, if p.Halt? then p else Enter(cfg, node, picks.stale, p));
    }
  }

  lemma ReadyIsOnChain(t: Tree, cfg: Config, node: Node, picks: Picks, d: DiskState, flags: Flags)
    requires WellFormedTree(t) && Stable(t, node) && Sound(t, d) && ValidPicks(picks, d)
    ensures var p := Prepare(cfg, node, picks, d, flags); p.Ready? ==> p.at.height < |node.chain|
  {
    PrepareKeepsSound(t, cfg, node, picks, d, flags);
  }

  // --- The pass ------------------------------------------------------------

  lemma StartWalkOk(t: Tree, node: Node, d: DiskState, p: Prep)
    requires p.Ready? && PrepOk(t, node.chain, d, p)
    ensures WalkOk(t, node.chain, d, StartWalk(node, d, p))
  {
  }

  lemma FinishKeepsSound(t: Tree, cfg: Config, mode: PF.Mode, chain: seq<Block>, d: DiskState, w: Walk,
                         ending: Ending, latest: int)
    requires WellFormedTree(t) && WalkOk(t, chain, d, w)
    ensures Killable(t, d, FinishWalk(cfg, mode, w, ending, latest).acts)
  {
    if !ending.Failed? {
      CheckpointKeepsWalk(t, cfg, mode, chain, d, w);
    }
  }

  lemma LoopEndsSound(t: Tree, cfg: Config, mode: PF.Mode, chain: seq<Block>, d: DiskState, w: Walk, from: nat, n: nat,
                      ending: Ending, latest: int)
    requires WellFormedTree(t) && ActiveChain(t, chain) && WalkOk(t, chain, d, w)
    requires from == w.at.height + 1 && from + n <= |chain|
    ensures Killable(t, d, FinishWalk(cfg, mode, VisitAll(cfg, mode, w, chain[from..from + n]), ending, latest).acts)
  {
    hide VisitAll, FinishWalk, Killable, WalkOk, ActiveChain, WellFormedTree;
    LoopKeepsWalk(t, cfg, mode, chain, d, w, n);
    FinishKeepsSound(t, cfg, mode, chain, d, VisitAll(cfg, mode, w, chain[from..from + n]), ending, latest);
  }

  lemma StretchKeepsSound(t: Tree, cfg: Config, node: Node, d: DiskState, p: Prep, n: nat, ending: Ending)
    requires WellFormedTree(t) && ActiveChain(t, node.chain) && p.Ready? && PrepOk(t, node.chain, d, p)
    requires p.at.height + 1 + n <= |node.chain|
    ensures Killable(t, d, StretchResult(cfg, node, d, p, n, ending).acts)
  {
    var mode := ModeFor(cfg, p.at, Latest(cfg, node));
    StartWalkOk(t, node, d, p);
    LoopEndsSound(t, cfg, mode, node.chain, d, StartWalk(node, d, p), p.at.height + 1, n, ending, Latest(cfg, node));
  }

  lemma RunLoopKeepsSound(t: Tree, cfg: Config, node: Node, workers: nat, stopAt: nat, d: DiskState, p: Prep)
    requires WellFormedTree(t) && Stable(t, node) && p.Ready? && PrepOk(t, node.chain, d, p)
    ensures Killable(t, d, RunLoop(cfg, node, workers, stopAt, d, p).acts)
  {
    var Good := (r: PassResult) => Killable(t, d, r.acts);
    forall n: nat, ending {:trigger StretchResult(cfg, node, d, p, n, ending)} | p.at.height + 1 + n <= |node.chain|
      ensures Good(StretchResult(cfg, node, d, p, n, ending))
    {
      StretchKeepsSound(t, cfg, node, d, p, n, ending);
    }
    LoopRule(t, cfg, node, workers, stopAt, d, p, Good);
  }

  /** A pass may be killed anywhere. */
  lemma PassKeepsSound(t: Tree, cfg: Config, node: Node, workers: nat, stopAt: nat, picks: Picks, d: DiskState,
                       flags: Flags)
    requires WellFormedTree(t) && Stable(t, node) && Sound(t, d) && ValidPicks(picks, d)
    ensures Killable(t, d, RunPass(cfg, node, workers, stopAt, picks, d, flags).acts)
  {
    PrepareKeepsSound(t, cfg, node, picks, d, flags);
    var p := Prepare(cfg, node, picks, d, flags);
    if p.Ready? {
      RunLoopKeepsSound(t, cfg, node, workers, stopAt, d, p);
    }
  }
}
