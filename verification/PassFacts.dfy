/** What a checkpoint does to the disk, whatever state it starts in. */
module PassFacts {
  import opened Basics
  import opened Chain
  import opened IndexFile
  import opened DiskModel
  import opened Pass
  import PF = PartFiles

  /** No block is staged twice. */
  ghost predicate Distinct(batch: seq<Staged>) {
    forall i, j :: 0 <= i < j < |batch| ==> batch[i].block.hash != batch[j].block.hash
  }

  lemma {:induction false} RowsForConcat(xs: seq<Staged>, ys: seq<Staged>, k: Kind)
    ensures RowsFor(xs + ys, k) == RowsFor(xs, k) + RowsFor(ys, k)
    decreases |ys|
  {
    if ys == [] {
      assert xs + ys == xs;
    } else {
      var n := |ys| - 1;
      assert (xs + ys)[..|xs + ys| - 1] == xs + ys[..n];
      RowsForConcat(xs, ys[..n], k);
    }
  }

  function RowsIn(a: PF.PartAction): seq<Row> {
    if a.Append? || a.Publish? then a.rows else []
  }

  lemma {:induction false} ClosingWritesNothing(f: PF.Files, acts: seq<PF.PartAction>)
    requires forall a :: a in acts ==> a.HandOff? || a.Persist?
    ensures PF.ApplyAll(f, acts).written == f.written
    decreases |acts|
  {
    if acts != [] {
      ClosingWritesNothing(f, acts[..|acts| - 1]);
    }
  }

  lemma OneWrite(f: PF.Files, a: PF.PartAction)
    ensures PF.Apply(f, a).written == f.written + RowsIn(a)
  {
  }

  lemma TwoWrite(f: PF.Files, close: seq<PF.PartAction>, a: PF.PartAction, b: PF.PartAction)
    requires forall c :: c in close ==> c.HandOff? || c.Persist?
    ensures PF.ApplyAll(f, close + [a, b]).written == f.written + (RowsIn(a) + RowsIn(b))
  {
    hide PF.Apply, PF.ApplyAll, RowsIn;
    ClosingWritesNothing(f, close);
    PF.ApplyAppend(f, close, [a, b]);
    var c := PF.ApplyAll(f, close);
    assert [a, b] == [a] + [b];
    PF.ApplyAppend(c, [a], [b]);
    PF.ApplyOne(c, a);
    PF.ApplyOne(PF.Apply(c, a), b);
    OneWrite(c, a);
    OneWrite(PF.Apply(c, a), b);
  }

  /** Every action of a write has all its rows or none. */
  lemma WrittenRows(cfg: PF.PartConfig, f: PF.Files, m: PF.Counter, mode: PF.Mode, rows: seq<Row>)
    ensures forall a :: a in PF.WriteActions(cfg, f, m, mode, rows) ==> RowsIn(a) == [] || RowsIn(a) == rows
  {
  }

  /** A completed write adds its rows to the logical CSV, once. */
  lemma WriteWritesOnce(cfg: PF.PartConfig, f: PF.Files, m: PF.Counter, mode: PF.Mode, rows: seq<Row>)
    ensures PF.ApplyAll(f, PF.WriteActions(cfg, f, m, mode, rows)).written == f.written + rows
  {
    if rows == [] {
      assert f.written + rows == f.written;
    } else {
      var close := if mode.Atomic? || PF.NeedsNewPart(cfg, f, m) then PF.CloseActions(f, m) else [];
      var append := if PF.NeedsNewPart(cfg, f, m) then m.part + 1 else m.part;
      var open := if PF.NeedsNewPart(cfg, f, m) then PF.Counter(m.part + 1, true) else m;
      assert rows + [] == rows && [] + rows == rows;
      if mode.Atomic? {
        TwoWrite(f, close, PF.Persist(PF.Counter(m.part + 1, false)), PF.Publish(PF.PathNumber(m.part + 1), rows));
      } else {
        TwoWrite(f, close, PF.Append(PF.PathNumber(append), rows), PF.Persist(open));
        assert close + [PF.Append(PF.PathNumber(append), rows), PF.Persist(open)] == PF.BatchedActions(cfg, f, m, rows);
      }
    }
  }

  /** What draining the logical CSVs `kinds` did. */
  ghost predicate DrainedOnce(d: DiskState, batch: seq<Staged>, kinds: seq<Kind>, e: DiskState) {
    && e == d.(parts := e.parts)
    && forall k :: e.parts.At(k).written == d.parts.At(k).written + (if k in kinds then RowsFor(batch, k) else [])
                   && (k !in kinds || RowsFor(batch, k) == [] ==> e.parts.At(k) == d.parts.At(k))
  }

  lemma DrainKindOnce(cfg: Config, mode: PF.Mode, d: DiskState, e: DiskState, batch: seq<Staged>, kinds: seq<Kind>,
                      k: Kind)
    requires DrainedOnce(d, batch, kinds, e) && k !in kinds
    ensures DrainedOnce(d, batch, kinds + [k], DoAll(e, DrainActs(cfg, mode, d, batch, k)))
  {
    var f := d.parts.At(k);
    assert e.parts.At(k) == f;
    var acts := PF.WriteActions(cfg.parts, f, PF.Load(f), mode, RowsFor(batch, k));
    DoTagged(e, k, acts);
    WriteWritesOnce(cfg.parts, f, PF.Load(f), mode, RowsFor(batch, k));
  }

  lemma {:induction false} DrainKindsOnce(cfg: Config, mode: PF.Mode, d: DiskState, batch: seq<Staged>,
                                          kinds: seq<Kind>)
    requires forall i, j :: 0 <= i < j < |kinds| ==> kinds[i] != kinds[j]
    ensures DrainedOnce(d, batch, kinds, DoAll(d, DrainKinds(cfg, mode, d, batch, kinds)))
    decreases |kinds|
  {
    if kinds == [] {
      assert forall k :: d.parts.At(k).written + [] == d.parts.At(k).written;
    } else {
      var n := |kinds| - 1;
      var acts := DrainKinds(cfg, mode, d, batch, kinds[..n]);
      DrainKindsOnce(cfg, mode, d, batch, kinds[..n]);
      DrainKindOnce(cfg, mode, d, DoAll(d, acts), batch, kinds[..n], kinds[n]);
      DoAppend(d, acts, DrainActs(cfg, mode, d, batch, kinds[n]));
      assert kinds[..n] + [kinds[n]] == kinds;
    }
  }

  lemma AllKinds(k: Kind)
    ensures k in KINDS
  {
    assert KINDS[0] == Blocks && KINDS[1] == Transactions && KINDS[2] == Inputs && KINDS[3] == Outputs;
  }

  /** The disk after a checkpoint of walk `w`. */
  ghost predicate Checkpointed(w: Walk, e: DiskState) {
    && e.index == w.d.index + IndexRows(w.batch)
    && e.reorgs == w.d.reorgs
    && e.current == PointerAfter(w.d, w.at)
    && e.status == (if w.flags.dirty then w.flags.entries else w.d.status)
    && (forall k :: e.parts.At(k).written == w.d.parts.At(k).written + RowsFor(w.batch, k))
    && (w.batch == [] ==> e.parts == w.d.parts)
  }

  lemma FlushIndexDoes(d: DiskState, batch: seq<Staged>)
    ensures DoAll(d, FlushIndex(batch)) == d.(index := d.index + IndexRows(batch))
  {
    if batch == [] {
      assert d.index + IndexRows(batch) == d.index;
    } else {
      DoOne(d, IndexAppend(IndexRows(batch)));
    }
  }

  lemma FlushFlagsDoes(d: DiskState, flags: Flags)
    ensures DoAll(d, FlushFlags(flags)) == d.(status := if flags.dirty then flags.entries else d.status)
  {
    if flags.dirty {
      DoOne(d, StatusReplace(flags.entries));
    }
  }

  function PointerAfter(d: DiskState, at: Cursor): Option<Pointer> {
    if at.hash.Some? && at.height >= 0 then Some(Pointer(at.height, at.hash.value)) else d.current
  }

  lemma SavePointerDoes(d: DiskState, at: Cursor)
    ensures DoAll(d, SavePointer(at)) == d.(current := PointerAfter(d, at))
  {
    if at.hash.Some? && at.height >= 0 {
      DoOne(d, CurrentReplace(Pointer(at.height, at.hash.value)));
    }
  }

  lemma DrainFacts(cfg: Config, mode: PF.Mode, d: DiskState, batch: seq<Staged>)
    ensures var e := DoAll(d, Drain(cfg, mode, d, batch));
            && e == d.(parts := e.parts)
            && (forall k :: e.parts.At(k).written == d.parts.At(k).written + RowsFor(batch, k))
            && (batch == [] ==> e.parts == d.parts)
  {
    DrainKindsOnce(cfg, mode, d, batch, KINDS);
    forall k { AllKinds(k); }
    var e := DoAll(d, Drain(cfg, mode, d, batch));
    if batch == [] {
      assert e.parts.At(Blocks) == d.parts.blocks && e.parts.At(Transactions) == d.parts.transactions;
      assert e.parts.At(Inputs) == d.parts.inputs && e.parts.At(Outputs) == d.parts.outputs;
    }
  }

  lemma CheckpointFacts(cfg: Config, mode: PF.Mode, w: Walk)
    ensures Checkpointed(w, DoAll(w.d, CheckpointActs(cfg, mode, w)))
  {
    var a1 := Drain(cfg, mode, w.d, w.batch);
    var a2, a3, a4 := FlushIndex(w.batch), FlushFlags(w.flags), SavePointer(w.at);
    DrainFacts(cfg, mode, w.d, w.batch);
    var d1 := DoAll(w.d, a1);
    FlushIndexDoes(d1, w.batch);
    var d2 := DoAll(d1, a2);
    FlushFlagsDoes(d2, w.flags);
    var d3 := DoAll(d2, a3);
    SavePointerDoes(d3, w.at);
    DoAppend(w.d, a1, a2);
    DoAppend(w.d, a1 + a2, a3);
    DoAppend(w.d, a1 + a2 + a3, a4);
  }

  /** On a stable chain the loop visits a stretch of it, whatever part of it is
      prefetched. */
  lemma {:induction false} VisitsAreChain(t: Tree, node: Node, stopAt: nat, parallelEnd: int, latest: int, h: nat,
                                          last: Option<Hash>)
    requires Stable(t, node) && latest < |node.chain|
    ensures var v := VisitsFrom(node, stopAt, parallelEnd, latest, h, last);
            h + |v.blocks| <= Max(h, |node.chain|) &&
            (h <= |node.chain| ==> v.blocks == node.chain[h..h + |v.blocks|])
    decreases latest + 1 - h
  {
    hide ActiveChain;
    if h <= latest && h < stopAt && node.ok(Fetch(h)) {
      var b := node.served(h);
      assert b == node.chain[h];
      if !(h <= parallelEnd && last.Some? && b.prev != last.value) {
        VisitsAreChain(t, node, stopAt, parallelEnd, latest, h + 1, Some(b.hash));
        var rest := VisitsFrom(node, stopAt, parallelEnd, latest, h + 1, Some(b.hash)).blocks;
        assert [b] + rest == node.chain[h..h + 1 + |rest|];
      }
    }
  }

  /** No height above `latest` is visited. */
  lemma {:induction false} VisitsStayBelow(node: Node, stopAt: nat, parallelEnd: int, latest: int, h: nat,
                                           last: Option<Hash>)
    ensures h + |VisitsFrom(node, stopAt, parallelEnd, latest, h, last).blocks| <= Max(h, latest + 1)
    decreases latest + 1 - h
  {
    if h <= latest && h < stopAt && node.ok(Fetch(h)) {
      VisitsStayBelow(node, stopAt, parallelEnd, latest, h + 1, Some(node.served(h).hash));
    }
  }

  /** The loop that visits `n` blocks of the chain and then ends. */
  ghost function StretchResult(cfg: Config, node: Node, d: DiskState, p: Prep, n: nat, ending: Ending): PassResult
    requires p.Ready? && p.at.height + 1 + n <= |node.chain|
  {
    var from := p.at.height + 1;
    var mode := ModeFor(cfg, p.at, Latest(cfg, node));
    FinishWalk(cfg, mode, VisitAll(cfg, mode, StartWalk(node, d, p), node.chain[from..from + n]), ending,
               Latest(cfg, node))
  }

  lemma LoopVisitsChain(t: Tree, cfg: Config, node: Node, workers: nat, stopAt: nat, d: DiskState, p: Prep)
    returns (n: nat, ending: Ending)
    requires Stable(t, node) && p.Ready? && p.at.height < |node.chain|
    ensures p.at.height + 1 + n <= |node.chain|
    ensures RunLoop(cfg, node, workers, stopAt, d, p) == StretchResult(cfg, node, d, p, n, ending)
  {
    hide VisitsFrom, VisitAll, FinishWalk, StartWalk, ParallelEnd, ModeFor;
    var latest := Latest(cfg, node);
    var end := ParallelEnd(cfg, node, workers, p.at, latest);
    var visits := VisitsFrom(node, stopAt, end, latest, p.at.height + 1, p.at.hash);
    VisitsAreChain(t, node, stopAt, end, latest, p.at.height + 1, p.at.hash);
    n, ending := |visits.blocks|, visits.ending;
  }

  /** What holds after the visit of any stretch of the chain holds after the
      loop. */
  lemma LoopRule(t: Tree, cfg: Config, node: Node, workers: nat, stopAt: nat, d: DiskState, p: Prep,
                 Good: PassResult -> bool)
    requires Stable(t, node) && p.Ready? && p.at.height < |node.chain|
    requires forall n: nat, ending {:trigger StretchResult(cfg, node, d, p, n, ending)} ::
      p.at.height + 1 + n <= |node.chain| ==> Good(StretchResult(cfg, node, d, p, n, ending))
    ensures Good(RunLoop(cfg, node, workers, stopAt, d, p))
  {
    var n, ending := LoopVisitsChain(t, cfg, node, workers, stopAt, d, p);
    assert Good(StretchResult(cfg, node, d, p, n, ending));
  }
}
