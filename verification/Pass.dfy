/** One pass of rpc-ingest as a function of the disk, the in-memory flags and
    the answers of the node: the list of durable actions it performs, the flags
    it leaves in memory and how it ends. */
module Pass {
  import opened Basics
  import opened Chain
  import opened IndexFile
  import opened DiskModel
  import PF = PartFiles

  type Positive = n: int | n >= 1 witness 1

  datatype Config = Config(batchSize: Positive, confirmations: nat, maxReorgDepth: Positive, parts: PF.PartConfig)

  // --- The node ------------------------------------------------------------

  /** The RPC calls of a pass; each may fail after its retries. */
  datatype Call =
    | BlockCount
    | LatestHash
    | CurrentHash
    | AncestorHash(height: nat)
    | AttachedHash(height: nat)
    | CurrentHeader
    | Fetch(height: nat)

  /** `chain` is the active chain, `ok` says which calls are answered, `served`
      is the block fetched for a height (by the loop or by a worker) and
      `timeOf` the time in the header of a block. */
  datatype Node = Node(chain: seq<Block>, ok: Call -> bool, served: nat -> Block, timeOf: Hash -> int)

  /** The chain does not change during the pass. */
  ghost predicate Stable(t: Tree, node: Node) {
    && ActiveChain(t, node.chain)
    && (forall h :: 0 <= h < |node.chain| ==> node.served(h) == node.chain[h])
    && (forall h :: h >= |node.chain| ==> !node.ok(Fetch(h)))
  }

  /** Headers carry the times of the blocks. */
  ghost predicate Truthful(t: Tree, node: Node) {
    forall x :: x in t ==> node.timeOf(x) == t[x].time
  }

  /** getblockhash, which also fails above the tip. */
  function HashAt(node: Node, call: Call, h: nat): Option<Hash> {
    if node.ok(call) && h < |node.chain| then Some(node.chain[h].hash) else None
  }

  // --- Where the pass starts -----------------------------------------------

  type Height = h: int | h >= -1 witness -1

  /** The position of the loop: last processed height (-1 for none) and hash. */
  datatype Cursor = Cursor(height: Height, hash: Option<Hash>)

  const NOWHERE := Cursor(-1, None)

  function CursorAt(p: Option<Pointer>): Cursor {
    if p.Some? then Cursor(p.value.height, Some(p.value.hash)) else NOWHERE
  }

  function FileAt(f: PF.Files, n: nat): seq<Row> {
    if n in f.exported then f.exported[n] else if n in f.open then f.open[n] else []
  }

  function RowsUpTo(f: PF.Files, n: nat): seq<Row> {
    if n == 0 then [] else RowsUpTo(f, n - 1) + FileAt(f, n)
  }

  /** All rows of a logical CSV still on disk, in part order. */
  ghost function FoundRows(f: PF.Files): seq<Row> {
    RowsUpTo(f, PF.Highest(f.open.Keys + f.exported.Keys))
  }

  ghost predicate IsTop(rows: seq<Row>, top: Row) {
    top in rows && forall r :: r in rows ==> r.height <= top.height
  }

  /** What is staged when the index is seeded: rows of the oldest schema. */
  function SeedPending(byHash: ByHash, pending: seq<IndexRow>, rows: seq<Row>): seq<IndexRow>
    decreases |rows|
  {
    if rows == [] then pending
    else
      SeedPending(byHash, AddRow(byHash, pending, IndexRow(rows[0].height, rows[0].block, rows[0].prev, 1)), rows[1..])
  }

  datatype Located = Located(acts: seq<Action>, pointer: Option<Pointer>)

  /** Choices the code leaves to the order of a scan: the highest seeded row
      and the lowest stale row. */
  datatype Picks = Picks(top: Row, stale: Option<IndexRow>)

  ghost function Locate(d: DiskState, top: Row): Located {
    if d.current.Some? then Located([], d.current)
    else
      var rows := FoundRows(d.parts.blocks);
      if rows == [] then Located([], None)
      else
        var pending := SeedPending(LoadIndex(d.index), [], rows);
        Located(if pending == [] then [] else [IndexAppend(pending)], Some(Pointer(top.height, top.block)))
  }

  // --- Reorg recovery ------------------------------------------------------

  datatype WalkBack =
    | Ancestor(at: Pointer, detached: seq<Pointer>)
    | TooDeep(height: nat)
    | Unindexed(at: Pointer)
    | NoEarlierBlock(height: nat)
    | NoAnswer

  /** The walk from a stale pointer back to the common ancestor. */
  function WalkBackFrom(byHash: ByHash, node: Node, maxDepth: nat, at: Pointer, seen: seq<Pointer>): WalkBack
    decreases at.height
  {
    var detached := seen + [at];
    if |detached| > maxDepth then TooDeep(at.height)
    else if at.hash !in byHash then Unindexed(at)
    else
      var prev := byHash[at.hash].prev;
      if at.height == 0 || prev == NO_HASH then NoEarlierBlock(at.height)
      else
        var live := HashAt(node, AncestorHash(at.height - 1), at.height - 1);
        if live.None? then NoAnswer
        else if live.value == prev then Ancestor(Pointer(at.height - 1, prev), detached)
        else WalkBackFrom(byHash, node, maxDepth, Pointer(at.height - 1, prev), detached)
  }

  /** Flags the detached blocks non-canonical, lowest first. */
  function FlagDetached(f: Flags, detached: seq<Pointer>): Flags
    decreases |detached|
  {
    if detached == [] then f
    else
      var n := |detached| - 1;
      FlagDetached(SetCanonical(f, detached[n].height, detached[n].hash, false), detached[..n])
  }

  function Reversed<T>(xs: seq<T>): seq<T> {
    if xs == [] then [] else Reversed(xs[1..]) + [xs[0]]
  }

  function AttachedRange(node: Node, lowest: nat, highest: nat): seq<Pointer>
    requires highest < |node.chain|
  {
    if lowest > highest then []
    else
      seq(highest - lowest + 1,
          i requires 0 <= i <= highest - lowest => Pointer(lowest + i, node.chain[lowest + i].hash))
  }

  function FlushFlags(f: Flags): seq<Action> {
    if f.dirty then [StatusReplace(f.entries)] else []
  }

  function SavePointer(at: Cursor): seq<Action> {
    if at.hash.Some? && at.height >= 0 then [CurrentReplace(Pointer(at.height, at.hash.value))] else []
  }

  datatype Outcome =
    | CaughtUp    // sleep before the next pass
    | Again       // go again at once
    | Aborted     // the node did not answer
    | Fatal       // stopped for manual intervention

  /** `at` is the block the in-memory flags stand for afterwards. */
  datatype Recovery =
    | Recovered(acts: seq<Action>, flags: Flags, at: Pointer)
    | NotRecovered(flags: Flags, outcome: Outcome, at: Pointer)

  function Recover(byHash: ByHash, node: Node, maxDepth: nat, flags: Flags, at: Pointer): Recovery
    requires at.height < |node.chain|
  {
    match WalkBackFrom(byHash, node, maxDepth, at, [])
    case Ancestor(anc, detached) =>
      var flagged := FlagDetached(flags, detached);
      if !node.ok(AttachedHash(at.height)) then NotRecovered(flagged, Aborted, anc)
      else
        var log := ReorgLog(anc.height + 1, at.height, Reversed(detached),
                            AttachedRange(node, anc.height + 1, at.height));
        Recovered(FlushFlags(flagged) + [ReorgLogWrite(log)], flagged.(dirty := false), anc)
    case NoAnswer => NotRecovered(flags, Aborted, at)
    case _ => NotRecovered(flags, Fatal, at)
  }

  // --- Before the loop -----------------------------------------------------

  datatype Prep =
    | Ready(acts: seq<Action>, flags: Flags, at: Cursor)
    | Halt(acts: seq<Action>, flags: Flags, outcome: Outcome, at: Cursor)

  /** From the stored position to the block the active chain still has. */
  function Reconcile(cfg: Config, node: Node, byHash: ByHash, flags: Flags, pointer: Option<Pointer>): Prep {
    match pointer
    case None => Ready([], flags, NOWHERE)
    case Some(p) =>
      var live := HashAt(node, CurrentHash, p.height);
      if live.None? then Halt([], flags, Aborted, CursorAt(pointer))
      else if live.value == p.hash then Ready([], flags, CursorAt(pointer))
      else
        match Recover(byHash, node, cfg.maxReorgDepth, flags, p)
        case Recovered(acts, flags', at) => Ready(acts, flags', CursorAt(Some(at)))
        case NotRecovered(flags', outcome, at) => Halt([], flags', outcome, CursorAt(Some(at)))
  }

  /** Rewinds below the lowest block exported under an older schema. */
  function Rewind(at: Cursor, stale: Option<IndexRow>): Cursor {
    if stale.Some? && stale.value.height - 1 < at.height
    then Cursor(stale.value.height - 1, if stale.value.prev == NO_HASH then None else Some(stale.value.prev))
    else at
  }

  function Latest(cfg: Config, node: Node): int {
    |node.chain| - 1 - cfg.confirmations
  }

  /** Rewinds, and ends the pass at once if nothing is left to parse. */
  function Enter(cfg: Config, node: Node, stale: Option<IndexRow>, p: Prep): Prep
    requires p.Ready?
  {
    var from := Rewind(p.at, stale);
    if from.height >= Latest(cfg, node) then
      Halt(p.acts + SavePointer(from) + FlushFlags(p.flags), p.flags.(dirty := false), CaughtUp, from)
    else if from.hash.Some? && !node.ok(CurrentHeader) then
      Halt(p.acts, p.flags, Aborted, from)
    else
      p.(at := from)
  }

  function Prefix(acts: seq<Action>, p: Prep): Prep {
    p.(acts := acts + p.acts)
  }

  ghost function Prepare(cfg: Config, node: Node, picks: Picks, d: DiskState, flags: Flags): Prep {
    var latest := Latest(cfg, node);
    if !node.ok(BlockCount) then Halt([], flags, Aborted, CursorAt(d.current))
    else if latest < 0 then Halt([], flags, CaughtUp, CursorAt(d.current))
    else if !node.ok(LatestHash) then Halt([], flags, Aborted, CursorAt(d.current))
    else
      var found := Locate(d, picks.top);
      var begun := [LatestReplace(Pointer(latest, node.chain[latest].hash))] + found.acts;
      var p := Reconcile(cfg, node, LoadIndex(DoAll(d, begun).index), flags, found.pointer);
      Prefix(begun, if p.Halt? then p else Enter(cfg, node, picks.stale, p))
  }

  ghost predicate ValidPicks(picks: Picks, d: DiskState) {
    && (d.current.None? && FoundRows(d.parts.blocks) != [] ==> IsTop(FoundRows(d.parts.blocks), picks.top))
    && IsEarliestStale(LoadIndex(DoAll(d, Locate(d, picks.top).acts).index), picks.stale)
  }

  // --- The loop ------------------------------------------------------------

  /** How the loop ends: all heights done, stop flag, a block that does not
      build on the last one, or a failed fetch. */
  datatype Ending = Done | Stopped | Mismatch | Failed

  datatype Visits = Visits(blocks: seq<Block>, ending: Ending)

  /** The blocks the loop processes from height `h` on.  The stop flag is seen
      from height `stopAt` on; heights up to `parallelEnd` come from the
      prefetcher, which is where the link to the last block is checked. */
  function VisitsFrom(node: Node, stopAt: nat, parallelEnd: int, latest: int, h: nat, last: Option<Hash>): Visits
    decreases latest + 1 - h
  {
    if h > latest then Visits([], Done)
    else if h >= stopAt then Visits([], Stopped)
    else if !node.ok(Fetch(h)) then Visits([], Failed)
    else
      var b := node.served(h);
      if h <= parallelEnd && last.Some? && b.prev != last.value then Visits([], Mismatch)
      else
        var rest := VisitsFrom(node, stopAt, parallelEnd, latest, h + 1, Some(b.hash));
        Visits([b] + rest.blocks, rest.ending)
  }

  /** A block staged for the next drain with its time_since_prev_block_sec. */
  datatype Staged = Staged(block: Block, sincePrev: Option<int>)

  function RowsFor(batch: seq<Staged>, k: Kind): seq<Row>
    decreases |batch|
  {
    if batch == [] then []
    else
      var n := |batch| - 1;
      RowsFor(batch[..n], k) + RowsOf(batch[n].block, batch[n].sincePrev, k)
  }

  function IndexRowOf(b: Block): IndexRow {
    IndexRow(b.height, b.hash, b.prev, CURRENT_SCHEMA)
  }

  function IndexRows(batch: seq<Staged>): (rows: seq<IndexRow>)
    ensures |rows| == |batch|
    ensures forall i :: 0 <= i < |batch| ==> rows[i] == IndexRowOf(batch[i].block)
  {
    seq(|batch|, i requires 0 <= i < |batch| => IndexRowOf(batch[i].block))
  }

  ghost function DrainActs(cfg: Config, mode: PF.Mode, d: DiskState, batch: seq<Staged>, k: Kind): seq<Action> {
    var f := d.parts.At(k);
    Tag(k, PF.WriteActions(cfg.parts, f, PF.Load(f), mode, RowsFor(batch, k)))
  }

  const KINDS: seq<Kind> := [Blocks, Transactions, Inputs, Outputs]

  ghost function DrainKinds(cfg: Config, mode: PF.Mode, d: DiskState, batch: seq<Staged>, kinds: seq<Kind>): seq<Action>
    decreases |kinds|
  {
    if kinds == [] then []
    else
      var n := |kinds| - 1;
      DrainKinds(cfg, mode, d, batch, kinds[..n]) + DrainActs(cfg, mode, d, batch, kinds[n])
  }

  /** The four logical CSVs are drained one after the other. */
  ghost function Drain(cfg: Config, mode: PF.Mode, d: DiskState, batch: seq<Staged>): seq<Action> {
    DrainKinds(cfg, mode, d, batch, KINDS)
  }

  /** What every logical CSV's drain keeps holds after the whole drain. */
  lemma {:induction false} DrainInduction(cfg: Config, mode: PF.Mode, d: DiskState, batch: seq<Staged>,
                                          kinds: seq<Kind>, Inv: (seq<Kind>, seq<Action>) -> bool)
    requires Inv([], [])
    requires forall i, acts :: 0 <= i < |kinds| && Inv(kinds[..i], acts) ==>
                Inv(kinds[..i + 1], acts + DrainActs(cfg, mode, d, batch, kinds[i]))
    ensures Inv(kinds, DrainKinds(cfg, mode, d, batch, kinds))
    decreases |kinds|
  {
    if kinds != [] {
      var n := |kinds| - 1;
      forall i, acts | 0 <= i < n && Inv(kinds[..n][..i], acts)
        ensures Inv(kinds[..n][..i + 1], acts + DrainActs(cfg, mode, d, batch, kinds[..n][i]))
      {
        assert kinds[..n][..i] == kinds[..i] && kinds[..n][..i + 1] == kinds[..i + 1];
      }
      DrainInduction(cfg, mode, d, batch, kinds[..n], Inv);
      assert kinds[..n + 1] == kinds;
    }
  }

  function FlushIndex(batch: seq<Staged>): seq<Action> {
    if batch == [] then [] else [IndexAppend(IndexRows(batch))]
  }

  /** The loop state: the disk, the actions so far, the in-memory flags, the
      blocks staged since the last drain, and the position. */
  datatype Walk = Walk(
    d: DiskState,
    acts: seq<Action>,
    flags: Flags,
    batch: seq<Staged>,
    at: Cursor,
    prevTime: Option<int>,
    processed: nat)

  /** What one checkpoint does, in this order: drain, index, flags, pointer. */
  ghost function CheckpointActs(cfg: Config, mode: PF.Mode, w: Walk): seq<Action> {
    Drain(cfg, mode, w.d, w.batch) + FlushIndex(w.batch) + FlushFlags(w.flags) + SavePointer(w.at)
  }

  ghost function Checkpoint(cfg: Config, mode: PF.Mode, w: Walk): Walk {
    var acts := CheckpointActs(cfg, mode, w);
    w.(d := DoAll(w.d, acts), acts := w.acts + acts, flags := w.flags.(dirty := false), batch := [])
  }

  /** Stages the block unless its hash is indexed, and confirms it canonical. */
  function Visit(w: Walk, b: Block): Walk {
    var gap := if w.prevTime.Some? then Some(b.time - w.prevTime.value) else None;
    w.(flags := SetCanonicalIfPresent(w.flags, b.height, b.hash, true),
       batch := if NeedsExport(LoadIndex(w.d.index), IndexRows(w.batch), b.hash)
                then w.batch + [Staged(b, gap)] else w.batch,
       at := Cursor(b.height, Some(b.hash)),
       prevTime := Some(b.time),
       processed := w.processed + 1)
  }

  predicate CheckpointDue(cfg: Config, mode: PF.Mode, processed: nat) {
    mode.Atomic? || processed % cfg.batchSize == 0
  }

  ghost function VisitAndCheckpoint(cfg: Config, mode: PF.Mode, w: Walk, b: Block): Walk {
    var v := Visit(w, b);
    if CheckpointDue(cfg, mode, v.processed) then Checkpoint(cfg, mode, v) else v
  }

  ghost function Fold(step: (Walk, Block) -> Walk, w: Walk, blocks: seq<Block>): Walk
    decreases |blocks|
  {
    if blocks == [] then w
    else
      var n := |blocks| - 1;
      step(Fold(step, w, blocks[..n]), blocks[n])
  }

  ghost function VisitAll(cfg: Config, mode: PF.Mode, w: Walk, blocks: seq<Block>): Walk {
    Fold((v, b) => VisitAndCheckpoint(cfg, mode, v, b), w, blocks)
  }

  /** What every step keeps holds after the loop.  The blocks are the `n` blocks
      of the chain that follow the position. */
  lemma {:induction false} FoldInduction(step: (Walk, Block) -> Walk, chain: seq<Block>, w: Walk, n: nat,
                                         Inv: Walk -> bool)
    requires Inv(w) && w.at.height + 1 + n <= |chain|
    requires forall v: Walk, b: Block {:trigger step(v, b)} ::
      Inv(v) && w.at.height <= v.at.height && v.at.height + 1 < |chain| && b == chain[v.at.height + 1] ==>
      Inv(step(v, b)) && step(v, b).at.height == v.at.height + 1
    ensures var v := Fold(step, w, chain[w.at.height + 1..w.at.height + 1 + n]);
            Inv(v) && v.at.height == w.at.height + n
  {
    var from := w.at.height + 1;
    var blocks := chain[from..from + n];
    if n > 0 {
      FoldInduction(step, chain, w, n - 1, Inv);
      assert blocks[..n - 1] == chain[from..from + n - 1];
    }
  }

  // --- The pass ------------------------------------------------------------

  function ModeFor(cfg: Config, at: Cursor, latest: int): PF.Mode {
    if latest - at.height <= Max(cfg.confirmations, 1) then PF.Atomic else PF.Batched
  }

  const PREFETCH_PER_WORKER: nat := 4

  /** The last height that comes from the prefetcher; -1 if there is none. */
  function ParallelEnd(cfg: Config, node: Node, workers: nat, at: Cursor, latest: int): int {
    var end := Min(latest, |node.chain| - 1 - cfg.maxReorgDepth);
    if workers > 1 && ModeFor(cfg, at, latest).Batched? && end - at.height > PREFETCH_PER_WORKER * workers
    then end else -1
  }

  datatype PassResult = PassResult(acts: seq<Action>, flags: Flags, outcome: Outcome, reached: Cursor)

  ghost function StartWalk(node: Node, d: DiskState, p: Prep): Walk
    requires p.Ready?
  {
    Walk(DoAll(d, p.acts), p.acts, p.flags, [], p.at,
         if p.at.hash.Some? then Some(node.timeOf(p.at.hash.value)) else None, 0)
  }

  ghost function FinishWalk(cfg: Config, mode: PF.Mode, w: Walk, ending: Ending, latest: int): PassResult {
    if ending.Failed? then PassResult(w.acts, w.flags, Aborted, w.at)
    else
      var last := Checkpoint(cfg, mode, w);
      PassResult(last.acts, last.flags, if w.at.height >= latest then CaughtUp else Again, w.at)
  }

  ghost function RunLoop(cfg: Config, node: Node, workers: nat, stopAt: nat, d: DiskState, p: Prep): PassResult
    requires p.Ready?
  {
    var latest := Latest(cfg, node);
    var mode := ModeFor(cfg, p.at, latest);
    var visits := VisitsFrom(node, stopAt, ParallelEnd(cfg, node, workers, p.at, latest), latest, p.at.height + 1,
                             p.at.hash);
    FinishWalk(cfg, mode, VisitAll(cfg, mode, StartWalk(node, d, p), visits.blocks), visits.ending, latest)
  }

  ghost function RunPass(cfg: Config, node: Node, workers: nat, stopAt: nat, picks: Picks, d: DiskState,
                         flags: Flags): PassResult {
    match Prepare(cfg, node, picks, d, flags)
    case Halt(acts, flags', outcome, at) => PassResult(acts, flags', outcome, at)
    case Ready(acts, flags', at) => RunLoop(cfg, node, workers, stopAt, d, Ready(acts, flags', at))
  }
}
