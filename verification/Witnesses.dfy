/** Concrete runs from nothing that reach what the exact conditions exclude:
    canonical flags that are wrong, a stale block of a detached branch, part
    numbers used twice, and a price added twice. */
module Witnesses {
  import opened Basics
  import opened Chain
  import opened IndexFile
  import opened DiskModel
  import opened Pass
  import opened CrashSafety
  import opened Runs
  import opened Progress
  import opened ExactlyOnce
  import opened CanonicalFlags
  import opened IngestFacts
  import SB = SchemaBackfill
  import PF = PartFiles
  import PR = PartRuns
  import BF = Backfill

  // --- The two branches ------------------------------------------------------

  const GENESIS := Block(0, "0", NO_HASH, 0, 0, 0, 0)
  const BLOCK_A := Block(1, "1a", "0", 600, 0, 0, 0)
  const BLOCK_B := Block(1, "1b", "0", 610, 0, 0, 0)

  const BRANCH_A: seq<Block> := [GENESIS, BLOCK_A]
  const BRANCH_B: seq<Block> := [GENESIS, BLOCK_B]

  const TREE: Tree := map["0" := GENESIS, "1a" := BLOCK_A, "1b" := BLOCK_B]

  const CONFIG: Config := Config(10, 0, 5, PF.PartConfig(1000, rows => |rows|))

  /** A node that serves `chain` and fails to fetch the blocks from `broken` on. */
  function Serving(chain: seq<Block>, broken: nat): Node {
    Node(chain,
         (c: Call) => c.Fetch? ==> c.height < |chain| && c.height < broken,
         (h: nat) => if h < |chain| then chain[h] else GENESIS,
         x => if x in TREE then TREE[x].time else 0)
  }

  lemma Hashes()
    ensures "0" != "1a" && "0" != "1b" && "1a" != "1b"
    ensures NO_HASH != "0" && NO_HASH != "1a" && NO_HASH != "1b"
  {
    assert |"0"| == 1 && |"1a"| == 2 && |"1b"| == 2 && |NO_HASH| == 0;
    assert "1a"[1] == 'a' && "1b"[1] == 'b';
  }

  lemma TheTree()
    ensures WellFormedTree(TREE)
    ensures TREE["0"] == GENESIS && TREE["1a"] == BLOCK_A && TREE["1b"] == BLOCK_B
    ensures ActiveChain(TREE, BRANCH_A) && ActiveChain(TREE, BRANCH_B)
  {
    Hashes();
    assert TREE["0"] == GENESIS && TREE["1a"] == BLOCK_A && TREE["1b"] == BLOCK_B;
    forall i | 0 <= i < 2
      ensures InTree(TREE, BRANCH_A[i]) && BRANCH_A[i].height == i
      ensures InTree(TREE, BRANCH_B[i]) && BRANCH_B[i].height == i
    {
      assert i == 0 || i == 1;
    }
  }

  lemma TheNode(chain: seq<Block>, broken: nat)
    requires chain == BRANCH_A || chain == BRANCH_B
    ensures Stable(TREE, Serving(chain, broken))
    ensures Serving(chain, broken).chain == chain
    ensures Begun(CONFIG, Serving(chain, broken)) && Latest(CONFIG, Serving(chain, broken)) == 1
    ensures broken >= 2 ==> AnswersRest(Serving(chain, broken))
  {
    TheTree();
  }

  // --- Events ------------------------------------------------------------------

  const NOTHING_EATEN: Quad<set<nat>> := Quad({}, {}, {}, {})

  /** A pass with one worker that is never told to stop, and, with a `cut`, is
      killed. */
  ghost function EventOf(p: Process, node: Node, picks: Picks, cut: Option<nat>): PassEvent {
    var acts := RunPass(CONFIG, node, 1, 10, picks, p.d, p.flags).acts;
    var n := if cut.Some? && cut.value <= |acts| then cut.value else |acts|;
    PassEvent(node, 1, 10, picks, cut, seq(n + 1, i => NOTHING_EATEN))
  }

  lemma EventIsValid(p: Process, chain: seq<Block>, broken: nat, picks: Picks, cut: Option<nat>)
    requires (chain == BRANCH_A || chain == BRANCH_B) && ValidPicks(picks, p.d)
    requires cut.Some? ==> SafeKill(RunPass(CONFIG, Serving(chain, broken), 1, 10, picks, p.d, p.flags).acts, cut.value)
    ensures ValidEvent(TREE, CONFIG, p, EventOf(p, Serving(chain, broken), picks, cut))
  {
    hide RunPass, ValidPicks;
    TheNode(chain, broken);
  }

  // --- Wrong flags ---------------------------------------------------------------

  ghost predicate Good(p: Process) {
    WellFormedTree(TREE) && Sound(TREE, p.d) && SomeExact(TREE, p.d)
  }

  /** A pass on a branch that has the stored position, or with none stored,
      completes and stores the tip. */
  lemma CompletePass(p: Process, chain: seq<Block>, picks: Picks)
    requires (chain == BRANCH_A || chain == BRANCH_B) && ValidPicks(picks, p.d)
    requires Good(p) && Saved(p.d, p.flags)
    requires p.d.current == None || p.d.current == Some(Pointer(1, chain[1].hash))
    ensures var e := EventOf(p, Serving(chain, 2), picks, None);
            && ValidEvent(TREE, CONFIG, p, e)
            && Completed(Result(CONFIG, p, e))
            && Good(Step(TREE, CONFIG, p, e))
            && Step(TREE, CONFIG, p, e).d.current == Some(Pointer(1, chain[1].hash))
  {
    hide RunPass, ForkOf, Position, Sound, Exact, ValidPicks, Reconciles, PassFlags, Reconcile, Stable, WellFormedTree,
      Serving;
    var node := Serving(chain, 2);
    var e := EventOf(p, node, picks, None);
    TheNode(chain, 2);
    EventIsValid(p, chain, 2, picks, None);
    var exported :| Exact(TREE, p.d, exported);
    NoRecovery(p, chain, picks, exported);
    ExactPosition(TREE, CONFIG, node, picks, p.d, p.flags, exported);
    CompletedReaches(TREE, CONFIG, node, 1, 10, picks, p.d, p.flags);
    StoresTip(p, chain, picks);
    LastStep(TREE, p, e);
    StepKeepsSound(TREE, CONFIG, p, e);
    StepIsExact(TREE, CONFIG, p, e);
  }

  lemma NoRecovery(p: Process, chain: seq<Block>, picks: Picks, exported: seq<Staged>)
    requires chain == BRANCH_A || chain == BRANCH_B
    requires Exact(TREE, p.d, exported) && ValidPicks(picks, p.d)
    requires p.d.current == None || p.d.current == Some(Pointer(1, chain[1].hash))
    ensures Reconciles(CONFIG, Serving(chain, 2), picks, p.d, p.flags)
    ensures ForkOf(CONFIG, Serving(chain, 2), p.d, p.flags) == CursorAt(p.d.current)
  {
    hide Exact, ValidPicks, Recover;
    NothingToSeed(TREE, p.d, picks, exported);
  }

  lemma StoresTip(p: Process, chain: seq<Block>, picks: Picks)
    requires (chain == BRANCH_A || chain == BRANCH_B) && ValidPicks(picks, p.d)
    requires Good(p) && Saved(p.d, p.flags)
    requires var r := RunPass(CONFIG, Serving(chain, 2), 1, 10, picks, p.d, p.flags);
             Completed(r) && r.reached.height == 1
    ensures DoAll(p.d, RunPass(CONFIG, Serving(chain, 2), 1, 10, picks, p.d, p.flags).acts).current
            == Some(Pointer(1, chain[1].hash))
  {
    hide RunPass, ForkOf, SomeExact, ValidPicks, Stable, Sound, OnChain, PassFlags, DoAll, Serving, WellFormedTree;
    var node := Serving(chain, 2);
    TheNode(chain, 2);
    PassFlagsHold(TREE, CONFIG, node, 1, 10, picks, p.d, p.flags);
    CompletedFork(TREE, CONFIG, node, 1, 10, picks, p.d, p.flags);
    CompletedPosition(TREE, chain, p.d, p.flags.entries, ForkOf(CONFIG, node, p.d, p.flags),
                      RunPass(CONFIG, node, 1, 10, picks, p.d, p.flags));
  }

  /** From a position on branch A, a node on branch B that fails to fetch 1b: the
      pass recovers to the genesis block and is cut short there. */
  lemma AbortedPass(p: Process, picks: Picks)
    requires Good(p) && ValidPicks(picks, p.d) && p.d.current == Some(Pointer(1, "1a"))
    ensures var e := EventOf(p, Serving(BRANCH_B, 1), picks, None);
            var r := Result(CONFIG, p, e);
            && ValidEvent(TREE, CONFIG, p, e)
            && r.outcome.Aborted? && r.reached == Cursor(0, Some("0"))
            && Step(TREE, CONFIG, p, e).d.current == p.d.current
  {
    hide Sound, Exact, ValidPicks, RunPass, Stable, WellFormedTree;
    var node := Serving(BRANCH_B, 1);
    TheNode(BRANCH_B, 1);
    EventIsValid(p, BRANCH_B, 1, picks, None);
    var exported :| Exact(TREE, p.d, exported);
    AbortsAtGenesis(p, picks, exported);
    var e := EventOf(p, node, picks, None);
    WovenReduces(p.d, Result(CONFIG, p, e).acts, e.eats);
    CurrentReduced(DoWoven(p.d, Result(CONFIG, p, e).acts, e.eats), DoAll(p.d, Result(CONFIG, p, e).acts));
  }

  lemma RowOfA(idx: ByHash)
    requires IndexClosed(TREE, idx) && "1a" in idx
    ensures idx["1a"].prev == "0"
  {
    TheTree();
  }

  /** Branch B leaves branch A at the genesis block. */
  lemma RecoversToGenesis(idx: ByHash, flags: Flags, node: Node)
    requires IndexClosed(TREE, idx) && "1a" in idx && node.chain == BRANCH_B
    requires forall c: Call :: !c.Fetch? ==> node.ok(c)
    ensures var p := Reconcile(CONFIG, node, idx, flags, Some(Pointer(1, "1a")));
            p.Ready? && AllHarmless(p.acts) && p.at == Cursor(0, Some("0"))
  {
    hide FlagDetached, IndexClosed, WellFormedTree;
    TheTree();
    Hashes();
    RowOfA(idx);
    var at := Pointer(1, "1a");
    assert WalkBackFrom(idx, node, CONFIG.maxReorgDepth, at, []) == Ancestor(Pointer(0, "0"), [at]) by {
      assert [] + [at] == [at];
    }
  }

  lemma IndexedPosition(d: DiskState)
    requires Sound(TREE, d) && d.current.Some?
    ensures IndexClosed(TREE, LoadIndex(d.index)) && d.current.value.hash in LoadIndex(d.index)
  {
  }

  lemma AbortsAtGenesis(p: Process, picks: Picks, exported: seq<Staged>)
    requires WellFormedTree(TREE) && Sound(TREE, p.d) && Exact(TREE, p.d, exported) && ValidPicks(picks, p.d)
    requires p.d.current == Some(Pointer(1, "1a"))
    ensures var r := RunPass(CONFIG, Serving(BRANCH_B, 1), 1, 10, picks, p.d, p.flags);
            r.outcome.Aborted? && r.reached == Cursor(0, Some("0")) && DoAll(p.d, r.acts).current == p.d.current
  {
    hide Reconcile, Sound, Exact, ValidPicks, DoAll, LoadIndex, IndexClosed, WellFormedTree;
    IndexedPosition(p.d);
    var node := Serving(BRANCH_B, 1);
    NothingToSeed(TREE, p.d, picks, exported);
    var a := LatestReplace(Pointer(1, node.chain[1].hash));
    DoOne(p.d, a);
    assert [a] + [] == [a];
    RecoversToGenesis(LoadIndex(p.d.index), p.flags, node);
    var q := Reconcile(CONFIG, node, LoadIndex(p.d.index), p.flags, p.d.current);
    HarmlessLeaves(p.d, [a] + q.acts);
    var prep := Ready([a] + q.acts, q.flags, q.at);
    assert Prepare(CONFIG, node, picks, p.d, p.flags) == prep;
    assert VisitsFrom(node, 10, -1, 1, 1, q.at.hash) == Visits([], Failed);
    var w := StartWalk(node, p.d, prep);
    assert VisitAll(CONFIG, ModeFor(CONFIG, q.at, 1), w, []) == w;
  }

  /** Three passes from nothing: one on branch A, one on branch B that the node
      cuts short after the recovery, one on branch A again that completes.
      Block 1a is then the stored position and flagged non-canonical. */
  lemma FlipBackRun() returns (events: seq<PassEvent>)
    ensures WellFormedTree(TREE) && ValidRun(TREE, CONFIG, FRESH, events)
    ensures |events| == 3 && events[0].node == Serving(BRANCH_A, 2)
    ensures events[1].node == Serving(BRANCH_B, 1) && events[2].node == Serving(BRANCH_A, 2)
    ensures NoKills(events)
    ensures var d := Run(TREE, CONFIG, FRESH, events).d;
            && d.current == Some(Pointer(1, "1a")) && "1a" in LoadIndex(d.index)
            && !Canonical(d.status, 1, "1a")
  {
    hide RunPass, Sound, SomeExact, ValidPicks, ValidEvent, Step, Stable, WellFormedTree, Serving, FlagsStand,
      AncestorOrSelf;
    TheTree();
    TheNode(BRANCH_A, 2);
    TheNode(BRANCH_B, 1);
    EmptyIsSound(TREE);
    EmptyIsExact(TREE);
    FreshTracks();
    var picks := PicksExist(FRESH.d);
    CompletePass(FRESH, BRANCH_A, picks);
    var e1 := EventOf(FRESH, Serving(BRANCH_A, 2), picks, None);
    StepTracks(TREE, CONFIG, FRESH, e1);
    var p1 := Step(TREE, CONFIG, FRESH, e1);
    picks := PicksExist(p1.d);
    AbortedPass(p1, picks);
    var e2 := EventOf(p1, Serving(BRANCH_B, 1), picks, None);
    StepKeepsSound(TREE, CONFIG, p1, e2);
    StepIsExact(TREE, CONFIG, p1, e2);
    var p2 := Step(TREE, CONFIG, p1, e2);
    picks := PicksExist(p2.d);
    AbortSaves(p1, e2);
    CompletePass(p2, BRANCH_A, picks);
    var e3 := EventOf(p2, Serving(BRANCH_A, 2), picks, None);
    GenesisBelow();
    assert AbortThenComplete(TREE, CONFIG, p1, e2, e3);
    FlipBackLosesFlags(TREE, CONFIG, p1, e2, e3);
    LastStep(TREE, p2, e3);
    events := [e1, e2, e3];
    ThreeSteps(TREE, FRESH, e1, e2, e3);
  }

  lemma FreshTracks()
    requires WellFormedTree(TREE)
    ensures Tracks(TREE, FRESH)
  {
  }

  lemma GenesisBelow()
    requires WellFormedTree(TREE)
    ensures AncestorOrSelf(TREE, "0", "1a") && "0" != "1a"
  {
    TheTree();
    Hashes();
    assert AncestorOrSelf(TREE, "0", "0");
  }

  /** A pass that is not killed leaves the disk its actions lead to, but for the
      parts the consumer took. */
  lemma LastStep(t: Tree, p: Process, e: PassEvent)
    requires ValidEvent(t, CONFIG, p, e) && e.cut == None
    ensures var d, f := Step(t, CONFIG, p, e).d, DoAll(p.d, Result(CONFIG, p, e).acts);
            d.index == f.index && d.status == f.status && d.current == f.current
  {
    hide RunPass;
    WovenReduces(p.d, Performed(CONFIG, p, e), e.eats);
  }

  lemma AbortSaves(p: Process, e: PassEvent)
    requires WellFormedTree(TREE) && Good(p) && Tracks(TREE, p) && ValidEvent(TREE, CONFIG, p, e) && e.cut == None
    requires Result(CONFIG, p, e).outcome.Aborted?
    ensures Saved(Step(TREE, CONFIG, p, e).d, Step(TREE, CONFIG, p, e).flags)
  {
    hide RunPass, FlagsStand, Sound, SomeExact;
    PassStands(TREE, CONFIG, e.node, e.workers, e.stopAt, e.picks, p.d, p.flags);
    LastStep(TREE, p, e);
  }

  lemma ThreeSteps(t: Tree, p: Process, e1: PassEvent, e2: PassEvent, e3: PassEvent)
    requires ValidEvent(t, CONFIG, p, e1)
    requires ValidEvent(t, CONFIG, Step(t, CONFIG, p, e1), e2)
    requires ValidEvent(t, CONFIG, Step(t, CONFIG, Step(t, CONFIG, p, e1), e2), e3)
    ensures ValidRun(t, CONFIG, p, [e1, e2, e3])
    ensures Run(t, CONFIG, p, [e1, e2, e3]) == Step(t, CONFIG, Step(t, CONFIG, Step(t, CONFIG, p, e1), e2), e3)
  {
    hide ValidEvent, Step;
    var p1 := Step(t, CONFIG, p, e1);
    var p2 := Step(t, CONFIG, p1, e2);
    assert [e1, e2, e3][1..] == [e2, e3] && [e2, e3][1..] == [e3] && [e3][1..] == [];
    assert ValidRun(t, CONFIG, p2, [e3]) && Run(t, CONFIG, p2, [e3]) == Step(t, CONFIG, p2, e3);
    assert ValidRun(t, CONFIG, p1, [e2, e3]) && Run(t, CONFIG, p1, [e2, e3]) == Step(t, CONFIG, p2, e3);
  }

  // --- A stale block of a detached branch ----------------------------------------

  /** The blocks rows of branch A. */
  const ROWS_A: seq<Row> := [Row("0", 0, NO_HASH, 0, None), Row("1a", 1, "0", 0, Some(600))]

  /** The disk after the kill: the blocks rows are there, nothing else is. */
  const KILLED_PARTS: PF.Files := PF.Files(map[1 := ROWS_A], map[], Some(PF.Counter(1, true)), [], ROWS_A)

  lemma {:induction false} NoRows(batch: seq<Staged>, k: Kind)
    requires forall i :: 0 <= i < |batch| ==> RowCount(batch[i].block, k) == 0
    ensures RowsFor(batch, k) == []
    decreases |batch|
  {
    if batch != [] {
      NoRows(batch[..|batch| - 1], k);
    }
  }

  lemma NothingToDrain(mode: PF.Mode, d: DiskState, batch: seq<Staged>, k: Kind)
    requires RowsFor(batch, k) == []
    ensures DrainActs(CONFIG, mode, d, batch, k) == []
  {
  }

  /** Blocks without transactions have only their own rows to drain. */
  lemma DrainsOnlyBlocks(mode: PF.Mode, d: DiskState, batch: seq<Staged>)
    requires forall i, k: Kind :: 0 <= i < |batch| && !k.Blocks? ==> RowCount(batch[i].block, k) == 0
    ensures Drain(CONFIG, mode, d, batch) == DrainActs(CONFIG, mode, d, batch, Blocks)
  {
    hide DrainActs, DrainKinds, RowsFor;
    forall k: Kind | !k.Blocks?
      ensures DrainActs(CONFIG, mode, d, batch, k) == []
    {
      NoRows(batch, k);
      NothingToDrain(mode, d, batch, k);
    }
    OneMoreKind(mode, d, batch, [], Blocks);
    OneMoreKind(mode, d, batch, [Blocks], Transactions);
    OneMoreKind(mode, d, batch, [Blocks, Transactions], Inputs);
    OneMoreKind(mode, d, batch, [Blocks, Transactions, Inputs], Outputs);
    assert [] + [Blocks] == [Blocks] && [Blocks] + [Transactions] == [Blocks, Transactions];
    assert [Blocks, Transactions] + [Inputs] == [Blocks, Transactions, Inputs];
    assert [Blocks, Transactions, Inputs] + [Outputs] == KINDS;
  }

  lemma OneMoreKind(mode: PF.Mode, d: DiskState, batch: seq<Staged>, kinds: seq<Kind>, k: Kind)
    ensures DrainKinds(CONFIG, mode, d, batch, []) == []
    ensures DrainKinds(CONFIG, mode, d, batch, kinds + [k])
            == DrainKinds(CONFIG, mode, d, batch, kinds) + DrainActs(CONFIG, mode, d, batch, k)
  {
    hide DrainActs;
    assert (kinds + [k])[..|kinds|] == kinds;
  }

  /** The two blocks staged by the pass from nothing. */
  const BATCH_A: seq<Staged> := [Staged(GENESIS, None), Staged(BLOCK_A, Some(600))]

  lemma RowsOfBatch()
    ensures RowsFor(BATCH_A, Blocks) == ROWS_A
  {
    assert BATCH_A[..1] == [Staged(GENESIS, None)] && BATCH_A[..1][..0] == [];
    assert RowsFor(BATCH_A[..1], Blocks) == [] + RowsOf(GENESIS, None, Blocks);
    assert RowsOf(GENESIS, None, Blocks) == [ROWS_A[0]] && RowsOf(BLOCK_A, Some(600), Blocks) == [ROWS_A[1]];
  }

  /** The drain of the blocks rows: a new part and its counter. */
  lemma FirstDrain(d: DiskState)
    requires d.parts == EMPTY_DISK.parts
    ensures DrainActs(CONFIG, PF.Batched, d, BATCH_A, Blocks)
         == [OnPart(Blocks, PF.Append(1, ROWS_A)), OnPart(Blocks, PF.Persist(PF.Counter(1, true)))]
  {
    RowsOfBatch();
    PR.EmptyIsConsistent();
    var acts := PF.WriteActions(CONFIG.parts, PF.EMPTY_FILES, PF.Counter(0, false), PF.Batched, ROWS_A);
    assert acts == [PF.Append(1, ROWS_A), PF.Persist(PF.Counter(1, true))];
  }

  ghost function AfterGenesis(w: Walk): Walk {
    w.(batch := [Staged(GENESIS, None)], at := Cursor(0, Some("0")), prevTime := Some(0), processed := 1)
  }

  lemma VisitsGenesis(w: Walk)
    requires w == Walk(w.d, w.acts, Flags(map[], false), [], NOWHERE, None, 0) && w.d.index == []
    ensures VisitAndCheckpoint(CONFIG, PF.Batched, w, GENESIS) == AfterGenesis(w)
  {
    hide Checkpoint;
    assert [] + [Staged(GENESIS, None)] == [Staged(GENESIS, None)];
  }

  lemma VisitsA(w: Walk)
    requires w.flags == Flags(map[], false) && w.d.index == []
    ensures var v := VisitAndCheckpoint(CONFIG, PF.Batched, AfterGenesis(w), BLOCK_A);
            v.d == w.d && v.acts == w.acts && v.batch == BATCH_A
  {
    hide Checkpoint, NeedsExport, LoadIndex;
    NotYet(AfterGenesis(w));
    assert [Staged(GENESIS, None)] + [Staged(BLOCK_A, Some(600))] == BATCH_A;
  }

  lemma VisitsBoth(w: Walk)
    requires w == Walk(w.d, w.acts, Flags(map[], false), [], NOWHERE, None, 0) && w.d.index == []
    ensures var v := VisitAll(CONFIG, PF.Batched, w, BRANCH_A);
            v.d == w.d && v.acts == w.acts && v.batch == BATCH_A
  {
    hide VisitAll, VisitAndCheckpoint;
    VisitsGenesis(w);
    VisitsA(w);
    VisitNothing(CONFIG, PF.Batched, w);
    VisitOneMore(CONFIG, PF.Batched, w, [], GENESIS);
    VisitOneMore(CONFIG, PF.Batched, w, [GENESIS], BLOCK_A);
    assert [] + [GENESIS] == [GENESIS] && [GENESIS] + [BLOCK_A] == BRANCH_A;
  }

  lemma NotYet(v: Walk)
    requires v.batch == [Staged(GENESIS, None)] && v.d.index == []
    ensures NeedsExport(LoadIndex(v.d.index), IndexRows(v.batch), "1a")
  {
    Hashes();
    assert IndexRows(v.batch)[0].hash == "0";
    assert !HasStaged(IndexRows(v.batch), "1a");
  }

  /** The pass from nothing on branch A begins with the pointer to its target,
      the drain of the blocks rows and the index rows. */
  lemma FirstPassStarts(picks: Picks)
    ensures var acts := RunPass(CONFIG, Serving(BRANCH_A, 2), 1, 10, picks, EMPTY_DISK, Flags(map[], false)).acts;
            [LatestReplace(Pointer(1, "1a")), OnPart(Blocks, PF.Append(1, ROWS_A)),
             OnPart(Blocks, PF.Persist(PF.Counter(1, true))),
             IndexAppend(IndexRows(BATCH_A))] <= acts
  {
    hide DrainKinds, DoAll, Fold, NeedsExport;
    var node, flags := Serving(BRANCH_A, 2), Flags(map[], false);
    var latest := LatestReplace(Pointer(1, "1a"));
    var d := EMPTY_DISK;
    NothingLocated(picks.top);
    assert [latest] + [] == [latest];
    OneLatest(latest);
    var prep := Ready([latest], flags, NOWHERE);
    assert Prepare(CONFIG, node, picks, d, flags) == prep;
    assert VisitsFrom(node, 10, -1, 1, 2, Some("1a")) == Visits([], Done);
    assert VisitsFrom(node, 10, -1, 1, 1, Some("0")) == Visits([BLOCK_A], Done);
    assert VisitsFrom(node, 10, -1, 1, 0, None) == Visits([GENESIS] + [BLOCK_A], Done);
    assert [GENESIS] + [BLOCK_A] == BRANCH_A;
    var w := StartWalk(node, d, prep);
    VisitsBoth(w);
    var v := VisitAll(CONFIG, PF.Batched, w, BRANCH_A);
    FirstDrain(v.d);
    DrainsOnlyBlocks(PF.Batched, v.d, BATCH_A);
    assert CheckpointActs(CONFIG, PF.Batched, v)
           == Drain(CONFIG, PF.Batched, v.d, BATCH_A) + FlushIndex(BATCH_A) + FlushFlags(v.flags) + SavePointer(v.at);
    assert RunPass(CONFIG, node, 1, 10, picks, d, flags).acts == v.acts + CheckpointActs(CONFIG, PF.Batched, v);
  }

  lemma NothingLocated(top: Row)
    ensures Locate(EMPTY_DISK, top) == Located([], None)
  {
    assert PF.EMPTY_FILES.open.Keys + PF.EMPTY_FILES.exported.Keys == {};
  }

  lemma OneLatest(a: Action)
    requires a.LatestReplace?
    ensures DoAll(EMPTY_DISK, [a]) == EMPTY_DISK.(latest := Some(a.pointer))
  {
    DoOne(EMPTY_DISK, a);
  }

  lemma KilledDisk()
    ensures var acts := [LatestReplace(Pointer(1, "1a")), OnPart(Blocks, PF.Append(1, ROWS_A)),
                         OnPart(Blocks, PF.Persist(PF.Counter(1, true)))];
            DoAll(EMPTY_DISK, acts)
            == EMPTY_DISK.(latest := Some(Pointer(1, "1a")), parts := EMPTY_DISK.parts.(blocks := KILLED_PARTS))
  {
    var a, b := LatestReplace(Pointer(1, "1a")), OnPart(Blocks, PF.Append(1, ROWS_A));
    var c := OnPart(Blocks, PF.Persist(PF.Counter(1, true)));
    assert [a, b, c][..2] == [a, b] && [a, b][..1] == [a] && [a][..0] == [];
    assert [] + ROWS_A == ROWS_A;
    assert DoAll(EMPTY_DISK, [a]) == Do(EMPTY_DISK, a);
    assert DoAll(EMPTY_DISK, [a, b]) == Do(Do(EMPTY_DISK, a), b);
    assert DoAll(EMPTY_DISK, [a, b, c]) == Do(Do(Do(EMPTY_DISK, a), b), c);
  }

  ghost function KilledAt(): DiskState {
    EMPTY_DISK.(latest := Some(Pointer(1, "1a")), parts := EMPTY_DISK.parts.(blocks := KILLED_PARTS))
  }

  /** The pass from nothing on branch A, killed after the blocks rows. */
  lemma KilledPass(picks: Picks)
    requires ValidPicks(picks, EMPTY_DISK)
    ensures var e := EventOf(FRESH, Serving(BRANCH_A, 2), picks, Some(3));
            ValidEvent(TREE, CONFIG, FRESH, e) && Step(TREE, CONFIG, FRESH, e) == Restarted(KilledAt())
  {
    hide RunPass, ValidPicks, DoAll, DoWoven;
    FirstPassStarts(picks);
    KilledDisk();
    var acts := RunPass(CONFIG, Serving(BRANCH_A, 2), 1, 10, picks, EMPTY_DISK, Flags(map[], false)).acts;
    var e := EventOf(FRESH, Serving(BRANCH_A, 2), picks, Some(3));
    assert acts[2] == OnPart(Blocks, PF.Persist(PF.Counter(1, true)));
    EventIsValid(FRESH, BRANCH_A, 2, picks, Some(3));
    var d := DoWoven(EMPTY_DISK, acts[..3], e.eats);
    WovenReduces(EMPTY_DISK, acts[..3], e.eats);
    assert acts[..3] == [LatestReplace(Pointer(1, "1a")), OnPart(Blocks, PF.Append(1, ROWS_A)),
                         OnPart(Blocks, PF.Persist(PF.Counter(1, true)))];
    NothingToReduce(d, KilledAt());
  }

  lemma NothingToReduce(e: DiskState, d: DiskState)
    requires DiskReduced(e, d) && forall k :: d.parts.At(k).exported == map[]
    ensures e == d
  {
    assert PR.Reduced(e.parts.At(Blocks), d.parts.At(Blocks))
           && PR.Reduced(e.parts.At(Transactions), d.parts.At(Transactions));
    assert PR.Reduced(e.parts.At(Inputs), d.parts.At(Inputs)) && PR.Reduced(e.parts.At(Outputs), d.parts.At(Outputs));
    assert e.parts.blocks.exported == map[] && e.parts.transactions.exported == map[];
    assert e.parts.inputs.exported == map[] && e.parts.outputs.exported == map[];
  }

  lemma FoundAfterKill()
    ensures FoundRows(KilledAt().parts.blocks) == ROWS_A
  {
    var f := KilledAt().parts.blocks;
    assert f.open.Keys + f.exported.Keys == {1};
    assert RowsUpTo(f, 1) == RowsUpTo(f, 0) + FileAt(f, 1);
    assert [] + ROWS_A == ROWS_A;
  }

  /** Seeding indexes both blocks at the oldest schema and finds position 1a. */
  lemma SeededAfterKill(picks: Picks)
    requires WellFormedTree(TREE) && Sound(TREE, KilledAt()) && ValidPicks(picks, KilledAt())
    ensures var found := Locate(KilledAt(), picks.top);
            var idx := LoadIndex(DoAll(KilledAt(), found.acts).index);
            && found.pointer == Some(Pointer(1, "1a")) && IndexClosed(TREE, idx)
            && "0" in idx && idx["0"].version == 1 && "1a" in idx && idx["1a"].version == 1
            && StaleOnChain(BRANCH_B, picks.stale)
  {
    hide IndexClosed, DoAll, LoadIndex, FoundRows, Sound;
    var d := KilledAt();
    FoundAfterKill();
    assert picks.top == ROWS_A[1] by {
      assert ROWS_A[1] in ROWS_A && picks.top in ROWS_A;
    }
    var found := Locate(d, picks.top);
    SeededFacts(TREE, d, picks);
    SeededVersions(found.acts);
    var idx := LoadIndex(DoAll(d, found.acts).index);
    OldestIsLow(idx, picks.stale);
  }

  lemma SeededVersions(acts: seq<Action>)
    requires Sound(TREE, KilledAt()) && WellFormedTree(TREE)
    requires var pending := SeedPending(LoadIndex([]), [], ROWS_A);
             acts == if pending == [] then [] else [IndexAppend(pending)]
    ensures var idx := LoadIndex(DoAll(KilledAt(), acts).index);
            "0" in idx && idx["0"].version == 1 && "1a" in idx && idx["1a"].version == 1
  {
    var d := KilledAt();
    var pending := SeedPending(LoadIndex([]), [], ROWS_A);
    assert LoadIndex([]) == map[];
    assert FilesClosed(TREE, map[], d.parts.blocks);
    assert FileClosed(TREE, map[], d.parts.blocks.open[1]);
    SeedClosed(TREE, map[], ROWS_A);
    assert ROWS_A[0] in ROWS_A && ROWS_A[1] in ROWS_A;
    if pending != [] {
      DoOne(d, IndexAppend(pending));
      LoadIndexAppend(d.index, pending);
    }
  }

  lemma OldestIsLow(idx: ByHash, stale: Option<IndexRow>)
    requires IndexClosed(TREE, idx) && "0" in idx && idx["0"].version == 1 && IsEarliestStale(idx, stale)
    ensures StaleOnChain(BRANCH_B, stale)
  {
    TheTree();
    assert idx["0"].height == TREE["0"].height == 0;
  }

  /** The restarted process meets branch B: it recovers, rewinds, re-exports the
      genesis block and catches up; the row of 1a is as old as before. */
  lemma CatchesUpStale(picks: Picks)
    requires WellFormedTree(TREE) && Sound(TREE, KilledAt()) && ValidPicks(picks, KilledAt())
    ensures var p := Restarted(KilledAt());
            var r := RunPass(CONFIG, Serving(BRANCH_B, 2), 1, 10, picks, p.d, p.flags);
            r.outcome.CaughtUp? && !SB.NoneStale(LoadIndex(DoAll(p.d, r.acts).index))
  {
    hide RunPass, Sound, ValidPicks, DoAll, LoadIndex, IndexClosed, Stable, WellFormedTree, Reconcile, Position, Locate;
    var p, node := Restarted(KilledAt()), Serving(BRANCH_B, 2);
    TheNode(BRANCH_B, 2);
    SeededAfterKill(picks);
    var idx := LoadIndex(DoAll(p.d, Locate(p.d, picks.top).acts).index);
    RecoversToGenesis(idx, p.flags, node);
    CompletedReaches(TREE, CONFIG, node, 1, 10, picks, p.d, p.flags);
    SB.BackfillCompletesIff(TREE, CONFIG, node, 1, 10, picks, p.d, p.flags);
    assert SB.Stale(idx, "1a") && !SB.OnChainUpTo(BRANCH_B, "1a", 1) by {
      Hashes();
    }
  }

  /** Two passes from nothing: one on branch A, killed once the blocks rows are
      written, and one on branch B that catches up.  A stale row is left over,
      that of the detached block 1a, which the restart had seeded. */
  lemma StaleRun() returns (events: seq<PassEvent>)
    ensures WellFormedTree(TREE) && ValidRun(TREE, CONFIG, FRESH, events)
    ensures |events| == 2 && events[0].node == Serving(BRANCH_A, 2) && events[0].cut == Some(3)
    ensures events[1].node == Serving(BRANCH_B, 2) && events[1].cut == None
    ensures Result(CONFIG, Step(TREE, CONFIG, FRESH, events[0]), events[1]).outcome.CaughtUp?
    ensures !SB.NoneStale(LoadIndex(Run(TREE, CONFIG, FRESH, events).d.index))
  {
    hide RunPass, Sound, ValidPicks, Stable, WellFormedTree, Serving, DoWoven;
    TheTree();
    EmptyIsSound(TREE);
    var picks := PicksExist(FRESH.d);
    KilledPass(picks);
    var e1 := EventOf(FRESH, Serving(BRANCH_A, 2), picks, Some(3));
    var p1 := Step(TREE, CONFIG, FRESH, e1);
    StepKeepsSound(TREE, CONFIG, FRESH, e1);
    picks := PicksExist(p1.d);
    CatchesUpStale(picks);
    var e2 := EventOf(p1, Serving(BRANCH_B, 2), picks, None);
    EventIsValid(p1, BRANCH_B, 2, picks, None);
    LastStep(TREE, p1, e2);
    events := [e1, e2];
    TwoSteps(FRESH, e1, e2);
  }

  lemma TwoSteps(p: Process, e1: PassEvent, e2: PassEvent)
    requires ValidEvent(TREE, CONFIG, p, e1) && ValidEvent(TREE, CONFIG, Step(TREE, CONFIG, p, e1), e2)
    ensures ValidRun(TREE, CONFIG, p, [e1, e2])
    ensures Run(TREE, CONFIG, p, [e1, e2]) == Step(TREE, CONFIG, Step(TREE, CONFIG, p, e1), e2)
  {
    hide ValidEvent, Step;
    var p1 := Step(TREE, CONFIG, p, e1);
    assert [e1, e2][1..] == [e2] && [e2][1..] == [];
    assert ValidRun(TREE, CONFIG, p1, [e2]) && Run(TREE, CONFIG, p1, [e2]) == Step(TREE, CONFIG, p1, e2);
  }

  // --- Part numbers used twice -------------------------------------------------

  /** A complete write that nobody disturbs. */
  ghost function WriteOf(f: PF.Files, mode: PF.Mode, rows: seq<Row>): PR.WriteEvent {
    var n := |PF.WriteActions(CONFIG.parts, f, PF.Load(f), mode, rows)|;
    PR.WriteEvent(mode, rows, n, seq(n + 1, i => {}))
  }

  lemma WriteHappens(f: PF.Files, mode: PF.Mode, rows: seq<Row>)
    requires rows != []
    ensures var e := WriteOf(f, mode, rows);
            && PR.ValidEvent(CONFIG.parts, f, e)
            && PR.Step(CONFIG.parts, f, e).counter == Some(PF.NextCounter(CONFIG.parts, f, PF.Load(f), mode, rows))
  {
    hide PF.ApplyAll, PR.ApplyWoven;
    var e, acts := WriteOf(f, mode, rows), PF.WriteActions(CONFIG.parts, f, PF.Load(f), mode, rows);
    assert acts[..|acts|] == acts;
    PR.WritePersists(CONFIG.parts, f, PF.Load(f), mode, rows);
    PR.WovenReduces(f, acts, e.eats);
  }

  lemma TwoWrites(f: PF.Files, e1: PR.WriteEvent, e2: PR.WriteEvent)
    requires PR.ValidEvent(CONFIG.parts, f, e1) && PR.ValidEvent(CONFIG.parts, PR.Step(CONFIG.parts, f, e1), e2)
    ensures PR.ValidRun(CONFIG.parts, f, [e1, e2])
    ensures PR.Run(CONFIG.parts, f, [e1, e2]) == PR.Step(CONFIG.parts, PR.Step(CONFIG.parts, f, e1), e2)
  {
    hide PR.ValidEvent, PR.Step;
    var g := PR.Step(CONFIG.parts, f, e1);
    assert [e1, e2][1..] == [e2] && [e2][1..] == [];
    assert PR.ValidRun(CONFIG.parts, g, [e2]) && PR.Run(CONFIG.parts, g, [e2]) == PR.Step(CONFIG.parts, g, e2);
  }

  /** The part that one batched write leaves open. */
  const ONE_OPEN: PF.Files := PF.Files(map[1 := [ROW]], map[], Some(PF.Counter(1, true)), [], [ROW])
  const ROW := Row("0", 0, NO_HASH, 0, None)

  /** A batched write, and a kill in the rename window of the next one; then a
      batched and an atomic write: a number has been exported twice. */
  lemma RenameWindowRun() returns (events: seq<PR.WriteEvent>)
    ensures ONE_OPEN == PF.ApplyAll(PF.EMPTY_FILES,
                                    PF.WriteActions(CONFIG.parts, PF.EMPTY_FILES, PF.Counter(0, false), PF.Batched,
                                                    [ROW]))
    ensures PF.WriteActions(CONFIG.parts, ONE_OPEN, PF.Load(ONE_OPEN), PF.Atomic, [ROW])[0] == PF.HandOff(1)
    ensures PR.ValidRun(CONFIG.parts, PF.Apply(ONE_OPEN, PF.HandOff(1)), events)
    ensures !PF.Increasing(PR.Run(CONFIG.parts, PF.Apply(ONE_OPEN, PF.HandOff(1)), events).shipped)
  {
    hide PR.Step, PF.WriteActions, PF.Consistent, PF.Increasing;
    OneOpen();
    var f := PF.Apply(ONE_OPEN, PF.HandOff(1));
    var e1 := WriteOf(f, PF.Batched, [ROW]);
    WriteHappens(f, PF.Batched, [ROW]);
    var g := PR.Step(CONFIG.parts, f, e1);
    var e2 := WriteOf(g, PF.Atomic, [ROW]);
    WriteHappens(g, PF.Atomic, [ROW]);
    events := [e1, e2];
    TwoWrites(f, e1, e2);
    PR.RenameWindow(CONFIG.parts, ONE_OPEN, 1, events);
  }

  lemma OneOpen()
    ensures var acts := PF.WriteActions(CONFIG.parts, PF.EMPTY_FILES, PF.Counter(0, false), PF.Batched, [ROW]);
            ONE_OPEN == PF.ApplyAll(PF.EMPTY_FILES, acts) && PF.Consistent(ONE_OPEN)
    ensures PF.WriteActions(CONFIG.parts, ONE_OPEN, PF.Load(ONE_OPEN), PF.Atomic, [ROW])[0] == PF.HandOff(1)
    ensures var m := PF.Counter(1, true);
            |PF.WriteActions(CONFIG.parts, PF.Apply(ONE_OPEN, PF.HandOff(1)), m, PF.Batched, [ROW])| == 2
  {
    var a, b := PF.Append(1, [ROW]), PF.Persist(PF.Counter(1, true));
    PR.TwoActions(PF.EMPTY_FILES, a, b, 2);
    assert [a, b] == [a, b][..2];
    assert PF.WriteActions(CONFIG.parts, PF.EMPTY_FILES, PF.Counter(0, false), PF.Batched, [ROW]) == [a, b];
    assert [] + [ROW] == [ROW];
  }

  /** One atomic write, whose part the consumer deletes; then the counter file is
      lost, and the next write exports part 1 again. */
  lemma LostCounterRun()
    ensures var acts := PF.WriteActions(CONFIG.parts, PF.EMPTY_FILES, PF.Counter(0, false), PF.Atomic, [ROW]);
            var f := PF.Eat(PF.ApplyAll(PF.EMPTY_FILES, acts), {1}).(counter := None);
            var g := PF.ApplyAll(f, PF.WriteActions(CONFIG.parts, f, PF.Load(f), PF.Atomic, [ROW]));
            g.shipped == [PF.Part(1, [ROW]), PF.Part(1, [ROW])] && !PF.Increasing(g.shipped)
  {
    var a, b := PF.Persist(PF.Counter(1, false)), PF.Publish(1, [ROW]);
    PR.TwoActions(PF.EMPTY_FILES, a, b, 2);
    assert [a, b][..2] == [a, b];
    assert PF.WriteActions(CONFIG.parts, PF.EMPTY_FILES, PF.Counter(0, false), PF.Atomic, [ROW]) == [a, b];
    var f := PF.Eat(PF.ApplyAll(PF.EMPTY_FILES, [a, b]), {1}).(counter := None);
    assert f.exported.Keys == {} && f.open.Keys == {};
    PR.TwoActions(f, a, b, 2);
    assert PF.WriteActions(CONFIG.parts, f, PF.Load(f), PF.Atomic, [ROW]) == [a, b];
    var g := PF.ApplyAll(f, [a, b]);
    assert g.shipped[0].number == g.shipped[1].number;
  }

  // --- A price added twice -------------------------------------------------------

  /** The flush after the first minute is interrupted between the append and the
      reset: the flush on the way out appends the row again. */
  lemma RepeatedPriceRun()
    ensures var price := (t: int) => Some(BF.Entry(Some(t), None, None));
            var run := BF.Attempt(t => BF.Answered, k => k == 0, Some(BF.Interrupt(0, BF.AfterAppend)));
            var d := BF.Saved([], None);
            var row := BF.PriceRow(0, None, None);
            && BF.Repeats(price, run, 0, 60, d)
            && BF.DoAll(d, BF.RunBackfill(price, run, 0, 60, d).acts)
               == BF.Saved([row, row], Some(BF.Checkpoint(0, 60)))
  {
    var price := (t: int) => Some(BF.Entry(Some(t), None, None));
    var run := BF.Attempt(t => BF.Answered, k => k == 0, Some(BF.Interrupt(0, BF.AfterAppend)));
    var d := BF.Saved([], None);
    var row := BF.PriceRow(0, None, None);
    BF.LoopNext(price, run, 0, 60, 0, 0, 0, [], []);
    assert [] + BF.NewRow([] + [], price(0)) == [row];
    var acts := BF.RunBackfill(price, run, 0, 60, d).acts;
    var write, save := BF.AppendRows([row]), BF.SaveCheckpoint(BF.Checkpoint(0, 60));
    assert acts == [write, write, save];
    assert acts[..2] == [write, write] && acts[..2][..1] == [write] && [write][..0] == [];
    assert BF.DoAll(d, [write]).rows == [row] && [row] + [row] == [row, row];
    assert BF.Walk(price, [], 0, 1) == [row] != [] == BF.Walk(price, [], 0, 0);
  }
}
