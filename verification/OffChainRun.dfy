/** A run from nothing after which the number of workers matters: two kills
    leave the parent of a block indexed at the current schema and the block
    itself at the oldest, and a longer branch then detaches both. */
module OffChainRun {
  import opened Basics
  import opened Chain
  import opened IndexFile
  import opened DiskModel
  import opened Pass
  import opened CrashSafety
  import opened Runs
  import opened Progress
  import opened BlockRows
  import opened FlagsAnyRun
  import IF = IngestFacts
  import opened Witnesses
  import PC = ParallelCatchup
  import SB = SchemaBackfill
  import PF = PartFiles

  // --- A short and a long branch -------------------------------------------------

  const BLOCK_2A := Block(2, "2a", "1a", 1200, 0, 0, 0)
  const BLOCK_3A := Block(3, "3a", "2a", 1800, 0, 0, 0)

  const SHORT: seq<Block> := [GENESIS, BLOCK_A, BLOCK_2A, BLOCK_3A]

  const LENGTH := 16

  function NameB(i: nat): (name: Hash)
    ensures |name| == i + 2
  {
    seq(i + 2, j => 'b')
  }

  function BlockB(i: nat): Block {
    if i == 0 then GENESIS else Block(i, NameB(i), if i == 1 then "0" else NameB(i - 1), 600 * i, 0, 0, 0)
  }

  function Long(): seq<Block> {
    seq(LENGTH, i requires 0 <= i => BlockB(i))
  }

  function ShortTree(): Tree {
    map["0" := GENESIS, "1a" := BLOCK_A, "2a" := BLOCK_2A, "3a" := BLOCK_3A]
  }

  function LongTree(): Tree {
    map i: nat | 1 <= i < LENGTH :: NameB(i) := BlockB(i)
  }

  function Forest(): Tree {
    ShortTree() + LongTree()
  }

  lemma Names()
    ensures "0" != "1a" && "0" != "2a" && "0" != "3a" && "1a" != "2a" && "1a" != "3a" && "2a" != "3a"
    ensures NO_HASH != "0" && NO_HASH != "1a" && NO_HASH != "2a" && NO_HASH != "3a"
    ensures forall i: nat :: i >= 1 ==>
              NameB(i) != "0" && NameB(i) != "1a" && NameB(i) != "2a" && NameB(i) != "3a" && NameB(i) != NO_HASH
  {
    assert |"0"| == 1 && |"1a"| == 2 && |"2a"| == 2 && |"3a"| == 2 && |NO_HASH| == 0;
    assert "1a"[0] == '1' && "2a"[0] == '2' && "3a"[0] == '3';
  }

  lemma InShort()
    ensures var t := ShortTree();
            && "0" in t && t["0"] == GENESIS && "1a" in t && t["1a"] == BLOCK_A
            && "2a" in t && t["2a"] == BLOCK_2A && "3a" in t && t["3a"] == BLOCK_3A
            && forall h :: h in t ==> h == "0" || h == "1a" || h == "2a" || h == "3a"
  {
    Names();
  }

  lemma InLong()
    ensures var t := LongTree();
            && (forall i: nat :: 1 <= i < LENGTH ==> NameB(i) in t && t[NameB(i)] == BlockB(i))
            && forall h :: h in t ==> exists i: nat :: 1 <= i < LENGTH && h == NameB(i)
  {
    hide NameB, BlockB;
    NamesDiffer();
  }

  lemma InForest()
    ensures var t := Forest();
            && "0" in t && t["0"] == GENESIS && "1a" in t && t["1a"] == BLOCK_A
            && "2a" in t && t["2a"] == BLOCK_2A && "3a" in t && t["3a"] == BLOCK_3A
            && (forall i: nat :: 1 <= i < LENGTH ==> NameB(i) in t && t[NameB(i)] == BlockB(i))
            && forall h :: h in t ==> h in ShortTree() || exists i: nat :: 1 <= i < LENGTH && h == NameB(i)
  {
    hide NameB, BlockB, ShortTree, LongTree;
    Names();
    InShort();
    InLong();
    forall h | h in LongTree()
      ensures h !in ShortTree()
    {
      var i: nat :| 1 <= i < LENGTH && h == NameB(i);
      assert h != "0" && h != "1a" && h != "2a" && h != "3a";
    }
    forall h | h in Forest()
      ensures h in ShortTree() || exists i: nat :: 1 <= i < LENGTH && h == NameB(i)
    {
      if h !in ShortTree() {
        assert h in LongTree();
        var i: nat :| 1 <= i < LENGTH && h == NameB(i);
      }
    }
  }

  lemma NamesDiffer()
    ensures forall i: nat, j: nat :: NameB(i) == NameB(j) ==> i == j
  {
  }

  lemma ForestBlock(h: Hash)
    requires h in Forest()
    ensures var t := Forest();
            && t[h].hash == h && h != NO_HASH && (t[h].height == 0 <==> t[h].prev == NO_HASH)
            && (t[h].height > 0 ==> t[h].prev in t && t[t[h].prev].height == t[h].height - 1)
  {
    hide Forest, NameB, ShortTree;
    Names();
    InShort();
    InForest();
    if i: nat :| 1 <= i < LENGTH && h == NameB(i) {
      assert Forest()[NameB(i)] == BlockB(i);
      if i > 1 {
        assert Forest()[NameB(i - 1)] == BlockB(i - 1);
      }
    }
  }

  lemma TheForest()
    ensures WellFormedTree(Forest())
    ensures ActiveChain(Forest(), BRANCH_A) && ActiveChain(Forest(), SHORT) && ActiveChain(Forest(), Long())
  {
    hide Forest, NameB, BlockB;
    InForest();
    forall h | h in Forest() {
      ForestBlock(h);
    }
    assert InTree(Forest(), GENESIS) && InTree(Forest(), BLOCK_A) && InTree(Forest(), BLOCK_2A)
           && InTree(Forest(), BLOCK_3A);
    LongIsActive();
  }

  lemma LongIsActive()
    ensures ActiveChain(Forest(), Long())
  {
    hide Forest, NameB;
    InForest();
    forall i | 0 <= i < LENGTH
      ensures InTree(Forest(), Long()[i]) && Long()[i].height == i
      ensures i > 0 ==> Long()[i].prev == Long()[i - 1].hash
    {
      assert Long()[i] == BlockB(i);
      if i > 0 {
        assert Forest()[NameB(i)] == BlockB(i) && Long()[i - 1] == BlockB(i - 1);
      }
    }
  }

  // --- Events ----------------------------------------------------------------------

  ghost function PassOf(p: Process, chain: seq<Block>, workers: nat, stopAt: nat, picks: Picks,
                        cut: Option<nat>): PassEvent {
    var acts := RunPass(CONFIG, Serving(chain, |chain|), workers, stopAt, picks, p.d, p.flags).acts;
    var n := if cut.Some? && cut.value <= |acts| then cut.value else |acts|;
    PassEvent(Serving(chain, |chain|), workers, stopAt, picks, cut, seq(n + 1, i => NOTHING_EATEN))
  }

  ghost predicate Known(chain: seq<Block>) {
    chain == BRANCH_A || chain == SHORT || chain == Long()
  }

  lemma PassIsValid(p: Process, chain: seq<Block>, workers: nat, stopAt: nat, picks: Picks, cut: Option<nat>)
    requires Known(chain) && ValidPicks(picks, p.d)
    requires var acts := RunPass(CONFIG, Serving(chain, |chain|), workers, stopAt, picks, p.d, p.flags).acts;
             cut.Some? ==> SafeKill(acts, cut.value)
    ensures ValidEvent(Forest(), CONFIG, p, PassOf(p, chain, workers, stopAt, picks, cut))
    ensures Stable(Forest(), Serving(chain, |chain|))
  {
    hide RunPass, ValidPicks, Forest, ActiveChain;
    TheForest();
  }

  /** A kill after the first actions, with nothing exported that the consumer
      could delete. */
  lemma KilledHere(p: Process, chain: seq<Block>, stopAt: nat, picks: Picks, acts: seq<Action>, d: DiskState)
    requires Known(chain) && ValidPicks(picks, p.d)
    requires acts <= RunPass(CONFIG, Serving(chain, |chain|), 1, stopAt, picks, p.d, p.flags).acts
    requires SafeKill(acts, |acts|) && DoAll(p.d, acts) == d && forall k :: d.parts.At(k).exported == map[]
    ensures var e := PassOf(p, chain, 1, stopAt, picks, Some(|acts|));
            ValidEvent(Forest(), CONFIG, p, e) && Step(Forest(), CONFIG, p, e) == Restarted(d)
  {
    hide RunPass, ValidPicks, DoAll, DoWoven, DiskReduced, Stable;
    PassIsValid(p, chain, 1, stopAt, picks, Some(|acts|));
    var e := PassOf(p, chain, 1, stopAt, picks, Some(|acts|));
    assert Performed(CONFIG, p, e) == acts;
    WovenReduces(p.d, acts, e.eats);
    NothingToReduce(DoWoven(p.d, acts, e.eats), d);
  }

  // --- The first kill --------------------------------------------------------------

  const INDEX_A: seq<IndexRow> := [IndexRow(0, "0", NO_HASH, 2), IndexRow(1, "1a", "0", 2)]

  /** The blocks rows and the index rows are there, the pointer is not. */
  ghost function FirstKill(): DiskState {
    KilledAt().(index := INDEX_A)
  }

  lemma FirstKilled(picks: Picks)
    requires ValidPicks(picks, EMPTY_DISK)
    ensures var e := PassOf(FRESH, BRANCH_A, 1, 10, picks, Some(4));
            ValidEvent(Forest(), CONFIG, FRESH, e) && Step(Forest(), CONFIG, FRESH, e) == Restarted(FirstKill())
  {
    hide RunPass, ValidPicks, DoAll, Forest, ValidEvent, Step;
    FirstPassStarts(picks);
    KilledDisk();
    var acts := [LatestReplace(Pointer(1, "1a")), OnPart(Blocks, PF.Append(1, ROWS_A)),
                 OnPart(Blocks, PF.Persist(PF.Counter(1, true)))];
    var more := IndexAppend(IndexRows(BATCH_A));
    DoAppend(EMPTY_DISK, acts, [more]);
    DoOne(KilledAt(), more);
    assert [] + IndexRows(BATCH_A) == INDEX_A;
    assert acts + [more] == [acts[0], acts[1], acts[2], more];
    KilledHere(FRESH, BRANCH_A, 10, picks, acts + [more], FirstKill());
  }

  lemma IndexA()
    ensures LoadIndex(INDEX_A) == map["0" := INDEX_A[0], "1a" := INDEX_A[1]]
  {
    Names();
    assert INDEX_A[..1] == [INDEX_A[0]] && INDEX_A[..1][..0] == [];
    assert LoadIndex(INDEX_A[..1]) == map["0" := INDEX_A[0]];
  }

  // --- The second kill -------------------------------------------------------------

  /** Nothing to seed and nothing stale. */
  lemma SecondLocates(picks: Picks)
    requires ValidPicks(picks, FirstKill())
    ensures Locate(FirstKill(), picks.top) == Located([], Some(Pointer(1, "1a"))) && picks.stale == None
  {
    hide FoundRows;
    var d, idx := FirstKill(), LoadIndex(INDEX_A);
    IndexA();
    FoundAfterKill();
    assert picks.top == ROWS_A[1] by {
      assert ROWS_A[1] in ROWS_A && picks.top in ROWS_A;
    }
    assert ROWS_A[1..] == [ROWS_A[1]] && ROWS_A[1..][1..] == [];
    assert SeedPending(idx, [], ROWS_A[1..]) == [];
    assert SeedPending(idx, [], ROWS_A) == [];
    assert DoAll(d, []) == d;
  }

  const ROW_2A := Row("2a", 2, "1a", 0, Some(600))
  const ROWS_2A: seq<Row> := ROWS_A + [ROW_2A]
  const PARTS_2A: PF.Files := PF.Files(map[1 := ROWS_2A], map[], Some(PF.Counter(1, true)), [], ROWS_2A)
  const BATCH_2A: seq<Staged> := [Staged(BLOCK_2A, Some(600))]

  /** Only the blocks row of 2a was added. */
  ghost function SecondKill(): DiskState {
    FirstKill().(latest := Some(Pointer(3, "3a")), parts := EMPTY_DISK.parts.(blocks := PARTS_2A))
  }

  lemma SecondPrepares(picks: Picks)
    requires ValidPicks(picks, FirstKill())
    ensures Prepare(CONFIG, Serving(SHORT, 4), picks, FirstKill(), Flags(map[], false))
         == Ready([LatestReplace(Pointer(3, "3a"))], Flags(map[], false), Cursor(1, Some("1a")))
  {
    hide Locate, FindStaged, WalkBackFrom;
    SecondLocates(picks);
    var latest := LatestReplace(Pointer(3, "3a"));
    assert [latest] + [] == [latest];
    DoOne(FirstKill(), latest);
  }

  lemma SecondWalk(w: Walk)
    requires w == Walk(w.d, w.acts, Flags(map[], false), [], Cursor(1, Some("1a")), Some(600), 0)
    requires w.d.index == INDEX_A
    ensures VisitAll(CONFIG, PF.Batched, w, [BLOCK_2A])
            == w.(batch := BATCH_2A, at := Cursor(2, Some("2a")), prevTime := Some(1200), processed := 1)
  {
    hide Checkpoint, VisitAll;
    Names();
    IndexA();
    IF.VisitNothing(CONFIG, PF.Batched, w);
    IF.VisitOneMore(CONFIG, PF.Batched, w, [], BLOCK_2A);
    assert [] + [BLOCK_2A] == [BLOCK_2A] && [] + BATCH_2A == BATCH_2A;
    assert NeedsExport(LoadIndex(INDEX_A), IndexRows([]), "2a");
  }

  lemma SecondDrain(d: DiskState)
    requires d.parts == KilledAt().parts
    ensures DrainActs(CONFIG, PF.Batched, d, BATCH_2A, Blocks)
         == [OnPart(Blocks, PF.Append(1, [ROW_2A])), OnPart(Blocks, PF.Persist(PF.Counter(1, true)))]
  {
    assert BATCH_2A[..0] == [] && RowsFor(BATCH_2A, Blocks) == [] + RowsOf(BLOCK_2A, Some(600), Blocks) == [ROW_2A];
    var acts := PF.WriteActions(CONFIG.parts, KILLED_PARTS, PF.Counter(1, true), PF.Batched, [ROW_2A]);
    assert acts == [PF.Append(1, [ROW_2A]), PF.Persist(PF.Counter(1, true))];
  }

  lemma SecondStarts(picks: Picks)
    requires ValidPicks(picks, FirstKill())
    ensures [LatestReplace(Pointer(3, "3a")), OnPart(Blocks, PF.Append(1, [ROW_2A]))]
         <= RunPass(CONFIG, Serving(SHORT, 4), 1, 3, picks, FirstKill(), Flags(map[], false)).acts
  {
    hide Prepare, DrainKinds, DoAll, Fold, NeedsExport, ValidPicks, LoadIndex;
    var node, d := Serving(SHORT, 4), FirstKill();
    var latest := LatestReplace(Pointer(3, "3a"));
    SecondPrepares(picks);
    DoOne(d, latest);
    var prep := Ready([latest], Flags(map[], false), Cursor(1, Some("1a")));
    assert VisitsFrom(node, 3, -1, 3, 3, Some("2a")) == Visits([], Stopped);
    assert VisitsFrom(node, 3, -1, 3, 2, Some("1a")) == Visits([BLOCK_2A], Stopped);
    var w := StartWalk(node, d, prep);
    SecondWalk(w);
    var v := VisitAll(CONFIG, PF.Batched, w, [BLOCK_2A]);
    SecondDrain(v.d);
    DrainsOnlyBlocks(PF.Batched, v.d, BATCH_2A);
    assert CheckpointActs(CONFIG, PF.Batched, v)
           == Drain(CONFIG, PF.Batched, v.d, BATCH_2A) + FlushIndex(BATCH_2A) + FlushFlags(v.flags) + SavePointer(v.at);
    assert RunPass(CONFIG, node, 1, 3, picks, d, Flags(map[], false)).acts
           == v.acts + CheckpointActs(CONFIG, PF.Batched, v);
  }

  lemma SecondKilled(picks: Picks)
    requires ValidPicks(picks, FirstKill())
    ensures var p := Restarted(FirstKill());
            var e := PassOf(p, SHORT, 1, 3, picks, Some(2));
            ValidEvent(Forest(), CONFIG, p, e) && Step(Forest(), CONFIG, p, e) == Restarted(SecondKill())
  {
    hide RunPass, ValidPicks, Forest, ValidEvent, Step, DoAll;
    SecondStarts(picks);
    var a, b := LatestReplace(Pointer(3, "3a")), OnPart(Blocks, PF.Append(1, [ROW_2A]));
    var d := Do(FirstKill(), a);
    DoOne(FirstKill(), a);
    DoOne(d, b);
    DoAppend(FirstKill(), [a], [b]);
    assert [a] + [b] == [a, b];
    assert PF.Apply(d.parts.blocks, b.act) == PARTS_2A;
    KilledHere(Restarted(FirstKill()), SHORT, 3, picks, [a, b], SecondKill());
  }

  // --- The long branch -------------------------------------------------------------

  lemma FoundAfterSecond()
    ensures FoundRows(PARTS_2A) == ROWS_2A
  {
    var f := PARTS_2A;
    assert f.open.Keys + f.exported.Keys == {1};
    assert RowsUpTo(f, 1) == RowsUpTo(f, 0) + FileAt(f, 1);
    assert [] + ROWS_2A == ROWS_2A;
  }

  const SEEDED: IndexRow := IndexRow(2, "2a", "1a", 1)

  /** Block 2a is seeded, at the oldest schema. */
  lemma ThirdLocates(picks: Picks)
    requires ValidPicks(picks, SecondKill())
    ensures Locate(SecondKill(), picks.top) == Located([IndexAppend([SEEDED])], Some(Pointer(2, "2a")))
    ensures IndexFor(picks, SecondKill()) == LoadIndex(INDEX_A)["2a" := SEEDED]
  {
    hide FoundRows;
    Names();
    var d, idx := SecondKill(), LoadIndex(INDEX_A);
    IndexA();
    FoundAfterSecond();
    assert picks.top == ROW_2A by {
      assert ROWS_2A[2] == ROW_2A && ROWS_2A[0] == ROWS_A[0] && ROWS_2A[1] == ROWS_A[1];
      assert ROWS_2A[2] in ROWS_2A && picks.top in ROWS_2A;
    }
    SeedsBlock(idx);
    DoOne(d, IndexAppend([SEEDED]));
    assert (INDEX_A + [SEEDED])[..2] == INDEX_A;
  }

  lemma SeedsBlock(idx: ByHash)
    requires idx == map["0" := INDEX_A[0], "1a" := INDEX_A[1]]
    ensures SeedPending(idx, [], ROWS_2A) == [SEEDED]
  {
    Names();
    assert ROWS_2A == [ROWS_A[0], ROWS_A[1], ROW_2A];
    assert ROWS_2A[1..] == [ROWS_A[1], ROW_2A] && ROWS_2A[1..][1..] == [ROW_2A] && [ROW_2A][1..] == [];
    assert SeedPending(idx, [SEEDED], []) == [SEEDED];
    assert SeedPending(idx, [], [ROW_2A]) == [SEEDED];
    assert SeedPending(idx, [], ROWS_2A[1..]) == [SEEDED];
  }

  /** The long branch leaves the short one at the genesis block. */
  lemma ThirdReconciles(picks: Picks)
    requires ValidPicks(picks, SecondKill())
    ensures var d, node := SecondKill(), Serving(Long(), LENGTH);
            && Reconciles(CONFIG, node, picks, d, Flags(map[], false))
            && Position(CONFIG, node, picks, d, Flags(map[], false)) == Cursor(0, Some("0"))
  {
    hide FlagDetached, Locate, LoadIndex;
    Names();
    IndexA();
    ThirdLocates(picks);
    var idx, node, at := IndexFor(picks, SecondKill()), Serving(Long(), LENGTH), Pointer(2, "2a");
    assert node.chain[2].hash == NameB(2) && node.chain[1].hash == NameB(1) && node.chain[0].hash == "0";
    var below := Pointer(1, "1a");
    assert WalkBackFrom(idx, node, 5, below, [at]) == Ancestor(Pointer(0, "0"), [at] + [below]);
    assert [] + [at] == [at];
    assert WalkBackFrom(idx, node, 5, at, []) == Ancestor(Pointer(0, "0"), [at] + [below]);
  }

  lemma ThirdStale(picks: Picks)
    requires ValidPicks(picks, SecondKill())
    ensures Rewind(Cursor(0, Some("0")), picks.stale) == Cursor(0, Some("0"))
  {
    Names();
    IndexA();
    ThirdLocates(picks);
  }

  /** The rows of an older schema are of blocks found. */
  ghost predicate OldFound(rows: seq<IndexRow>, found: seq<Row>) {
    forall i :: 0 <= i < |rows| && rows[i].version < CURRENT_SCHEMA ==> HasRow(found, rows[i].hash)
  }

  lemma {:induction false} OldRows(d: DiskState, found: seq<Row>, acts: seq<Action>)
    requires AllFine(Forest(), false, found, acts) && OldFound(d.index, found)
    ensures OldFound(DoAll(d, acts).index, found)
    decreases |acts|
  {
    hide Forest, HasRow;
    if acts != [] {
      OldRows(d, found, acts[..|acts| - 1]);
      assert Fine(Forest(), false, found, acts[|acts| - 1]);
    }
  }

  /** Of all rows of an older schema only that of 2a is left in the end. */
  lemma ThirdAppends(picks: Picks)
    requires ValidPicks(picks, SecondKill()) && Sound(Forest(), SecondKill())
    ensures var r := RunPass(CONFIG, Serving(Long(), LENGTH), 1, 20, picks, SecondKill(), Flags(map[], false));
            OldFound(DoAll(SecondKill(), r.acts).index, [ROW_2A])
  {
    hide RunLoop, Forest, ValidPicks, Sound, Reconcile, Serving, DoAll, HasRow, OldFound, ActiveChain;
    var d, node, flags, found := SecondKill(), Serving(Long(), LENGTH), Flags(map[], false), [ROW_2A];
    TheForest();
    PassIsValidNode();
    ThirdLocates(picks);
    SeedIsFound();
    var p := Prepare(CONFIG, node, picks, d, flags);
    PrepareAppends(picks, node, d, flags, found);
    if p.Ready? {
      ReadyIsOnChain(Forest(), CONFIG, node, picks, d, flags);
      RunLoopIsFine(Forest(), false, found, CONFIG, node, 1, 20, d, p);
    }
    OldRows(d, found, RunPass(CONFIG, node, 1, 20, picks, d, flags).acts);
  }

  lemma PassIsValidNode()
    ensures Stable(Forest(), Serving(Long(), LENGTH)) && Begun(CONFIG, Serving(Long(), LENGTH))
    ensures AnswersRest(Serving(Long(), LENGTH)) && Latest(CONFIG, Serving(Long(), LENGTH)) == 15
    ensures Serving(Long(), LENGTH).chain == Long()
  {
    hide Forest, ActiveChain;
    TheForest();
  }

  lemma SeedIsFound()
    ensures HasRow([ROW_2A], "2a") && OldFound(INDEX_A, [ROW_2A])
  {
    assert [ROW_2A][0].block == "2a";
  }

  lemma PrepareAppends(picks: Picks, node: Node, d: DiskState, flags: Flags, found: seq<Row>)
    requires AllFine(Forest(), false, found, Locate(d, picks.top).acts)
    ensures AllFine(Forest(), false, found, Prepare(CONFIG, node, picks, d, flags).acts)
  {
    hide Reconcile, Locate, Forest, DoAll, HasRow, LoadIndex;
    var located := Locate(d, picks.top);
    var latest := Latest(CONFIG, node);
    if node.ok(BlockCount) && latest >= 0 && node.ok(LatestHash) {
      var begun := [LatestReplace(Pointer(latest, node.chain[latest].hash))] + located.acts;
      ReconcileIsFine(Forest(), false, found, CONFIG, node, LoadIndex(DoAll(d, begun).index), flags, located.pointer);
    }
  }

  /** The pass on the long branch catches up and leaves 2a stale, alone. */
  lemma ThirdPass(picks: Picks)
    requires ValidPicks(picks, SecondKill()) && WellFormedTree(Forest()) && Sound(Forest(), SecondKill())
    ensures var p := Restarted(SecondKill());
            var e := PassOf(p, Long(), 1, 20, picks, None);
            && ValidEvent(Forest(), CONFIG, p, e)
            && var d := Step(Forest(), CONFIG, p, e).d;
               && d.current == Some(Pointer(15, NameB(15)))
               && OldFound(d.index, [ROW_2A]) && !SB.NoneStale(LoadIndex(d.index))
  {
    hide RunPass, Forest, ValidPicks, Sound, DoAll, LoadIndex, Position, Reconciles, Serving, Stable, OldFound, NameB,
      HasRow, DoWoven;
    var p, node := Restarted(SecondKill()), Serving(Long(), LENGTH);
    PassIsValidNode();
    PassIsValid(p, Long(), 1, 20, picks, None);
    var e := PassOf(p, Long(), 1, 20, picks, None);
    ThirdReconciles(picks);
    ThirdStale(picks);
    CompletedReaches(Forest(), CONFIG, node, 1, 20, picks, p.d, p.flags);
    EndsHigh();
    PassDoes(Forest(), CONFIG, node, 1, 20, picks, p.d, p.flags);
    ThirdAppends(picks);
    SB.BackfillCompletesIff(Forest(), CONFIG, node, 1, 20, picks, p.d, p.flags);
    StaysStale(picks);
    LastStep(Forest(), p, e);
  }

  lemma EndsHigh()
    ensures EndCursor(CONFIG, Serving(Long(), LENGTH), 1, 20, Cursor(0, Some("0"))) == Cursor(15, Some(NameB(15)))
  {
    hide NameB;
    assert Long()[15].hash == NameB(15);
  }

  lemma StaysStale(picks: Picks)
    requires ValidPicks(picks, SecondKill())
    ensures !SB.AllStaleOnChain(Long(), 15, IndexFor(picks, SecondKill()))
  {
    hide NameB, Locate;
    Names();
    ThirdLocates(picks);
    assert SB.Stale(IndexFor(picks, SecondKill()), "2a");
  }

  // --- The pass to which the workers matter ------------------------------------------

  /** What the third pass left on disk. */
  ghost predicate LeftStale(d: DiskState) {
    d.current == Some(Pointer(15, NameB(15))) && OldFound(d.index, [ROW_2A]) && !SB.NoneStale(LoadIndex(d.index))
  }

  lemma FourthStale(d: DiskState, picks: Picks)
    requires WellFormedTree(Forest()) && Sound(Forest(), d) && ValidPicks(picks, d) && LeftStale(d)
    ensures picks.stale.Some? && picks.stale.value.height == 2 && picks.stale.value.prev == "1a"
  {
    hide Forest, IndexClosed, NotAhead, PartsConsistent, NameB;
    var idx := LoadIndex(d.index);
    assert DoAll(d, []) == d;
    LoadIndexKeys(d.index);
    assert picks.stale.Some?;
    var row := picks.stale.value;
    var i :| 0 <= i < |d.index| && d.index[i] == row;
    assert HasRow([ROW_2A], row.hash) && row.hash == "2a";
    RowOf2A(idx);
  }

  lemma RowOf2A(idx: ByHash)
    requires IndexClosed(Forest(), idx) && "2a" in idx
    ensures idx["2a"].height == 2 && idx["2a"].prev == "1a"
  {
    hide Forest;
    InForest();
  }

  lemma FourthPrepares(d: DiskState, flags: Flags, picks: Picks)
    requires LeftStale(d) && picks.stale.Some? && picks.stale.value.height == 2 && picks.stale.value.prev == "1a"
    ensures var node := Serving(Long(), LENGTH);
            && Position(CONFIG, node, picks, d, flags) == Cursor(15, Some(NameB(15)))
            && PC.Prefetches(CONFIG, node, 2, 20, Prepare(CONFIG, node, picks, d, flags))
  {
    hide LoadIndex, Locate, Reconcile, Enter, NameB, ParallelEnd, OldFound, SB.NoneStale, Serving, DoAll, Long;
    var node := Serving(Long(), LENGTH);
    LongNode();
    var a := LatestReplace(Pointer(15, node.chain[15].hash));
    StaysPut(d, picks);
    assert [a] + [] == [a];
    DoOne(d, a);
    EntersBelow(d, flags, picks);
    assert Prepare(CONFIG, node, picks, d, flags) == Ready([a], flags, Cursor(1, Some("1a")));
  }

  lemma LongNode()
    ensures var node := Serving(Long(), LENGTH);
            && |node.chain| == 16 && Latest(CONFIG, node) == 15 && node.chain[15].hash == NameB(15)
            && (forall c: Call :: !c.Fetch? ==> node.ok(c)) && node.ok(Fetch(2))
            && ParallelEnd(CONFIG, node, 2, Cursor(1, Some("1a")), 15) == 10
  {
    hide NameB;
  }

  lemma StaysPut(d: DiskState, picks: Picks)
    requires d.current.Some?
    ensures Locate(d, picks.top) == Located([], d.current) && DoAll(d, []) == d
  {
  }

  /** The position is on the chain; the rewind leaves it. */
  lemma EntersBelow(d: DiskState, flags: Flags, picks: Picks)
    requires d.current == Some(Pointer(15, NameB(15)))
    requires picks.stale.Some? && picks.stale.value.height == 2 && picks.stale.value.prev == "1a"
    ensures var node := Serving(Long(), LENGTH);
            var p := Reconcile(CONFIG, node, LoadIndex(d.index), flags, d.current);
            && p == Ready([], flags, Cursor(15, Some(NameB(15))))
            && Enter(CONFIG, node, picks.stale, p) == Ready([], flags, Cursor(1, Some("1a")))
  {
    hide LoadIndex, Recover, NameB, Serving, Long;
    LongNode();
    Names();
  }

  lemma ShortParent()
    ensures Long()[1].hash != "1a"
  {
    Names();
  }

  /** From nothing: a pass on the short branch killed after its index rows, one
      killed after the blocks row of 2a, one on the long branch that catches up;
      the next one there rewinds below 2a, off the chain, and with two workers
      does not do what it does with one. */
  lemma WorkersMatterRun() returns (events: seq<PassEvent>, f: PassEvent)
    ensures WellFormedTree(Forest()) && ValidRun(Forest(), CONFIG, FRESH, events) && |events| == 3
    ensures var q := Run(Forest(), CONFIG, FRESH, events);
            && ValidEvent(Forest(), CONFIG, q, f) && f.workers == 2 && f.cut == None
            && !StaleOnChain(f.node.chain, f.picks.stale)
            && var r, s := Result(CONFIG, q, f), RunPass(CONFIG, f.node, 1, f.stopAt, f.picks, q.d, q.flags);
               r.acts != s.acts || r.outcome != s.outcome
  {
    hide RunPass, Forest, ValidPicks, Sound, ValidEvent, Step, Position, Prepare, Serving, Stable, OldFound, NameB,
      ValidRun, Run;
    TheForest();
    EmptyIsSound(Forest());
    var picks := PicksOf(EMPTY_DISK);
    FirstKilled(picks);
    var e1 := PassOf(FRESH, BRANCH_A, 1, 10, picks, Some(4));
    StepKeepsSound(Forest(), CONFIG, FRESH, e1);
    picks := PicksOf(FirstKill());
    SecondKilled(picks);
    var e2 := PassOf(Restarted(FirstKill()), SHORT, 1, 3, picks, Some(2));
    StepKeepsSound(Forest(), CONFIG, Restarted(FirstKill()), e2);
    picks := PicksOf(SecondKill());
    ThirdPass(picks);
    var e3 := PassOf(Restarted(SecondKill()), Long(), 1, 20, picks, None);
    StepKeepsSound(Forest(), CONFIG, Restarted(SecondKill()), e3);
    events := [e1, e2, e3];
    ThreeSteps(Forest(), FRESH, e1, e2, e3);
    var q := Step(Forest(), CONFIG, Restarted(SecondKill()), e3);
    picks := PicksOf(q.d);
    f := PassOf(q, Long(), 2, 20, picks, None);
    PassIsValid(q, Long(), 2, 20, picks, None);
    FourthDiffers(q, picks);
  }

  lemma PicksOf(d: DiskState) returns (picks: Picks)
    ensures ValidPicks(picks, d)
  {
    picks := IF.PicksExist(d);
  }

  lemma FourthDiffers(q: Process, picks: Picks)
    requires WellFormedTree(Forest()) && Sound(Forest(), q.d) && ValidPicks(picks, q.d) && LeftStale(q.d)
    ensures var node := Serving(Long(), LENGTH);
            var r := RunPass(CONFIG, node, 2, 20, picks, q.d, q.flags);
            var s := RunPass(CONFIG, node, 1, 20, picks, q.d, q.flags);
            (r.acts != s.acts || r.outcome != s.outcome) && !StaleOnChain(node.chain, picks.stale)
  {
    hide RunPass, Forest, ValidPicks, Sound, Position, Prepare, Serving, Stable, OldFound, NameB, LeftStale;
    var node := Serving(Long(), LENGTH);
    PassIsValidNode();
    FourthStale(q.d, picks);
    FourthPrepares(q.d, q.flags, picks);
    ShortParent();
    PC.WorkersMatterIff(Forest(), CONFIG, node, 2, 20, picks, q.d, q.flags);
  }
}
