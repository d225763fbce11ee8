/** The canonical flags after any run whatsoever: with kills, which lose the
    flags in memory, with passes that the node cuts short, one or many in a row,
    with seeded and with stale index rows.  Exactly when the next pass that
    completes leaves them right, in terms of what it finds. */
module FlagsAnyRun {
  import opened Basics
  import opened Chain
  import opened IndexFile
  import opened DiskModel
  import opened Pass
  import opened PassFacts
  import opened CrashSafety
  import opened Runs
  import opened Progress
  import opened CanonicalFlags
  import EO = ExactlyOnce
  import PF = PartFiles

  /** The index the pass works on: with the blocks on disk seeded if need be. */
  ghost function IndexFor(picks: Picks, d: DiskState): ByHash {
    LoadIndex(DoAll(d, Locate(d, picks.top).acts).index)
  }

  /** The block of the stored or seeded position. */
  ghost function FoundAt(picks: Picks, d: DiskState): Hash {
    HashOf(CursorAt(Locate(d, picks.top).pointer))
  }

  /** What the pass does to the flags before its loop. */
  ghost predicate PrepMakes(t: Tree, picks: Picks, d: DiskState, before: Status, fork: Cursor, p: Prep)
    requires WellFormedTree(t)
  {
    var e := DoAll(d, p.acts);
    && Saved(e, p.flags)
    && (p.Ready? || p.outcome.CaughtUp? || p.outcome.Again? ==>
          && LoadIndex(e.index) == IndexFor(picks, d)
          && DetachedDownTo(t, before, p.flags.entries, FoundAt(picks, d), HashOf(fork)))
    && (p.Halt? && (p.outcome.CaughtUp? || p.outcome.Again?) ==>
          e.status == p.flags.entries && e.current == PointerAfter(d, p.at))
  }

  lemma SeededDisk(d: DiskState, latest: Pointer, picks: Picks)
    ensures var begun := [LatestReplace(latest)] + Locate(d, picks.top).acts;
            var e := DoAll(d, begun);
            && LoadIndex(e.index) == IndexFor(picks, d) && e.status == d.status && e.current == d.current
  {
    hide LoadIndex, FoundRows;
    var a, acts := LatestReplace(latest), Locate(d, picks.top).acts;
    DoAppend(d, [a], acts);
    DoOne(d, a);
    SameIndex(d, DoAll(d, [a]), acts);
    if acts != [] {
      assert acts == [acts[0]];
      DoOne(DoAll(d, [a]), acts[0]);
    }
  }

  /** From the seeded disk `e` on. */
  lemma ReconcileMakes(t: Tree, cfg: Config, node: Node, picks: Picks, d: DiskState, e: DiskState, flags: Flags)
    requires WellFormedTree(t) && Saved(e, flags) && e.current == d.current
    requires LoadIndex(e.index) == IndexFor(picks, d) && IndexClosed(t, IndexFor(picks, d))
    requires PointerIndexed(t, IndexFor(picks, d), Locate(d, picks.top).pointer)
    ensures var p := Reconcile(cfg, node, IndexFor(picks, d), flags, Locate(d, picks.top).pointer);
            var f := DoAll(e, p.acts);
            && AllHarmless(p.acts) && Saved(f, p.flags) && f.index == e.index && f.current == e.current
            && DetachedDownTo(t, flags.entries, p.flags.entries, FoundAt(picks, d), HashOf(p.at))
            && (p.Halt? ==> !p.outcome.CaughtUp? && !p.outcome.Again?)
  {
    hide Reconcile, LoadIndex, DetachedDownTo, IndexClosed, DoAll, Locate;
    var pos := Locate(d, picks.top).pointer;
    ReconcileFlags(t, cfg, node, e, IndexFor(picks, d), flags, pos);
    ReconcileOnChain(t, cfg, node, IndexFor(picks, d), flags, pos);
    HaltsFailing(cfg, node, IndexFor(picks, d), flags, pos);
    HarmlessLeaves(e, Reconcile(cfg, node, IndexFor(picks, d), flags, pos).acts);
  }

  lemma EnterMakes(cfg: Config, node: Node, stale: Option<IndexRow>, e: DiskState, p: Prep)
    requires p.Ready? && Saved(DoAll(e, p.acts), p.flags) && DoAll(e, p.acts).current == e.current
    ensures var q := Enter(cfg, node, stale, p);
            var f := DoAll(e, q.acts);
            && q.flags.entries == p.flags.entries && Saved(f, q.flags) && f.index == DoAll(e, p.acts).index
            && (q.Halt? && (q.outcome.CaughtUp? || q.outcome.Again?) ==>
                  f.status == q.flags.entries && f.current == PointerAfter(e, q.at))
  {
    hide DoAll, SavePointer, FlushFlags, Rewind;
    var from := Rewind(p.at, stale);
    var f := DoAll(e, p.acts);
    SavePointerDoes(f, from);
    FlushFlagsDoes(DoAll(f, SavePointer(from)), p.flags);
    DoAppend(e, p.acts, SavePointer(from));
    DoAppend(e, p.acts + SavePointer(from), FlushFlags(p.flags));
  }

  lemma PrefixMakes(t: Tree, picks: Picks, d: DiskState, e: DiskState, before: Status, fork: Cursor,
                    begun: seq<Action>, p: Prep)
    requires WellFormedTree(t) && e == DoAll(d, begun) && e.current == d.current
    requires var f := DoAll(e, p.acts);
             && Saved(f, p.flags)
             && (p.Ready? || p.outcome.CaughtUp? || p.outcome.Again? ==>
                   && LoadIndex(f.index) == IndexFor(picks, d)
                   && DetachedDownTo(t, before, p.flags.entries, FoundAt(picks, d), HashOf(fork)))
             && (p.Halt? && (p.outcome.CaughtUp? || p.outcome.Again?) ==>
                   f.status == p.flags.entries && f.current == PointerAfter(e, p.at))
    ensures PrepMakes(t, picks, d, before, fork, Prefix(begun, p))
  {
    hide DoAll, DetachedDownTo, LoadIndex;
    DoAppend(d, begun, p.acts);
  }

  lemma PrepareMakes(t: Tree, cfg: Config, node: Node, picks: Picks, d: DiskState, flags: Flags)
    requires WellFormedTree(t) && ActiveChain(t, node.chain) && Sound(t, d) && ValidPicks(picks, d) && Saved(d, flags)
    requires Begun(cfg, node)
    ensures PrepMakes(t, picks, d, flags.entries, Position(cfg, node, picks, d, flags),
                      Prepare(cfg, node, picks, d, flags))
  {
    hide Reconcile, Enter, Sound, PrepMakes, IndexClosed, PointerIndexed, DoAll, DetachedDownTo, IsEarliestStale,
      IsTop, FoundRows, LoadIndex, ActiveChain, WellFormedTree;
    SeededFacts(t, d, picks);
    var latest := Latest(cfg, node);
    var pointer := Pointer(latest, node.chain[latest].hash);
    BeginKeepsSound(t, d, pointer, picks.top);
    SeededDisk(d, pointer, picks);
    var found := Locate(d, picks.top);
    var begun := [LatestReplace(pointer)] + found.acts;
    var e := DoAll(d, begun);
    ReconcileMakes(t, cfg, node, picks, d, e, flags);
    var p := Reconcile(cfg, node, IndexFor(picks, d), flags, found.pointer);
    var q := if p.Halt? then p else Enter(cfg, node, picks.stale, p);
    if p.Ready? {
      EnterMakes(cfg, node, picks.stale, e, p);
    }
    PrefixMakes(t, picks, d, e, flags.entries, p.at, begun, q);
  }

  // --- The loop --------------------------------------------------------------

  /** What a pass makes of the flags: those of the blocks above the fork are
      cleared, those of the visited ones set. */
  ghost predicate PassMakes(t: Tree, chain: seq<Block>, picks: Picks, d: DiskState, before: Status, fork: Cursor,
                            from: Cursor, r: PassResult)
    requires WellFormedTree(t)
  {
    var e := DoAll(d, r.acts);
    && Saved(e, r.flags)
    && (Completed(r) ==>
          && from.height <= r.reached.height
          && FlagsAfter(t, chain, before, r.flags.entries, FoundAt(picks, d), HashOf(fork), from.height + 1,
                        r.reached.height)
          && IndexAfter(IndexFor(picks, d), LoadIndex(e.index), chain, from.height + 1, r.reached.height)
          && e.status == r.flags.entries
          && e.current == PointerAfter(d, r.reached))
  }

  lemma StartMakes(node: Node, picks: Picks, d: DiskState, p: Prep)
    requires p.Ready? && Saved(DoAll(d, p.acts), p.flags) && p.at.height < |node.chain|
    requires LoadIndex(DoAll(d, p.acts).index) == IndexFor(picks, d)
    ensures FlagWalk(node.chain, p.flags.entries, IndexFor(picks, d), p.at.height + 1, StartWalk(node, d, p))
  {
    var w := StartWalk(node, d, p);
    forall x
      ensures Known(LoadIndex(w.d.index), w.batch, x) <==> x in IndexFor(picks, d)
      ensures !Visited(node.chain, p.at.height + 1, w.at.height, x)
    {
    }
  }

  ghost predicate KeepsPosition(d: DiskState, from: Cursor, w: Walk) {
    && (w.at.height == from.height ==> w.at == from)
    && w.at.height >= from.height
    && ((w.at.hash.Some? && w.at.height >= 0) || w.d.current == d.current)
  }

  lemma LoopKeepsPosition(cfg: Config, mode: PF.Mode, chain: seq<Block>, d: DiskState, w: Walk, n: nat)
    requires KeepsPosition(d, w.at, w) && w.at.height + 1 + n <= |chain|
    requires forall i :: 0 <= i < |chain| ==> chain[i].height == i
    ensures KeepsPosition(d, w.at, VisitAll(cfg, mode, w, chain[w.at.height + 1..w.at.height + 1 + n]))
  {
    hide CheckpointActs;
    var step := (v, b) => VisitAndCheckpoint(cfg, mode, v, b);
    var Inv := v => KeepsPosition(d, w.at, v);
    forall v: Walk, b: Block {:trigger step(v, b)}
      | Inv(v) && w.at.height <= v.at.height && v.at.height + 1 < |chain| && b == chain[v.at.height + 1]
      ensures Inv(step(v, b)) && step(v, b).at.height == v.at.height + 1
    {
    }
    FoldInduction(step, chain, w, n, Inv);
  }

  lemma FinishMakes(t: Tree, cfg: Config, mode: PF.Mode, chain: seq<Block>, picks: Picks, d: DiskState,
                    before: Status, mid: Status, fork: Cursor, from: Cursor, w: Walk, ending: Ending, latest: int)
    requires WellFormedTree(t) && ActiveChain(t, chain) && w.d == DoAll(d, w.acts)
    requires FlagWalk(chain, mid, IndexFor(picks, d), from.height + 1, w) && KeepsPosition(d, from, w)
    requires DetachedDownTo(t, before, mid, FoundAt(picks, d), HashOf(fork))
    ensures PassMakes(t, chain, picks, d, before, fork, from, FinishWalk(cfg, mode, w, ending, latest))
  {
    hide DetachedDownTo, FlagsAfter, IndexAfter, FlagWalk, DoAll, CheckpointActs, Locate, LoadIndex, ActiveChain,
      WellFormedTree;
    FinishReaches(cfg, mode, w, ending, latest);
    WalkPlaced(chain, mid, IndexFor(picks, d), from.height + 1, w);
    if !ending.Failed? {
      EndFlags(cfg, mode, chain, d, mid, IndexFor(picks, d), from.height + 1, w);
      var c := Checkpoint(cfg, mode, w);
      WalkPlaced(chain, mid, IndexFor(picks, d), from.height + 1, c);
      WalkFlagsAfter(t, chain, before, mid, FoundAt(picks, d), HashOf(fork), IndexFor(picks, d), from.height + 1, c);
    }
  }

  lemma RunLoopMakes(t: Tree, cfg: Config, node: Node, workers: nat, stopAt: nat, picks: Picks, d: DiskState,
                     before: Status, fork: Cursor, p: Prep)
    requires WellFormedTree(t) && Stable(t, node) && p.Ready? && p.at.height < |node.chain|
    requires PrepMakes(t, picks, d, before, fork, p) && DoAll(d, p.acts).current == d.current
    ensures PassMakes(t, node.chain, picks, d, before, fork, p.at, RunLoop(cfg, node, workers, stopAt, d, p))
  {
    hide VisitAll, FinishWalk, VisitsFrom, ParallelEnd, ModeFor, DoAll, PassMakes, FlagWalk, DetachedDownTo, LoadIndex,
      Locate;
    var latest := Latest(cfg, node);
    var end := ParallelEnd(cfg, node, workers, p.at, latest);
    var v := VisitsFrom(node, stopAt, end, latest, p.at.height + 1, p.at.hash);
    VisitsAreChain(t, node, stopAt, end, latest, p.at.height + 1, p.at.hash);
    var mode, w := ModeFor(cfg, p.at, latest), StartWalk(node, d, p);
    StartMakes(node, picks, d, p);
    LoopFlags(cfg, mode, node.chain, p.flags.entries, IndexFor(picks, d), p.at.height + 1, w, |v.blocks|);
    LoopKeepsPosition(cfg, mode, node.chain, d, w, |v.blocks|);
    EO.LoopTracksDisk(cfg, mode, node.chain, d, w, |v.blocks|);
    FinishMakes(t, cfg, mode, node.chain, picks, d, before, p.flags.entries, fork, p.at,
                VisitAll(cfg, mode, w, v.blocks), v.ending, latest);
  }

  // --- Passes ------------------------------------------------------------------

  lemma PassDoes(t: Tree, cfg: Config, node: Node, workers: nat, stopAt: nat, picks: Picks, d: DiskState, flags: Flags)
    requires WellFormedTree(t) && Stable(t, node) && Sound(t, d) && ValidPicks(picks, d) && Saved(d, flags)
    requires Begun(cfg, node)
    ensures var fork := Position(cfg, node, picks, d, flags);
            PassMakes(t, node.chain, picks, d, flags.entries, fork, Rewind(fork, picks.stale),
                      RunPass(cfg, node, workers, stopAt, picks, d, flags))
  {
    hide RunLoop, Prepare, Position, Sound, ValidPicks, DoAll, DetachedDownTo, FlagsAfter, IndexAfter, LoadIndex,
      IndexClosed, IsEarliestStale, OnChain, Rewind, Locate;
    var p := Prepare(cfg, node, picks, d, flags);
    PrepareMakes(t, cfg, node, picks, d, flags);
    PrepareKeepsPosition(cfg, node, picks, d, flags);
    PreparedPosition(t, cfg, node, picks, d, flags);
    PreparedHalt(t, cfg, node, picks, d, flags);
    var fork := Position(cfg, node, picks, d, flags);
    if p.Ready? {
      RunLoopMakes(t, cfg, node, workers, stopAt, picks, d, flags.entries, fork, p);
    } else if p.outcome.CaughtUp? || p.outcome.Again? {
      HaltMakes(t, node.chain, picks, d, flags.entries, fork, p);
    }
  }

  lemma HaltMakes(t: Tree, chain: seq<Block>, picks: Picks, d: DiskState, before: Status, fork: Cursor, p: Prep)
    requires WellFormedTree(t) && PrepMakes(t, picks, d, before, fork, p) && p.Halt?
    requires p.outcome.CaughtUp? || p.outcome.Again?
    ensures PassMakes(t, chain, picks, d, before, fork, p.at, PassResult(p.acts, p.flags, p.outcome, p.at))
  {
    hide DoAll, LoadIndex, Locate, AncestorOrSelf, WellFormedTree;
    NoneVisited(chain, p.at.height + 1, p.at.height);
  }

  /** The flags found, seen from the position `end` the pass will end at: of the
      indexed blocks that it does not visit, exactly the ancestors of that
      position are canonical and not above the fork. */
  ghost predicate FlagsReady(t: Tree, idx: ByHash, chain: seq<Block>, flags: Status, pos: Hash, fork: Hash,
                             from: int, end: Cursor)
    requires WellFormedTree(t) && end.hash.Some?
  {
    forall x {:trigger x in idx} :: x in idx && x in t && !Visited(chain, from, end.height, x) ==>
      (Canonical(flags, t[x].height, x) && !(AncestorOrSelf(t, x, pos) && !AncestorOrSelf(t, x, fork))
       <==> AncestorOrSelf(t, x, end.hash.value))
  }

  lemma ReadyIff(t: Tree, idx: ByHash, idx': ByHash, chain: seq<Block>, before: Status, after: Status, pos: Hash,
                 fork: Hash, from: int, end: Cursor)
    requires WellFormedTree(t) && ActiveChain(t, chain) && end.hash.Some?
    requires 0 <= from <= end.height < |chain| ==> end.hash.value == chain[end.height].hash
    requires FlagsAfter(t, chain, before, after, pos, fork, from, end.height)
    requires IndexAfter(idx, idx', chain, from, end.height)
    ensures FlagsStand(t, idx', after, end.hash) <==> FlagsReady(t, idx, chain, before, pos, fork, from, end)
  {
    forall x | x in t && Visited(chain, from, end.height, x)
      ensures AncestorOrSelf(t, x, end.hash.value)
    {
      ChainAncestors(t, chain, x, end.height);
    }
    if FlagsStand(t, idx', after, end.hash) {
      forall x | x in idx && x in t && !Visited(chain, from, end.height, x)
        ensures Canonical(before, t[x].height, x) && !(AncestorOrSelf(t, x, pos) && !AncestorOrSelf(t, x, fork))
                <==> AncestorOrSelf(t, x, end.hash.value)
      {
        assert x in idx';
      }
    }
  }

  /** The pass from disk `d` completes at disk `e`: exactly when its flags are
      right.  Where it ends is known before it. */
  ghost predicate RightIffReady(t: Tree, cfg: Config, node: Node, workers: nat, stopAt: nat, picks: Picks,
                                d: DiskState, flags: Flags, e: DiskState)
    requires WellFormedTree(t)
  {
    var fork := Position(cfg, node, picks, d, flags);
    var from := Rewind(fork, picks.stale);
    var end := EndCursor(cfg, node, workers, stopAt, from);
    end.height >= 0 ==>
      && end.hash.Some? && e.current == Some(Pointer(end.height, end.hash.value))
      && (FlagsStand(t, LoadIndex(e.index), e.status, end.hash) <==>
          FlagsReady(t, IndexFor(picks, d), node.chain, flags.entries, FoundAt(picks, d), HashOf(fork),
                     from.height + 1, end))
  }

  lemma EndHasHash(cfg: Config, node: Node, workers: nat, stopAt: nat, from: Cursor)
    requires from.hash.Some? <==> from.height >= 0
    ensures var end := EndCursor(cfg, node, workers, stopAt, from);
            && (end.hash.Some? <==> end.height >= 0)
            && (from.height < end.height < |node.chain| ==> end.hash == Some(node.chain[end.height].hash))
  {
  }

  /** Exactly when a pass that completes leaves canonical flags that are right,
      whatever happened before it, in terms of the flags, the index and the
      position it finds. */
  lemma CompletedPassIsRightIff(t: Tree, cfg: Config, node: Node, workers: nat, stopAt: nat, picks: Picks,
                                d: DiskState, flags: Flags)
    requires WellFormedTree(t) && Stable(t, node) && Sound(t, d) && ValidPicks(picks, d) && Saved(d, flags)
    requires Begun(cfg, node)
    requires Completed(RunPass(cfg, node, workers, stopAt, picks, d, flags))
    ensures RightIffReady(t, cfg, node, workers, stopAt, picks, d, flags,
                          DoAll(d, RunPass(cfg, node, workers, stopAt, picks, d, flags).acts))
  {
    hide RunPass, Position, Sound, ValidPicks, DoAll, FlagsAfter, IndexAfter, LoadIndex, Rewind, Locate, FlagsStand,
      FlagsReady, Reconciles, EndCursor;
    var r := RunPass(cfg, node, workers, stopAt, picks, d, flags);
    var fork := Position(cfg, node, picks, d, flags);
    var from := Rewind(fork, picks.stale);
    PassDoes(t, cfg, node, workers, stopAt, picks, d, flags);
    CompletedReaches(t, cfg, node, workers, stopAt, picks, d, flags);
    EndHasHash(cfg, node, workers, stopAt, from);
    if r.reached.height >= 0 {
      ReadyIff(t, IndexFor(picks, d), LoadIndex(DoAll(d, r.acts).index), node.chain, flags.entries, r.flags.entries,
               FoundAt(picks, d), HashOf(fork), from.height + 1, r.reached);
    }
  }

  // --- Runs --------------------------------------------------------------------

  lemma StepSaves(t: Tree, cfg: Config, p: Process, e: PassEvent)
    requires WellFormedTree(t) && Sound(t, p.d) && Saved(p.d, p.flags) && ValidEvent(t, cfg, p, e)
    ensures var q := Step(t, cfg, p, e); Saved(q.d, q.flags)
  {
    hide RunLoop, Sound, ValidPicks, DoAll, Reconcile, Enter, Locate, Stable;
    var r := Result(cfg, p, e);
    if Begun(cfg, e.node) {
      hide RunPass;
      PassDoes(t, cfg, e.node, e.workers, e.stopAt, e.picks, p.d, p.flags);
    } else {
      NotBegun(cfg, p, e);
    }
    WovenReduces(p.d, Performed(cfg, p, e), e.eats);
    StatusReduced(DoWoven(p.d, Performed(cfg, p, e), e.eats), DoAll(p.d, Performed(cfg, p, e)));
  }

  lemma NotBegun(cfg: Config, p: Process, e: PassEvent)
    requires !Begun(cfg, e.node)
    ensures Result(cfg, p, e).acts == [] && Result(cfg, p, e).flags == p.flags
    ensures DoAll(p.d, []) == p.d
  {
  }

  lemma {:induction false} RunSaves(t: Tree, cfg: Config, p: Process, events: seq<PassEvent>)
    requires WellFormedTree(t) && Sound(t, p.d) && Saved(p.d, p.flags) && ValidRun(t, cfg, p, events)
    ensures var q := Run(t, cfg, p, events); Sound(t, q.d) && Saved(q.d, q.flags)
    decreases |events|
  {
    hide RunPass, Sound, Step, ValidEvent, Saved;
    if events != [] {
      StepSaves(t, cfg, p, events[0]);
      StepKeepsSound(t, cfg, p, events[0]);
      RunSaves(t, cfg, Step(t, cfg, p, events[0]), events[1..]);
    }
  }

  /** The pass `f` that follows completes: exactly when its flags are right. */
  lemma NextPassIsRightIff(t: Tree, cfg: Config, q: Process, f: PassEvent)
    requires WellFormedTree(t) && Sound(t, q.d) && Saved(q.d, q.flags)
    requires ValidEvent(t, cfg, q, f) && f.cut == None && Begun(cfg, f.node) && Completed(Result(cfg, q, f))
    ensures RightIffReady(t, cfg, f.node, f.workers, f.stopAt, f.picks, q.d, q.flags, Step(t, cfg, q, f).d)
  {
    hide RunPass, Position, Sound, Saved, ValidPicks, DoAll, LoadIndex, FlagsStand, FlagsReady, DoWoven, Rewind,
      Stable, WellFormedTree, EndCursor;
    CompletedPassIsRightIff(t, cfg, f.node, f.workers, f.stopAt, f.picks, q.d, q.flags);
    WovenReduces(q.d, Performed(cfg, q, f), f.eats);
    WovenSame(DoWoven(q.d, Performed(cfg, q, f), f.eats), DoAll(q.d, Performed(cfg, q, f)));
  }

  /** After any run from nothing, kills and aborted passes included, the next pass
      that completes leaves the flags right if and only if those it finds, in
      memory, or on disk after a restart, are ready for it. */
  lemma FlagsAfterAnyRunIff(t: Tree, cfg: Config, events: seq<PassEvent>, f: PassEvent)
    requires WellFormedTree(t) && ValidRun(t, cfg, FRESH, events)
    requires var q := Run(t, cfg, FRESH, events);
             ValidEvent(t, cfg, q, f) && f.cut == None && Begun(cfg, f.node) && Completed(Result(cfg, q, f))
    ensures var q := Run(t, cfg, FRESH, events);
            RightIffReady(t, cfg, f.node, f.workers, f.stopAt, f.picks, q.d, q.flags, Step(t, cfg, q, f).d)
  {
    hide Run, ValidRun, ValidEvent, RightIffReady, Result, Step, Sound, Saved;
    EmptyIsSound(t);
    FreshIsSaved();
    RunSaves(t, cfg, FRESH, events);
    NextPassIsRightIff(t, cfg, Run(t, cfg, FRESH, events), f);
  }

  lemma FreshIsSaved()
    ensures Saved(FRESH.d, FRESH.flags)
  {
  }

  lemma WovenSame(e: DiskState, d: DiskState)
    requires DiskReduced(e, d)
    ensures e.index == d.index && e.status == d.status && e.current == d.current
  {
  }
}
