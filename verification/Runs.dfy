/** Whole runs of rpc-ingest: passes on changing chains, RPC outages, stop
    requests, kills between any two durable steps, restarts, and a consumer
    that deletes exported parts at any time. */
module Runs {
  import opened Basics
  import opened Chain
  import opened IndexFile
  import opened DiskModel
  import opened Pass
  import opened CrashSafety
  import PF = PartFiles
  import PR = PartRuns

  // --- The consumer --------------------------------------------------------

  ghost function EatParts(d: DiskState, gone: Quad<set<nat>>): DiskState {
    d.(parts := Quad(PF.Eat(d.parts.blocks, gone.blocks), PF.Eat(d.parts.transactions, gone.transactions),
                     PF.Eat(d.parts.inputs, gone.inputs), PF.Eat(d.parts.outputs, gone.outputs)))
  }

  /** `e` is `d` with some exported parts deleted. */
  ghost predicate DiskReduced(e: DiskState, d: DiskState) {
    && e == d.(parts := e.parts)
    && forall k :: PR.Reduced(e.parts.At(k), d.parts.At(k))
  }

  /** `acts` with deletions before, between and after them. */
  ghost function DoWoven(d: DiskState, acts: seq<Action>, eats: seq<Quad<set<nat>>>): DiskState
    requires |eats| == |acts| + 1
    decreases |acts|
  {
    if acts == [] then EatParts(d, eats[0])
    else
      var n := |acts| - 1;
      EatParts(Do(DoWoven(d, acts[..n], eats[..n + 1]), acts[n]), eats[n + 1])
  }

  lemma EatReduces(d: DiskState, gone: Quad<set<nat>>)
    ensures DiskReduced(EatParts(d, gone), d)
  {
    forall k
      ensures PR.Reduced(EatParts(d, gone).parts.At(k), d.parts.At(k))
    {
      match k
      case Blocks =>
      case Transactions =>
      case Inputs =>
      case Outputs =>
    }
  }

  lemma ReducedDo(e: DiskState, d: DiskState, a: Action)
    requires DiskReduced(e, d)
    ensures DiskReduced(Do(e, a), Do(d, a))
  {
    forall k
      ensures PR.Reduced(Do(e, a).parts.At(k), Do(d, a).parts.At(k))
    {
      assert PR.Reduced(e.parts.At(k), d.parts.At(k));
    }
  }

  lemma ReducedTrans(f: DiskState, e: DiskState, d: DiskState)
    requires DiskReduced(f, e) && DiskReduced(e, d)
    ensures DiskReduced(f, d)
  {
    forall k
      ensures PR.Reduced(f.parts.At(k), d.parts.At(k))
    {
      assert PR.Reduced(f.parts.At(k), e.parts.At(k)) && PR.Reduced(e.parts.At(k), d.parts.At(k));
    }
  }

  lemma {:induction false} WovenReduces(d: DiskState, acts: seq<Action>, eats: seq<Quad<set<nat>>>)
    requires |eats| == |acts| + 1
    ensures DiskReduced(DoWoven(d, acts, eats), DoAll(d, acts))
    decreases |acts|
  {
    if acts == [] {
      EatReduces(d, eats[0]);
    } else {
      var n := |acts| - 1;
      var e := DoWoven(d, acts[..n], eats[..n + 1]);
      WovenReduces(d, acts[..n], eats[..n + 1]);
      ReducedDo(e, DoAll(d, acts[..n]), acts[n]);
      EatReduces(Do(e, acts[n]), eats[n + 1]);
      ReducedTrans(DoWoven(d, acts, eats), Do(e, acts[n]), DoAll(d, acts));
    }
  }

  lemma ReducedSound(t: Tree, e: DiskState, d: DiskState)
    requires Sound(t, d) && DiskReduced(e, d)
    ensures Sound(t, e)
  {
    forall k
      ensures PF.Consistent(e.parts.At(k)) && PF.Grows(d.parts.At(k), e.parts.At(k))
    {
      assert PF.Consistent(d.parts.At(k)) && PR.Reduced(e.parts.At(k), d.parts.At(k));
      PR.ReducedConsistent(e.parts.At(k), d.parts.At(k));
    }
    GrownPartsKeepNotAhead(t, LoadIndex(d.index), d.parts, e.parts);
    assert PR.Reduced(e.parts.At(Blocks), d.parts.At(Blocks));
  }

  // --- Runs ----------------------------------------------------------------

  /** The process between two passes: the disk and the flags in memory. */
  datatype Process = Process(d: DiskState, flags: Flags)

  /** A fresh process reads everything back from disk. */
  function Restarted(d: DiskState): Process {
    Process(d, Flags(d.status, false))
  }

  /** One pass: the node it meets, the worker count, the stop flag and, with a
      `cut`, the point at which it is killed.  `eats` are the deletions woven
      into it; one that precedes the scan of the seeding belongs to the event
      before. */
  datatype PassEvent = PassEvent(
    node: Node,
    workers: nat,
    stopAt: nat,
    picks: Picks,
    cut: Option<nat>,
    eats: seq<Quad<set<nat>>>)

  ghost function Result(cfg: Config, p: Process, e: PassEvent): PassResult {
    RunPass(cfg, e.node, e.workers, e.stopAt, e.picks, p.d, p.flags)
  }

  ghost function Performed(cfg: Config, p: Process, e: PassEvent): seq<Action>
    requires e.cut.Some? ==> e.cut.value <= |Result(cfg, p, e).acts|
  {
    var acts := Result(cfg, p, e).acts;
    if e.cut.Some? then acts[..e.cut.value] else acts
  }

  ghost predicate ValidEvent(t: Tree, cfg: Config, p: Process, e: PassEvent) {
    && Stable(t, e.node)
    && ValidPicks(e.picks, p.d)
    && (e.cut.Some? ==> SafeKill(Result(cfg, p, e).acts, e.cut.value))
    && |e.eats| == |Performed(cfg, p, e)| + 1
  }

  ghost function Step(t: Tree, cfg: Config, p: Process, e: PassEvent): Process
    requires ValidEvent(t, cfg, p, e)
  {
    var r := Result(cfg, p, e);
    var d := DoWoven(p.d, Performed(cfg, p, e), e.eats);
    if e.cut.Some? || r.outcome.Fatal? then Restarted(d) else Process(d, r.flags)
  }

  ghost predicate ValidRun(t: Tree, cfg: Config, p: Process, events: seq<PassEvent>)
    decreases |events|
  {
    events == [] || (ValidEvent(t, cfg, p, events[0]) && ValidRun(t, cfg, Step(t, cfg, p, events[0]), events[1..]))
  }

  ghost function Run(t: Tree, cfg: Config, p: Process, events: seq<PassEvent>): Process
    requires ValidRun(t, cfg, p, events)
    decreases |events|
  {
    if events == [] then p else Run(t, cfg, Step(t, cfg, p, events[0]), events[1..])
  }

  const FRESH := Process(EMPTY_DISK, Flags(map[], false))

  lemma StepKeepsSound(t: Tree, cfg: Config, p: Process, e: PassEvent)
    requires WellFormedTree(t) && Sound(t, p.d) && ValidEvent(t, cfg, p, e)
    ensures Sound(t, Step(t, cfg, p, e).d)
  {
    var acts := Result(cfg, p, e).acts;
    PassKeepsSound(t, cfg, e.node, e.workers, e.stopAt, e.picks, p.d, p.flags);
    WovenReduces(p.d, Performed(cfg, p, e), e.eats);
    ReducedSound(t, DoWoven(p.d, Performed(cfg, p, e), e.eats), DoAll(p.d, Performed(cfg, p, e)));
  }

  lemma {:induction false} RunKeepsSound(t: Tree, cfg: Config, p: Process, events: seq<PassEvent>)
    requires WellFormedTree(t) && Sound(t, p.d) && ValidRun(t, cfg, p, events)
    ensures Sound(t, Run(t, cfg, p, events).d)
    decreases |events|
  {
    if events != [] {
      StepKeepsSound(t, cfg, p, events[0]);
      RunKeepsSound(t, cfg, Step(t, cfg, p, events[0]), events[1..]);
    }
  }

  /** In every run from nothing: a block indexed at the current schema has all
      its rows in all four logical CSVs, each in a part that was exported or in
      the open part. */
  lemma IndexNeverAheadOfExports(t: Tree, cfg: Config, events: seq<PassEvent>)
    requires WellFormedTree(t) && ValidRun(t, cfg, FRESH, events)
    ensures var d := Run(t, cfg, FRESH, events).d;
            var idx := LoadIndex(d.index);
            forall h :: h in idx && idx[h].version >= CURRENT_SCHEMA ==>
              h in t && Delivered(d.parts, t[h])
  {
    EmptyIsSound(t);
    RunKeepsSound(t, cfg, FRESH, events);
  }

  /** In every run from nothing the index is closed under predecessors, down
      to a block of height 0, and the stored position is indexed. */
  lemma PredecessorsAreIndexed(t: Tree, cfg: Config, events: seq<PassEvent>)
    requires WellFormedTree(t) && ValidRun(t, cfg, FRESH, events)
    ensures var d := Run(t, cfg, FRESH, events).d;
            var idx := LoadIndex(d.index);
            && (forall h :: h in idx ==>
                  if idx[h].height == 0 then idx[h].prev == NO_HASH
                  else idx[h].prev in idx && idx[idx[h].prev].height == idx[h].height - 1)
            && (d.current.Some? ==>
                  d.current.value.hash in idx && idx[d.current.value.hash].height == d.current.value.height)
  {
    EmptyIsSound(t);
    RunKeepsSound(t, cfg, FRESH, events);
  }

  /** So no pass meets an unindexed block: after any run from nothing, whatever
      node the next pass asks, and whether it starts at the stored position or,
      current.csv being absent after a kill, at one it seeds from the blocks on
      disk, the walk back from there never leaves the index. */
  lemma RecoveryFindsEveryBlock(t: Tree, cfg: Config, events: seq<PassEvent>, node: Node, picks: Picks)
    requires WellFormedTree(t) && ValidRun(t, cfg, FRESH, events) && ActiveChain(t, node.chain)
    requires ValidPicks(picks, Run(t, cfg, FRESH, events).d)
    ensures var d := Run(t, cfg, FRESH, events).d;
            var found := Locate(d, picks.top);
            found.pointer.Some? && found.pointer.value.height < |node.chain| ==>
              !WalkBackFrom(LoadIndex(DoAll(d, found.acts).index), node, cfg.maxReorgDepth, found.pointer.value,
                            []).Unindexed?
  {
    EmptyIsSound(t);
    RunKeepsSound(t, cfg, FRESH, events);
    var d := Run(t, cfg, FRESH, events).d;
    var found := Locate(d, picks.top);
    LocateKeepsSound(t, d, picks.top);
    if found.pointer.Some? && found.pointer.value.height < |node.chain| {
      WalkBackStaysIndexed(t, LoadIndex(DoAll(d, found.acts).index), node, cfg.maxReorgDepth, found.pointer.value, []);
    }
  }
}
