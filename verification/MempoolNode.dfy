/** What the mempool watcher asks the node, and what each of its handlers does
    to one transaction, given the answers. */
module MempoolNode {
  import opened Basics
  import opened Chain
  import opened MempoolLife

  /** `Refused` is an RPC-level error of the node, `Down` any other failure.
      Only a refused fetch or spending query is caught. */
  datatype Answer<T> = Value(value: T) | Refused | Down

  datatype TxInfo = TxInfo(inputs: seq<Outpoint>, matches: seq<string>)

  datatype BlockInfo = BlockInfo(height: nat, txids: set<Txid>)

  /** The node during one handler.  `fetch` is getrawtransaction with the
      matching against the list, `spending` gettxspendingprevout for an entry's
      inputs, `confirmations` getblockheader on behalf of a transaction. */
  datatype Node = Node(
    fetch: (Txid, Option<Hash>) -> Answer<TxInfo>,
    spending: FlaggedTx -> Answer<seq<Option<Txid>>>,
    block: Hash -> Answer<BlockInfo>,
    confirmations: (Txid, Hash) -> Answer<int>,
    mempool: Answer<set<Txid>>,
    tip: Answer<nat>,
    hashAt: nat -> Answer<Hash>)

  datatype WatchConfig = WatchConfig(forgetAfter: int, maxScan: int)

  /** Every call is answered; fetches and spending queries may be refused. */
  ghost predicate Answers(node: Node) {
    && (forall x, b :: !node.fetch(x, b).Down?)
    && (forall e :: !node.spending(e).Down?)
    && (forall b :: node.block(b).Value?)
    && (forall x, b :: node.confirmations(x, b).Value?)
    && node.mempool.Value? && node.tip.Value?
    && (forall h :: node.hashAt(h).Value?)
  }

  /** What the watcher holds in memory only. */
  datatype Memory = Memory(checked: set<Txid>, unfetched: set<Txid>, tip: nat)

  function Fetched(node: Node, x: Txid, block: Option<Hash>): Option<TxInfo> {
    match node.fetch(x, block)
    case Value(info) => Some(info)
    case _ => None
  }

  // --- Steps of one transaction `x` with entry `e` ---------------------------

  function NewEntry(x: Txid, info: TxInfo, tip: nat): FlaggedTx {
    FlaggedTx(x, tip, info.inputs, info.matches, InMempool, None, None)
  }

  function SeenSteps(e: Option<FlaggedTx>, x: Txid, fetched: Option<TxInfo>, tip: nat): seq<Step> {
    if fetched.Some? && fetched.value.matches != [] && e.None?
    then [Exported(Event(SeenEvent, NewEntry(x, fetched.value, tip), None))]
    else []
  }

  /** The first transaction other than `own` that spends one of the inputs. */
  function FirstOther(spends: seq<Option<Txid>>, own: Txid): Option<Txid> {
    if spends == [] then None
    else if spends[0].Some? && spends[0].value != own then spends[0]
    else FirstOther(spends[1..], own)
  }

  /** None if the query fails in a way that is not caught. */
  function Replacement(node: Node, e: FlaggedTx): Option<Option<Txid>> {
    if e.inputs == [] then Some(None)
    else
      match node.spending(e)
      case Value(spends) => Some(FirstOther(spends, e.txid))
      case Refused => Some(None)
      case Down => None
  }

  function LeftSteps(node: Node, e: FlaggedTx): seq<Step> {
    match Replacement(node, e)
    case None => []
    case Some(replacer) =>
      if replacer.Some? && replacer.value != ""
      then [Exported(Event(ReplacedEvent, e, replacer))]
      else [Exported(Event(RemovedEvent, e, None))]
  }

  function Mined(e: FlaggedTx, block: Hash, height: nat): FlaggedTx {
    e.(status := Confirmed, blockHash := Some(block), blockHeight := Some(height))
  }

  function ConfirmedStep(e: FlaggedTx, block: Hash, height: nat): Step {
    Exported(Event(ConfirmedEvent, Mined(e, block, height), None))
  }

  /** The block left the active chain, or is deep enough to be forgotten. */
  function DepthSteps(node: Node, cfg: WatchConfig, e: Option<FlaggedTx>): seq<Step> {
    if e.None? || !e.value.status.Confirmed? || e.value.blockHash.None? then []
    else
      match node.confirmations(e.value.txid, e.value.blockHash.value)
      case Value(n) =>
        if n == -1 then [Exported(Event(UnconfirmedEvent, e.value.(status := InMempool), None))]
        else if n >= cfg.forgetAfter then [Forgot(e.value.txid)]
        else []
      case _ => []
  }

  // --- A block is connected --------------------------------------------------

  function MissedSteps(node: Node, m: Memory, block: Hash, txids: set<Txid>, e: Option<FlaggedTx>, x: Txid): seq<Step> {
    if x in m.unfetched && x in txids then SeenSteps(e, x, Fetched(node, x, Some(block)), m.tip) else []
  }

  function InBlockSteps(block: Hash, info: BlockInfo, e: Option<FlaggedTx>, x: Txid): seq<Step> {
    if e.Some? && e.value.status.InMempool? && x in info.txids then [ConfirmedStep(e.value, block, info.height)] else []
  }

  function BlockSteps(node: Node, cfg: WatchConfig, m: Memory, block: Hash, e: Option<FlaggedTx>, x: Txid): seq<Step> {
    match node.block(block)
    case Value(info) =>
      var a := MissedSteps(node, m.(tip := Max(m.tip, info.height)), block, info.txids, e, x);
      var b := InBlockSteps(block, info, ReplayOne(e, a), x);
      a + b + DepthSteps(node, cfg, ReplayOne(ReplayOne(e, a), b))
    case _ => []
  }

  // --- A batch of events -----------------------------------------------------

  datatype Notice = Added(txid: Txid) | Removed(txid: Txid) | Connected(block: Hash) | Disconnected(block: Hash)

  type Fetches = map<Txid, Option<TxInfo>>

  function NoticeMemory(node: Node, m: Memory, fetches: Fetches, n: Notice): Memory {
    match n
    case Added(x) =>
      if x !in fetches then m
      else if fetches[x].None? then m.(unfetched := m.unfetched + {x})
      else m.(checked := m.checked + {x})
    case Removed(x) => m.(unfetched := m.unfetched - {x}, checked := m.checked - {x})
    case Connected(b) =>
      (match node.block(b)
       case Value(info) => Memory(m.checked - info.txids, m.unfetched - info.txids, Max(m.tip, info.height))
       case _ => m)
    case Disconnected(_) => m
  }

  function NoticeSteps(node: Node, cfg: WatchConfig, m: Memory, fetches: Fetches, n: Notice, e: Option<FlaggedTx>,
                       x: Txid): seq<Step> {
    match n
    case Added(y) => if x == y && x in fetches then SeenSteps(e, x, fetches[x], m.tip) else []
    case Removed(y) => if x == y && e.Some? && e.value.status.InMempool? then LeftSteps(node, e.value) else []
    case Connected(b) => BlockSteps(node, cfg, m, b, e, x)
    case Disconnected(_) => DepthSteps(node, cfg, e)
  }

  /** The events from the `i`-th on; the node may change with every event. */
  function BatchSteps(nodes: nat -> Node, cfg: WatchConfig, m: Memory, fetches: Fetches, events: seq<Notice>, i: nat,
                      e: Option<FlaggedTx>, x: Txid): seq<Step>
    decreases |events| - i
  {
    if i >= |events| then []
    else
      var steps := NoticeSteps(nodes(i), cfg, m, fetches, events[i], e, x);
      steps + BatchSteps(nodes, cfg, NoticeMemory(nodes(i), m, fetches, events[i]), fetches, events, i + 1,
                         ReplayOne(e, steps), x)
  }

  function BatchMemory(nodes: nat -> Node, m: Memory, fetches: Fetches, events: seq<Notice>, i: nat): Memory
    decreases |events| - i
  {
    if i >= |events| then m
    else BatchMemory(nodes, NoticeMemory(nodes(i), m, fetches, events[i]), fetches, events, i + 1)
  }

  // --- Reconcile ---------------------------------------------------------------

  datatype BlockRef = BlockRef(hash: Hash, height: nat)

  /** The highest block from `h` down to `lowest` that has the transaction. */
  function FindFrom(node: Node, x: Txid, h: int, lowest: nat): Answer<Option<BlockRef>>
    decreases h + 1 - lowest
  {
    if h < lowest then Value(None)
    else
      match node.hashAt(h)
      case Value(hash) =>
        (match node.block(hash)
         case Value(info) =>
           if x in info.txids then Value(Some(BlockRef(hash, h))) else FindFrom(node, x, h - 1, lowest)
         case _ => Down)
      case _ => Down
  }

  ghost predicate ListedAt(node: Node, x: Txid, h: nat) {
    && node.hashAt(h).Value? && node.block(node.hashAt(h).value).Value?
    && x in node.block(node.hashAt(h).value).value.txids
  }

  /** The scan finds the highest block of its range that has the transaction,
      and nothing only if there is none. */
  lemma {:induction false} FindIsHighest(node: Node, x: Txid, h: int, lowest: nat)
    ensures match FindFrom(node, x, h, lowest)
            case Value(Some(b)) =>
              && lowest <= b.height <= h && ListedAt(node, x, b.height) && node.hashAt(b.height) == Value(b.hash)
              && forall k: nat :: b.height < k <= h ==> !ListedAt(node, x, k)
            case Value(None) => forall k: nat :: lowest <= k <= h ==> !ListedAt(node, x, k)
            case _ => true
    decreases h + 1 - lowest
  {
    if h >= lowest && !ListedAt(node, x, h) {
      FindIsHighest(node, x, h - 1, lowest);
    }
  }

  function LowestScanned(cfg: WatchConfig, tip: nat, e: FlaggedTx): nat {
    Max(Max(e.firstSeenHeight, tip - cfg.maxScan + 1), 0)
  }

  function FindConfirming(node: Node, cfg: WatchConfig, tip: nat, e: FlaggedTx): Answer<Option<BlockRef>> {
    FindFrom(node, e.txid, tip, LowestScanned(cfg, tip, e))
  }

  /** A tracked transaction is missing from the mempool. */
  function MissingSteps(node: Node, cfg: WatchConfig, tip: nat, mempool: set<Txid>, e: Option<FlaggedTx>): seq<Step> {
    if e.None? || !e.value.status.InMempool? || e.value.txid in mempool then []
    else
      match FindConfirming(node, cfg, tip, e.value)
      case Value(Some(b)) => [ConfirmedStep(e.value, b.hash, b.height)]
      case Value(None) => LeftSteps(node, e.value)
      case _ => []
  }

  function NewSteps(node: Node, unchecked: set<Txid>, tip: nat, e: Option<FlaggedTx>, x: Txid): seq<Step> {
    if x in unchecked then SeenSteps(e, x, Fetched(node, x, None), tip) else []
  }

  function ReconcileSteps(node: Node, cfg: WatchConfig, mempool: set<Txid>, checked: set<Txid>, tip: nat,
                          e: Option<FlaggedTx>, x: Txid): seq<Step> {
    var a := NewSteps(node, mempool - checked, tip, e, x);
    var b := MissingSteps(node, cfg, tip, mempool, ReplayOne(e, a));
    a + b + DepthSteps(node, cfg, ReplayOne(ReplayOne(e, a), b))
  }

  lemma ReplayOneThen(e: Option<FlaggedTx>, xs: seq<Step>, ys: seq<Step>)
    ensures ReplayOne(e, xs + ys) == ReplayOne(ReplayOne(e, xs), ys)
  {
    if ys == [] {
      assert xs + ys == xs;
    }
  }

  // --- For every transaction of the store --------------------------------------

  function DepthPlan(node: Node, cfg: WatchConfig, s: Store): Txid -> seq<Step> {
    x => DepthSteps(node, cfg, Lookup(s, x))
  }

  function MissedPlan(node: Node, m: Memory, block: Hash, txids: set<Txid>, s: Store): Txid -> seq<Step> {
    x => MissedSteps(node, m, block, txids, Lookup(s, x), x)
  }

  function InBlockPlan(block: Hash, info: BlockInfo, s: Store): Txid -> seq<Step> {
    x => InBlockSteps(block, info, Lookup(s, x), x)
  }

  function BlockPlan(node: Node, cfg: WatchConfig, m: Memory, block: Hash, s: Store): Txid -> seq<Step> {
    x => BlockSteps(node, cfg, m, block, Lookup(s, x), x)
  }

  function NoticePlan(node: Node, cfg: WatchConfig, m: Memory, fetches: Fetches, n: Notice,
                      s: Store): Txid -> seq<Step> {
    x => NoticeSteps(node, cfg, m, fetches, n, Lookup(s, x), x)
  }

  function BatchPlan(nodes: nat -> Node, cfg: WatchConfig, m: Memory, fetches: Fetches, events: seq<Notice>, i: nat,
                     s: Store): Txid -> seq<Step> {
    x => BatchSteps(nodes, cfg, m, fetches, events, i, Lookup(s, x), x)
  }

  function NewPlan(node: Node, unchecked: set<Txid>, tip: nat, s: Store): Txid -> seq<Step> {
    x => NewSteps(node, unchecked, tip, Lookup(s, x), x)
  }

  function MissingPlan(node: Node, cfg: WatchConfig, tip: nat, mempool: set<Txid>, s: Store): Txid -> seq<Step> {
    x => MissingSteps(node, cfg, tip, mempool, Lookup(s, x))
  }

  function ReconcilePlan(node: Node, cfg: WatchConfig, mempool: set<Txid>, checked: set<Txid>, tip: nat,
                         s: Store): Txid -> seq<Step> {
    x => ReconcileSteps(node, cfg, mempool, checked, tip, Lookup(s, x), x)
  }

  /** For each transaction the steps are those planned or, after a failure, a
      prefix of them. */
  ghost predicate Follows(ok: bool, steps: seq<Step>, plan: Txid -> seq<Step>) {
    forall x :: Of(steps, x) <= plan(x) && (ok ==> Of(steps, x) == plan(x))
  }

  /** `t` is the store `s` after `steps`, transaction by transaction. */
  ghost predicate After(s: Store, steps: seq<Step>, t: Store) {
    forall x :: Lookup(t, x) == ReplayOne(Lookup(s, x), Of(steps, x))
  }

  /** A handler that goes through the store one transaction at a time: those of
      `rest` are still to come, the store being `now`. */
  ghost predicate Partway(now: Store, s: Store, rest: set<Txid>, steps: seq<Step>, plan: Txid -> seq<Step>) {
    && (forall x :: x in rest ==> Lookup(now, x) == Lookup(s, x))
    && (forall x :: Of(steps, x) == if x in rest then [] else plan(x))
  }

  lemma PartwayBegins(s: Store, rest: set<Txid>, plan: Txid -> seq<Step>)
    requires forall x :: x !in rest ==> plan(x) == []
    ensures Partway(s, s, rest, [], plan)
  {
  }

  lemma PartwayAt(now: Store, s: Store, rest: set<Txid>, steps: seq<Step>, plan: Txid -> seq<Step>, x: Txid)
    requires Partway(now, s, rest, steps, plan) && x in rest
    ensures Lookup(now, x) == Lookup(s, x)
  {
  }

  lemma PartwayGoesOn(now: Store, next: Store, s: Store, rest: set<Txid>, steps: seq<Step>, plan: Txid -> seq<Step>,
                      x: Txid, more: seq<Step>)
    requires Partway(now, s, rest, steps, plan) && x in rest && OnlyOf(more, x) && more == plan(x)
    requires forall y :: y != x ==> Lookup(next, y) == Lookup(now, y)
    ensures Partway(next, s, rest - {x}, steps + more, plan)
  {
    hide Of;
    OfMore(steps, more, x);
  }

  lemma PartwayFollows(now: Store, s: Store, rest: set<Txid>, steps: seq<Step>, plan: Txid -> seq<Step>)
    requires Partway(now, s, rest, steps, plan)
    ensures Follows(rest == {}, steps, plan) && Follows(false, steps, plan)
  {
  }

  lemma NoEntryNoSteps(node: Node, cfg: WatchConfig, block: Hash, info: BlockInfo, tip: nat, mempool: set<Txid>,
                       s: Store)
    ensures forall x :: x !in s.Keys ==> DepthPlan(node, cfg, s)(x) == []
    ensures forall x :: x !in s.Keys ==> InBlockPlan(block, info, s)(x) == []
    ensures forall x :: x !in s.Keys ==> MissingPlan(node, cfg, tip, mempool, s)(x) == []
  {
  }

  lemma BlockUnknown(node: Node, cfg: WatchConfig, block: Hash, m: Memory, s: Store)
    ensures Answers(node) ==> node.block(block).Value?
    ensures !node.block(block).Value? ==> Follows(false, [], BlockPlan(node, cfg, m, block, s))
  {
  }

  lemma BlockFails(node: Node, cfg: WatchConfig, block: Hash, info: BlockInfo, m: Memory, s: Store, first: seq<Step>)
    requires node.block(block) == Value(info)
    requires Follows(false, first, MissedPlan(node, m.(tip := Max(m.tip, info.height)), block, info.txids, s))
    ensures Follows(false, first, BlockPlan(node, cfg, m, block, s))
  {
    hide MissedSteps, InBlockSteps, DepthSteps, ReplayOne, Of;
  }

  lemma BlockFollows(ok: bool, node: Node, cfg: WatchConfig, block: Hash, info: BlockInfo, m: Memory, s: Store,
                     s1: Store, s2: Store, first: seq<Step>, second: seq<Step>, third: seq<Step>)
    requires node.block(block) == Value(info)
    requires Follows(true, first, MissedPlan(node, m.(tip := Max(m.tip, info.height)), block, info.txids, s))
    requires After(s, first, s1)
    requires Follows(true, second, InBlockPlan(block, info, s1)) && After(s1, second, s2)
    requires Follows(ok, third, DepthPlan(node, cfg, s2))
    ensures Follows(ok, first + second + third, BlockPlan(node, cfg, m, block, s))
  {
    hide MissedSteps, InBlockSteps, DepthSteps, ReplayOne, Of;
    forall x
      ensures var mine := Of(first + second + third, x);
              var all := BlockSteps(node, cfg, m, block, Lookup(s, x), x);
              mine <= all && (ok ==> mine == all)
    {
      OfConcat(first + second, third, x);
      OfConcat(first, second, x);
    }
  }

  /** The events of the batch that ask for a fetch beforehand. */
  function ToFetch(events: seq<Notice>, checked: set<Txid>): set<Txid> {
    set n | n in events && n.Added? && n.txid !in checked :: n.txid
  }

  /** Events `0..i` of the batch gave `steps` and led from `s` to `t`. */
  ghost predicate SoFar(nodes: nat -> Node, cfg: WatchConfig, m0: Memory, fetches: Fetches, events: seq<Notice>,
                        s: Store, i: nat, m: Memory, t: Store, steps: seq<Step>) {
    && BatchMemory(nodes, m0, fetches, events, 0) == BatchMemory(nodes, m, fetches, events, i)
    && forall x :: BatchSteps(nodes, cfg, m0, fetches, events, 0, Lookup(s, x), x)
                == Of(steps, x) + BatchSteps(nodes, cfg, m, fetches, events, i, Lookup(t, x), x)
  }

  lemma BatchBegins(nodes: nat -> Node, cfg: WatchConfig, m: Memory, fetches: Fetches, events: seq<Notice>, s: Store)
    ensures SoFar(nodes, cfg, m, fetches, events, s, 0, m, s, [])
    ensures Follows(false, [], BatchPlan(nodes, cfg, m, fetches, events, 0, s))
  {
  }

  /** One more event is handled, or fails on the way. */
  lemma BatchGoesOn(nodes: nat -> Node, cfg: WatchConfig, m0: Memory, fetches: Fetches, events: seq<Notice>, s: Store,
                    i: nat, m: Memory, t: Store, steps: seq<Step>, ok: bool, more: seq<Step>, u: Store)
    requires i < |events| && SoFar(nodes, cfg, m0, fetches, events, s, i, m, t, steps)
    requires Follows(ok, more, NoticePlan(nodes(i), cfg, m, fetches, events[i], t)) && After(t, more, u)
    ensures ok ==> SoFar(nodes, cfg, m0, fetches, events, s, i + 1, NoticeMemory(nodes(i), m, fetches, events[i]), u,
                         steps + more)
    ensures Follows(false, steps + more, BatchPlan(nodes, cfg, m0, fetches, events, 0, s))
  {
    hide NoticeSteps, ReplayOne, Of, NoticeMemory;
    var m1 := NoticeMemory(nodes(i), m, fetches, events[i]);
    forall x
      ensures var all := BatchSteps(nodes, cfg, m0, fetches, events, 0, Lookup(s, x), x);
              && Of(steps + more, x) <= all
              && (ok ==>
                    all == Of(steps + more, x) + BatchSteps(nodes, cfg, m1, fetches, events, i + 1, Lookup(u, x), x))
    {
      OfConcat(steps, more, x);
      var here := NoticeSteps(nodes(i), cfg, m, fetches, events[i], Lookup(t, x), x);
      var rest := BatchSteps(nodes, cfg, m1, fetches, events, i + 1, ReplayOne(Lookup(t, x), here), x);
      assert BatchSteps(nodes, cfg, m, fetches, events, i, Lookup(t, x), x) == here + rest;
      assert Of(steps, x) + (here + rest) == Of(steps, x) + here + rest;
    }
  }

  lemma BatchEnds(nodes: nat -> Node, cfg: WatchConfig, m0: Memory, fetches: Fetches, events: seq<Notice>, s: Store,
                  m: Memory, t: Store, steps: seq<Step>)
    requires SoFar(nodes, cfg, m0, fetches, events, s, |events|, m, t, steps)
    ensures Follows(true, steps, BatchPlan(nodes, cfg, m0, fetches, events, 0, s))
    ensures BatchMemory(nodes, m0, fetches, events, 0) == m
  {
  }

  // --- A reconcile --------------------------------------------------------------

  /** The part of the snapshot that `todo` lists is still to be fetched. */
  ghost predicate NewSoFar(node: Node, unchecked: set<Txid>, todo: set<Txid>, tip: nat, s: Store, steps: seq<Step>) {
    forall x :: Of(steps, x) == if x in todo then [] else NewSteps(node, unchecked, tip, Lookup(s, x), x)
  }

  /** Those whose fetch succeeds. */
  function FetchedOf(node: Node, txids: set<Txid>): set<Txid> {
    set x | x in txids && Fetched(node, x, None).Some?
  }

  lemma FetchedOneMore(node: Node, some: set<Txid>, x: Txid)
    ensures FetchedOf(node, some + {x}) == FetchedOf(node, some) + if Fetched(node, x, None).Some? then {x} else {}
  {
  }

  lemma NewOneMore(node: Node, unchecked: set<Txid>, todo: set<Txid>, tip: nat, s: Store, steps: seq<Step>, x: Txid,
                   more: seq<Step>)
    requires NewSoFar(node, unchecked, todo, tip, s, steps) && x in todo && todo <= unchecked
    requires more == SeenSteps(Lookup(s, x), x, Fetched(node, x, None), tip)
    ensures NewSoFar(node, unchecked, todo - {x}, tip, s, steps + more)
  {
    hide Of;
    OfMore(steps, more, x);
  }

  lemma ReconcileFollows(ok: bool, node: Node, cfg: WatchConfig, mempool: set<Txid>, checked: set<Txid>, tip: nat,
                         s: Store, s1: Store, s2: Store, first: seq<Step>, second: seq<Step>, third: seq<Step>)
    requires Follows(true, first, NewPlan(node, mempool - checked, tip, s)) && After(s, first, s1)
    requires Follows(true, second, MissingPlan(node, cfg, tip, mempool, s1)) && After(s1, second, s2)
    requires Follows(ok, third, DepthPlan(node, cfg, s2))
    ensures Follows(ok, first + second + third, ReconcilePlan(node, cfg, mempool, checked, tip, s))
  {
    hide NewSteps, MissingSteps, DepthSteps, ReplayOne, Of;
    forall x
      ensures var mine := Of(first + second + third, x);
              var all := ReconcileSteps(node, cfg, mempool, checked, tip, Lookup(s, x), x);
              mine <= all && (ok ==> mine == all)
    {
      OfConcat(first + second, third, x);
      OfConcat(first, second, x);
    }
  }

  lemma ReconcileFails(node: Node, cfg: WatchConfig, mempool: set<Txid>, checked: set<Txid>, tip: nat,
                       s: Store, s1: Store, first: seq<Step>, second: seq<Step>)
    requires Follows(true, first, NewPlan(node, mempool - checked, tip, s)) && After(s, first, s1)
    requires Follows(false, second, MissingPlan(node, cfg, tip, mempool, s1))
    ensures Follows(false, first + second, ReconcilePlan(node, cfg, mempool, checked, tip, s))
  {
    hide NewSteps, MissingSteps, DepthSteps, ReplayOne, Of;
    forall x
      ensures Of(first + second, x) <= ReconcileSteps(node, cfg, mempool, checked, tip, Lookup(s, x), x)
    {
      OfConcat(first, second, x);
    }
  }

  lemma ReconcileNotBegun(node: Node, cfg: WatchConfig, mempool: set<Txid>, checked: set<Txid>, tip: nat, s: Store,
                          first: seq<Step>)
    requires Follows(false, first, NewPlan(node, mempool - checked, tip, s))
    ensures Follows(false, first, ReconcilePlan(node, cfg, mempool, checked, tip, s))
  {
    hide NewSteps, MissingSteps, DepthSteps, ReplayOne, Of;
  }

  /** All questions about the missing transactions outside `rest` were answered. */
  ghost predicate Resolved(node: Node, cfg: WatchConfig, tip: nat, mempool: set<Txid>, s: Store, rest: set<Txid>) {
    forall x :: x in s && x !in rest && s[x].status.InMempool? && s[x].txid !in mempool ==>
      MissingSteps(node, cfg, tip, mempool, Lookup(s, x)) != []
  }

  ghost predicate TurnedUnconfirmed(steps: seq<Step>) {
    exists i :: 0 <= i < |steps| && steps[i].Exported? && steps[i].event.kind.UnconfirmedEvent?
  }

  /** An entry that is in the mempool after a reconcile is in the snapshot, or
      its block left the chain during the reconcile. */
  lemma StillInMempool(node: Node, cfg: WatchConfig, mempool: set<Txid>, checked: set<Txid>, tip: nat,
                       e: Option<FlaggedTx>, x: Txid)
    requires e.Some? ==> e.value.txid == x
    requires var e1 := ReplayOne(e, NewSteps(node, mempool - checked, tip, e, x));
             e1.Some? && e1.value.status.InMempool? && x !in mempool ==> MissingSteps(node, cfg, tip, mempool, e1) != []
    ensures var steps := ReconcileSteps(node, cfg, mempool, checked, tip, e, x);
            var after := ReplayOne(e, steps);
            after.Some? && after.value.status.InMempool? ==> x in mempool || TurnedUnconfirmed(steps)
  {
    var a := NewSteps(node, mempool - checked, tip, e, x);
    var e1 := ReplayOne(e, a);
    var b := MissingSteps(node, cfg, tip, mempool, e1);
    var e2 := ReplayOne(e1, b);
    var c := DepthSteps(node, cfg, e2);
    ReplayOneThen(e, a, b);
    ReplayOneThen(e, a + b, c);
    if x !in mempool && c != [] && c[0].Exported? {
      assert (a + b + c)[|a + b|] == c[0];
    }
  }
}
