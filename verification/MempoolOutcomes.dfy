/** What the steps of the mempool watcher mean, in terms of the node's answers:
    what every exported event and every silent drop is evidence of, and what each
    handler that completes has settled for each transaction. */
module MempoolOutcomes {
  import opened Basics
  import opened Chain
  import opened MempoolLife
  import opened MempoolNode

  // --- Evidence ------------------------------------------------------------------

  /** The first transaction other than `own` that spends one of the inputs. */
  ghost predicate SpentFirstBy(spends: seq<Option<Txid>>, own: Txid, r: Txid) {
    exists i ::
      && 0 <= i < |spends| && spends[i] == Some(r) && r != own
      && forall j :: 0 <= j < i ==> spends[j] == None || spends[j] == Some(own)
  }

  /** The node says that `r` now spends an input of the entry. */
  ghost predicate ReplacedBy(node: Node, e: FlaggedTx, r: Txid) {
    e.inputs != [] && node.spending(e).Value? && SpentFirstBy(node.spending(e).value, e.txid, r) && r != ""
  }

  ghost predicate FetchGives(node: Node, x: Txid, block: Option<Hash>, info: TxInfo) {
    node.fetch(x, block) == Value(info)
  }

  /** The block of a confirmed entry, and the node's answer about it. */
  ghost predicate Confirmations(node: Node, e: Option<FlaggedTx>, n: int) {
    && e.Some? && e.value.status.Confirmed? && e.value.blockHash.Some?
    && node.confirmations(e.value.txid, e.value.blockHash.value) == Value(n)
  }

  /** What a step of a transaction with entry `e` is evidence of.  Fetches of a
      batch are answered by the node as it was `before`. */
  ghost predicate Warranted(before: Node, node: Node, cfg: WatchConfig, e: Option<FlaggedTx>, s: Step) {
    match s
    case Forgot(_) => exists n :: Confirmations(node, e, n) && n >= cfg.forgetAfter && n != -1
    case Exported(Event(kind, tx, replacer)) =>
      match kind
      case SeenEvent =>
        && tx.matches != [] && e == None
        && (|| FetchGives(before, tx.txid, None, TxInfo(tx.inputs, tx.matches))
            || exists b :: FetchGives(node, tx.txid, b, TxInfo(tx.inputs, tx.matches)))
      case ConfirmedEvent =>
        && tx.blockHash.Some? && tx.blockHeight.Some? && node.block(tx.blockHash.value).Value?
        && tx.txid in node.block(tx.blockHash.value).value.txids
        && (|| node.block(tx.blockHash.value).value.height == tx.blockHeight.value
            || node.hashAt(tx.blockHeight.value) == Value(tx.blockHash.value))
      case UnconfirmedEvent => Confirmations(node, e, -1)
      case ReplacedEvent => e == Some(tx) && replacer.Some? && ReplacedBy(node, tx, replacer.value)
      case RemovedEvent =>
        e == Some(tx) && (tx.inputs == [] || !node.spending(tx).Down?) && forall r :: !ReplacedBy(node, tx, r)
  }

  /** Each of the steps, from entry `e` on, was warranted by one of the nodes. */
  ghost predicate AllWarranted(before: Node, nodes: nat -> Node, count: nat, cfg: WatchConfig, e: Option<FlaggedTx>,
                               steps: seq<Step>) {
    forall i :: 0 <= i < |steps| ==> SomeWarrants(before, nodes, count, cfg, ReplayOne(e, steps[..i]), steps[i])
  }

  ghost predicate SomeWarrants(before: Node, nodes: nat -> Node, count: nat, cfg: WatchConfig, e: Option<FlaggedTx>,
                               s: Step) {
    exists j: nat :: j < count && Warranted(before, nodes(j), cfg, e, s)
  }

  lemma WarrantedThen(before: Node, nodes: nat -> Node, count: nat, cfg: WatchConfig, e: Option<FlaggedTx>,
                      xs: seq<Step>, ys: seq<Step>)
    requires AllWarranted(before, nodes, count, cfg, e, xs)
    requires AllWarranted(before, nodes, count, cfg, ReplayOne(e, xs), ys)
    ensures AllWarranted(before, nodes, count, cfg, e, xs + ys)
  {
    hide SomeWarrants, ReplayOne;
    var all := xs + ys;
    forall i | 0 <= i < |all|
      ensures SomeWarrants(before, nodes, count, cfg, ReplayOne(e, all[..i]), all[i])
    {
      if i < |xs| {
        assert all[..i] == xs[..i] && all[i] == xs[i];
      } else {
        assert all[..i] == xs + ys[..i - |xs|] && all[i] == ys[i - |xs|];
        ReplayOneThen(e, xs, ys[..i - |xs|]);
      }
    }
  }

  lemma WarrantedPrefix(before: Node, nodes: nat -> Node, count: nat, cfg: WatchConfig, e: Option<FlaggedTx>,
                        xs: seq<Step>, all: seq<Step>)
    requires xs <= all && AllWarranted(before, nodes, count, cfg, e, all)
    ensures AllWarranted(before, nodes, count, cfg, e, xs)
  {
    hide SomeWarrants, ReplayOne;
    forall i | 0 <= i < |xs|
      ensures SomeWarrants(before, nodes, count, cfg, ReplayOne(e, xs[..i]), xs[i])
    {
      assert all[..i] == xs[..i] && all[i] == xs[i];
    }
  }

  /** At most one step, warranted by node `j`. */
  lemma WarrantedOne(before: Node, nodes: nat -> Node, count: nat, j: nat, cfg: WatchConfig, e: Option<FlaggedTx>,
                     steps: seq<Step>)
    requires |steps| <= 1 && j < count
    requires steps != [] ==> Warranted(before, nodes(j), cfg, e, steps[0])
    ensures AllWarranted(before, nodes, count, cfg, e, steps)
  {
    if steps != [] {
      assert steps[..0] == [];
    }
  }

  lemma {:induction false} FirstOtherIs(spends: seq<Option<Txid>>, own: Txid)
    ensures var r := FirstOther(spends, own);
            && (r.Some? ==> SpentFirstBy(spends, own, r.value))
            && forall x :: SpentFirstBy(spends, own, x) ==> r == Some(x)
  {
    if spends != [] {
      FirstOtherIs(spends[1..], own);
      var r := FirstOther(spends, own);
      if spends[0].Some? && spends[0].value != own {
        assert SpentFirstBy(spends, own, spends[0].value);
      } else {
        if r.Some? {
          var i :| 0 <= i < |spends[1..]| && spends[1..][i] == Some(r.value) && r.value != own
                   && forall j :: 0 <= j < i ==> spends[1..][j] == None || spends[1..][j] == Some(own);
          assert spends[i + 1] == Some(r.value);
          assert forall j :: 0 < j < i + 1 ==> spends[j] == spends[1..][j - 1];
        }
        forall x | SpentFirstBy(spends, own, x)
          ensures r == Some(x)
        {
          var i :| 0 <= i < |spends| && spends[i] == Some(x) && x != own
                   && forall j :: 0 <= j < i ==> spends[j] == None || spends[j] == Some(own);
          assert spends[1..][i - 1] == Some(x);
          assert SpentFirstBy(spends[1..], own, x);
        }
      }
    }
  }

  // --- What is settled -------------------------------------------------------------

  /** Nothing happened to the transaction. */
  ghost predicate Unchanged(e: Option<FlaggedTx>, mine: seq<Step>, after: Option<FlaggedTx>) {
    mine == [] && after == e
  }

  /** A confirmed entry whose block the node was asked about stays exactly if the
      block has from 0 to `forgetAfter - 1` confirmations, is dropped without an
      event exactly if it has at least `forgetAfter`, and is back in the mempool
      with one event exactly if the block has left the chain. */
  ghost predicate DepthSettled(node: Node, cfg: WatchConfig, e: Option<FlaggedTx>, mine: seq<Step>,
                               after: Option<FlaggedTx>) {
    && ((forall n :: !Confirmations(node, e, n)) ==> Unchanged(e, mine, after))
    && forall n :: Confirmations(node, e, n) ==>
         && (Unchanged(e, mine, after) <==> n != -1 && n < cfg.forgetAfter)
         && (Dropped(e.value, mine, after) <==> n != -1 && n >= cfg.forgetAfter)
         && (Unconfirms(e.value, mine, after) <==> n == -1)
  }

  ghost predicate Dropped(e: FlaggedTx, mine: seq<Step>, after: Option<FlaggedTx>) {
    mine == [Forgot(e.txid)] && after == None
  }

  ghost predicate Unconfirms(e: FlaggedTx, mine: seq<Step>, after: Option<FlaggedTx>) {
    && mine == [Exported(Event(UnconfirmedEvent, e.(status := InMempool), None))]
    && after == Some(e.(status := InMempool, blockHash := None, blockHeight := None))
  }

  /** A transaction that is not stored is, with one event, exactly if what was
      fetched of it has matches. */
  ghost predicate SeenSettled(fetched: Option<TxInfo>, tip: nat, x: Txid, e: Option<FlaggedTx>, mine: seq<Step>,
                              after: Option<FlaggedTx>) {
    if e == None && fetched.Some? && |fetched.value.matches| > 0 then
      var entry := FlaggedTx(x, tip, fetched.value.inputs, fetched.value.matches, InMempool, None, None);
      mine == [Exported(Event(SeenEvent, entry, None))] && after == Some(entry)
    else Unchanged(e, mine, after)
  }

  /** The entry is gone, with one event: `replaced` exactly if some other
      transaction spends an input. */
  ghost predicate LeftSettled(node: Node, e: FlaggedTx, mine: seq<Step>, after: Option<FlaggedTx>) {
    if e.inputs != [] && node.spending(e).Down? then Unchanged(Some(e), mine, after)
    else
      && after == None && |mine| == 1
      && (forall r :: ReplacedBy(node, e, r) ==> mine[0] == Exported(Event(ReplacedEvent, e, Some(r))))
      && ((forall r :: !ReplacedBy(node, e, r)) ==> mine[0] == Exported(Event(RemovedEvent, e, None)))
  }

  /** The entry is confirmed in the block, with one event. */
  ghost predicate Confirms(e: FlaggedTx, block: Hash, height: nat, mine: seq<Step>, after: Option<FlaggedTx>) {
    var mined := FlaggedTx(e.txid, e.firstSeenHeight, e.inputs, e.matches, Confirmed, Some(block), Some(height));
    mine == [Exported(Event(ConfirmedEvent, mined, None))] && after == Some(mined)
  }

  /** One thing after the other. */
  ghost predicate Both(mine: seq<Step>, xs: seq<Step>, ys: seq<Step>, zs: seq<Step>) {
    mine == xs + ys + zs
  }

  /** A transaction that could not be fetched before is seen if it is in the block
      and matches. */
  ghost predicate MissedSettled(node: Node, m: Memory, block: Hash, info: BlockInfo, x: Txid, e: Option<FlaggedTx>,
                                mine: seq<Step>, after: Option<FlaggedTx>) {
    if x in m.unfetched && x in info.txids
    then SeenSettled(Fetched(node, x, Some(block)), Max(m.tip, info.height), x, e, mine, after)
    else Unchanged(e, mine, after)
  }

  /** A transaction of the mempool is confirmed exactly if it is in the block. */
  ghost predicate InBlockSettled(block: Hash, info: BlockInfo, x: Txid, e: Option<FlaggedTx>, mine: seq<Step>,
                                 after: Option<FlaggedTx>) {
    if e.Some? && e.value.status.InMempool? && x in info.txids then Confirms(e.value, block, info.height, mine, after)
    else Unchanged(e, mine, after)
  }

  /** A connected block: first both of these, then the depth is settled. */
  ghost predicate BlockSettled(node: Node, cfg: WatchConfig, m: Memory, block: Hash, x: Txid, e: Option<FlaggedTx>,
                               mine: seq<Step>, after: Option<FlaggedTx>) {
    if !node.block(block).Value? then Unchanged(e, mine, after)
    else
      var info := node.block(block).value;
      exists a, b, c, e1, e2 ::
        && Both(mine, a, b, c)
        && MissedSettled(node, m, block, info, x, e, a, e1)
        && InBlockSettled(block, info, x, e1, b, e2)
        && DepthSettled(node, cfg, e2, c, after)
  }

  /** One event of a batch. */
  ghost predicate NoticeSettled(node: Node, cfg: WatchConfig, m: Memory, fetches: Fetches, n: Notice, x: Txid,
                                e: Option<FlaggedTx>, mine: seq<Step>, after: Option<FlaggedTx>) {
    match n
    case Added(y) =>
      if x == y && x in fetches then SeenSettled(fetches[x], m.tip, x, e, mine, after) else Unchanged(e, mine, after)
    case Removed(y) =>
      if x == y && e.Some? && e.value.status.InMempool? then LeftSettled(node, e.value, mine, after)
      else Unchanged(e, mine, after)
    case Connected(b) => BlockSettled(node, cfg, m, b, x, e, mine, after)
    case Disconnected(_) => DepthSettled(node, cfg, e, mine, after)
  }

  /** The heights a reconcile looks for a missing transaction at: the last
      `maxScan` up to the tip, from where it was first seen. */
  ghost predicate Scanned(cfg: WatchConfig, tip: nat, e: FlaggedTx, h: nat) {
    e.firstSeenHeight <= h <= tip && tip - h < cfg.maxScan
  }

  ghost predicate ScanAnswered(node: Node, cfg: WatchConfig, tip: nat, e: FlaggedTx) {
    forall h: nat :: Scanned(cfg, tip, e, h) ==> node.hashAt(h).Value? && node.block(node.hashAt(h).value).Value?
  }

  /** Of the scanned heights, the highest whose block lists the transaction. */
  ghost predicate ListedHighest(node: Node, cfg: WatchConfig, tip: nat, e: FlaggedTx, h: nat) {
    && Scanned(cfg, tip, e, h) && ListedAt(node, e.txid, h)
    && forall k: nat :: k > h && Scanned(cfg, tip, e, k) ==> !ListedAt(node, e.txid, k)
  }

  /** A tracked transaction that is missing from the snapshot is confirmed exactly
      if a block of the scanned heights lists it, in the highest such block, and
      has otherwise left the mempool. */
  ghost predicate MissingSettled(node: Node, cfg: WatchConfig, tip: nat, mempool: set<Txid>, e: Option<FlaggedTx>,
                                 mine: seq<Step>, after: Option<FlaggedTx>) {
    if e == None || e.value.status.Confirmed? || e.value.txid in mempool then Unchanged(e, mine, after)
    else
      ScanAnswered(node, cfg, tip, e.value) ==>
        && (forall h: nat :: ListedHighest(node, cfg, tip, e.value, h) ==>
              Confirms(e.value, node.hashAt(h).value, h, mine, after))
        && ((forall h: nat :: Scanned(cfg, tip, e.value, h) ==> !ListedAt(node, e.value.txid, h)) ==>
              LeftSettled(node, e.value, mine, after))
  }

  ghost predicate NewSettled(node: Node, mempool: set<Txid>, checked: set<Txid>, tip: nat, x: Txid,
                             e: Option<FlaggedTx>, mine: seq<Step>, after: Option<FlaggedTx>) {
    if x in mempool && x !in checked then SeenSettled(Fetched(node, x, None), tip, x, e, mine, after)
    else Unchanged(e, mine, after)
  }

  /** A reconcile that completes. */
  ghost predicate ReconcileSettled(node: Node, cfg: WatchConfig, mempool: set<Txid>, checked: set<Txid>, tip: nat,
                                   x: Txid, e: Option<FlaggedTx>, mine: seq<Step>, after: Option<FlaggedTx>) {
    exists a, b, c, e1, e2 ::
      && Both(mine, a, b, c)
      && NewSettled(node, mempool, checked, tip, x, e, a, e1)
      && MissingSettled(node, cfg, tip, mempool, e1, b, e2)
      && DepthSettled(node, cfg, e2, c, after)
  }

  // --- The steps do that -----------------------------------------------------------

  lemma DepthIsSettled(node: Node, cfg: WatchConfig, e: Option<FlaggedTx>)
    ensures DepthSettled(node, cfg, e, DepthSteps(node, cfg, e), ReplayOne(e, DepthSteps(node, cfg, e)))
  {
    if e.Some? && e.value.status.Confirmed? && e.value.blockHash.Some? {
      var answer := node.confirmations(e.value.txid, e.value.blockHash.value);
      if answer.Value? {
        assert Confirmations(node, e, answer.value);
      }
    }
  }

  lemma SeenIsSettled(fetched: Option<TxInfo>, tip: nat, x: Txid, e: Option<FlaggedTx>)
    ensures SeenSettled(fetched, tip, x, e, SeenSteps(e, x, fetched, tip), ReplayOne(e, SeenSteps(e, x, fetched, tip)))
  {
  }

  lemma LeftIsSettled(node: Node, e: FlaggedTx)
    ensures LeftSettled(node, e, LeftSteps(node, e), ReplayOne(Some(e), LeftSteps(node, e)))
  {
    if e.inputs != [] && node.spending(e).Value? {
      var spends := node.spending(e).value;
      FirstOtherIs(spends, e.txid);
      var r := FirstOther(spends, e.txid);
      assert r.Some? && r.value != "" ==> ReplacedBy(node, e, r.value);
      hide SpentFirstBy, FirstOther;
    }
  }

  lemma FetchedGives(node: Node, x: Txid, block: Option<Hash>)
    ensures Fetched(node, x, block).Some? ==> FetchGives(node, x, block, Fetched(node, x, block).value)
  {
  }

  lemma SeenIsWarranted(before: Node, node: Node, cfg: WatchConfig, block: Option<Hash>, tip: nat, x: Txid,
                        e: Option<FlaggedTx>)
    ensures var steps := SeenSteps(e, x, Fetched(node, x, block), tip);
            |steps| <= 1 && (steps != [] ==> Warranted(before, node, cfg, e, steps[0]))
    ensures var steps := SeenSteps(e, x, Fetched(before, x, None), tip);
            |steps| <= 1 && (steps != [] ==> Warranted(before, node, cfg, e, steps[0]))
  {
    FetchedGives(node, x, block);
    FetchedGives(before, x, None);
  }

  lemma LeftIsWarranted(before: Node, node: Node, cfg: WatchConfig, e: FlaggedTx)
    ensures var steps := LeftSteps(node, e);
            |steps| <= 1 && (steps != [] ==> Warranted(before, node, cfg, Some(e), steps[0]))
  {
    if e.inputs != [] && node.spending(e).Value? {
      var spends := node.spending(e).value;
      FirstOtherIs(spends, e.txid);
      var r := FirstOther(spends, e.txid);
      assert r.Some? && r.value != "" ==> ReplacedBy(node, e, r.value);
      hide SpentFirstBy, FirstOther;
    }
  }

  lemma DepthIsWarranted(before: Node, node: Node, cfg: WatchConfig, e: Option<FlaggedTx>)
    ensures var steps := DepthSteps(node, cfg, e);
            |steps| <= 1 && (steps != [] ==> Warranted(before, node, cfg, e, steps[0]))
  {
    if e.Some? && e.value.status.Confirmed? && e.value.blockHash.Some? {
      var answer := node.confirmations(e.value.txid, e.value.blockHash.value);
      if answer.Value? {
        assert Confirmations(node, e, answer.value);
      }
    }
  }

  lemma InBlockIsWarranted(before: Node, node: Node, cfg: WatchConfig, block: Hash, e: Option<FlaggedTx>, x: Txid)
    requires node.block(block).Value? && (e.Some? ==> e.value.txid == x)
    ensures var info := node.block(block).value;
            var steps := InBlockSteps(block, info, e, x);
            && |steps| <= 1 && (steps != [] ==> Warranted(before, node, cfg, e, steps[0]))
            && InBlockSettled(block, info, x, e, steps, ReplayOne(e, steps))
  {
  }

  lemma MissingIsWarranted(before: Node, node: Node, cfg: WatchConfig, tip: nat, mempool: set<Txid>,
                           e: Option<FlaggedTx>)
    ensures var steps := MissingSteps(node, cfg, tip, mempool, e);
            |steps| <= 1 && (steps != [] ==> Warranted(before, node, cfg, e, steps[0]))
  {
    if e.Some? {
      FindIsHighest(node, e.value.txid, tip, LowestScanned(cfg, tip, e.value));
      LeftIsWarranted(before, node, cfg, e.value);
    }
  }

  /** The scanned heights are those from the lowest one up. */
  lemma ScanIs(cfg: WatchConfig, tip: nat, e: FlaggedTx)
    ensures forall h: nat :: Scanned(cfg, tip, e, h) <==> LowestScanned(cfg, tip, e) <= h <= tip
  {
  }

  lemma {:induction false} ScanEnds(node: Node, x: Txid, h: int, lowest: nat)
    requires forall k: nat :: lowest <= k <= h ==> node.hashAt(k).Value? && node.block(node.hashAt(k).value).Value?
    ensures FindFrom(node, x, h, lowest).Value?
    decreases h + 1 - lowest
  {
    if h >= lowest {
      ScanEnds(node, x, h - 1, lowest);
    }
  }

  lemma MissingIsSettled(node: Node, cfg: WatchConfig, tip: nat, mempool: set<Txid>, e: Option<FlaggedTx>)
    ensures var steps := MissingSteps(node, cfg, tip, mempool, e);
            MissingSettled(node, cfg, tip, mempool, e, steps, ReplayOne(e, steps))
  {
    hide LeftSteps, LowestScanned, FindFrom, Scanned, LeftSettled;
    if e.Some? && e.value.status.InMempool? && e.value.txid !in mempool && ScanAnswered(node, cfg, tip, e.value) {
      var lowest := LowestScanned(cfg, tip, e.value);
      ScanIs(cfg, tip, e.value);
      ScanEnds(node, e.value.txid, tip, lowest);
      FindIsHighest(node, e.value.txid, tip, lowest);
      LeftIsSettled(node, e.value);
    }
  }

  // --- Handlers --------------------------------------------------------------------

  lemma SameTxid(e: Option<FlaggedTx>, x: Txid, fetched: Option<TxInfo>, tip: nat)
    requires e.Some? ==> e.value.txid == x
    ensures var after := ReplayOne(e, SeenSteps(e, x, fetched, tip)); after.Some? ==> after.value.txid == x
  {
  }

  /** A connected block. */
  lemma BlockIsSettled(before: Node, nodes: nat -> Node, count: nat, j: nat, cfg: WatchConfig, m: Memory,
                       block: Hash, x: Txid, e: Option<FlaggedTx>)
    requires j < count && (e.Some? ==> e.value.txid == x)
    ensures var steps := BlockSteps(nodes(j), cfg, m, block, e, x);
            && BlockSettled(nodes(j), cfg, m, block, x, e, steps, ReplayOne(e, steps))
            && AllWarranted(before, nodes, count, cfg, e, steps)
  {
    hide SeenSteps, InBlockSteps, DepthSteps, Warranted, ReplayOne, SeenSettled, InBlockSettled, DepthSettled,
      Unchanged, AllWarranted;
    var node := nodes(j);
    if node.block(block).Value? {
      var info := node.block(block).value;
      var tip := Max(m.tip, info.height);
      var a := MissedSteps(node, m.(tip := tip), block, info.txids, e, x);
      var e1 := ReplayOne(e, a);
      var b := InBlockSteps(block, info, e1, x);
      var e2 := ReplayOne(e1, b);
      var c := DepthSteps(node, cfg, e2);
      SeenIsSettled(Fetched(node, x, Some(block)), tip, x, e);
      SeenIsWarranted(before, node, cfg, Some(block), tip, x, e);
      SameTxid(e, x, Fetched(node, x, Some(block)), tip);
      NoStep(e);
      InBlockIsWarranted(before, node, cfg, block, e1, x);
      DepthIsSettled(node, cfg, e2);
      DepthIsWarranted(before, node, cfg, e2);
      WarrantedOne(before, nodes, count, j, cfg, e, a);
      WarrantedOne(before, nodes, count, j, cfg, e1, b);
      WarrantedOne(before, nodes, count, j, cfg, e2, c);
      ReplayOneThen(e, a, b);
      ReplayOneThen(e, a + b, c);
      WarrantedThen(before, nodes, count, cfg, e, a, b);
      WarrantedThen(before, nodes, count, cfg, e, a + b, c);
      assert Both(a + b + c, a, b, c) && MissedSettled(node, m, block, info, x, e, a, e1);
    } else {
      NoStep(e);
      WarrantedOne(before, nodes, count, j, cfg, e, []);
    }
  }

  lemma NoStep(e: Option<FlaggedTx>)
    ensures ReplayOne(e, []) == e && Unchanged(e, [], e)
  {
  }

  /** One event, whose fetches were answered before the batch. */
  lemma NoticeIsSettled(before: Node, nodes: nat -> Node, count: nat, j: nat, cfg: WatchConfig, m: Memory,
                        fetches: Fetches, n: Notice, x: Txid, e: Option<FlaggedTx>)
    requires j < count && (e.Some? ==> e.value.txid == x)
    ensures var steps := NoticeSteps(nodes(j), cfg, m, fetches, n, e, x);
            && NoticeSettled(nodes(j), cfg, m, fetches, n, x, e, steps, ReplayOne(e, steps))
            && ((forall y :: y in fetches ==> fetches[y] == Fetched(before, y, None)) ==>
                  AllWarranted(before, nodes, count, cfg, e, steps))
  {
    hide SeenSteps, LeftSteps, DepthSteps, BlockSteps, Warranted, ReplayOne, SeenSettled, LeftSettled, DepthSettled,
      BlockSettled, Unchanged, AllWarranted;
    var node := nodes(j);
    NoStep(e);
    WarrantedOne(before, nodes, count, j, cfg, e, []);
    match n
    case Added(y) =>
      if x == y && x in fetches {
        SeenIsSettled(fetches[x], m.tip, x, e);
        if forall z :: z in fetches ==> fetches[z] == Fetched(before, z, None) {
          SeenIsWarranted(before, node, cfg, None, m.tip, x, e);
          WarrantedOne(before, nodes, count, j, cfg, e, SeenSteps(e, x, fetches[x], m.tip));
        }
      }
    case Removed(y) =>
      if x == y && e.Some? && e.value.status.InMempool? {
        LeftIsSettled(node, e.value);
        LeftIsWarranted(before, node, cfg, e.value);
        WarrantedOne(before, nodes, count, j, cfg, e, LeftSteps(node, e.value));
      }
    case Connected(b) =>
      BlockIsSettled(before, nodes, count, j, cfg, m, b, x, e);
    case Disconnected(_) =>
      DepthIsSettled(node, cfg, e);
      DepthIsWarranted(before, node, cfg, e);
      WarrantedOne(before, nodes, count, j, cfg, e, DepthSteps(node, cfg, e));
  }

  ghost predicate IsOf(e: Option<FlaggedTx>, x: Txid) {
    e.Some? ==> e.value.txid == x
  }

  lemma StepsKeepTxid(node: Node, cfg: WatchConfig, block: Hash, info: BlockInfo, x: Txid, e: Option<FlaggedTx>)
    requires IsOf(e, x)
    ensures IsOf(ReplayOne(e, DepthSteps(node, cfg, e)), x)
    ensures IsOf(ReplayOne(e, InBlockSteps(block, info, e, x)), x)
    ensures e.Some? ==> IsOf(ReplayOne(e, LeftSteps(node, e.value)), x)
  {
    hide Replacement;
  }

  lemma NoticeKeepsTxid(node: Node, cfg: WatchConfig, m: Memory, fetches: Fetches, n: Notice, x: Txid,
                        e: Option<FlaggedTx>)
    requires IsOf(e, x)
    ensures IsOf(ReplayOne(e, NoticeSteps(node, cfg, m, fetches, n, e, x)), x)
  {
    hide SeenSteps, LeftSteps, DepthSteps, InBlockSteps, ReplayOne;
    NoStep(e);
    match n
    case Added(_) =>
      if x in fetches {
        SameTxid(e, x, fetches[x], m.tip);
      }
    case Removed(_) => StepsKeepTxid(node, cfg, "", BlockInfo(0, {}), x, e);
    case Disconnected(_) => StepsKeepTxid(node, cfg, "", BlockInfo(0, {}), x, e);
    case Connected(block) =>
      if node.block(block).Value? {
        var info := node.block(block).value;
        var tip := Max(m.tip, info.height);
        var a := MissedSteps(node, m.(tip := tip), block, info.txids, e, x);
        SameTxid(e, x, Fetched(node, x, Some(block)), tip);
        var e1 := ReplayOne(e, a);
        var b := InBlockSteps(block, info, e1, x);
        StepsKeepTxid(node, cfg, block, info, x, e1);
        var e2 := ReplayOne(e1, b);
        StepsKeepTxid(node, cfg, block, info, x, e2);
        ReplayOneThen(e, a, b);
        ReplayOneThen(e, a + b, DepthSteps(node, cfg, e2));
      }
  }

  /** A batch: every step of it was warranted by the node of one of its events. */
  lemma {:induction false} BatchIsWarranted(before: Node, nodes: nat -> Node, cfg: WatchConfig, m: Memory,
                                            fetches: Fetches, events: seq<Notice>, i: nat, x: Txid,
                                            e: Option<FlaggedTx>)
    requires e.Some? ==> e.value.txid == x
    requires forall y :: y in fetches ==> fetches[y] == Fetched(before, y, None)
    ensures AllWarranted(before, nodes, |events|, cfg, e, BatchSteps(nodes, cfg, m, fetches, events, i, e, x))
    decreases |events| - i
  {
    hide NoticeSteps, AllWarranted, ReplayOne, NoticeSettled;
    if i < |events| {
      var steps := NoticeSteps(nodes(i), cfg, m, fetches, events[i], e, x);
      var next := ReplayOne(e, steps);
      NoticeIsSettled(before, nodes, |events|, i, cfg, m, fetches, events[i], x, e);
      NoticeKeepsTxid(nodes(i), cfg, m, fetches, events[i], x, e);
      var m1 := NoticeMemory(nodes(i), m, fetches, events[i]);
      BatchIsWarranted(before, nodes, cfg, m1, fetches, events, i + 1, x, next);
      WarrantedThen(before, nodes, |events|, cfg, e, steps,
                    BatchSteps(nodes, cfg, m1, fetches, events, i + 1, next, x));
    } else {
      NothingWarranted(before, nodes, |events|, cfg, e);
    }
  }

  lemma NothingWarranted(before: Node, nodes: nat -> Node, count: nat, cfg: WatchConfig, e: Option<FlaggedTx>)
    ensures AllWarranted(before, nodes, count, cfg, e, [])
  {
  }

  function Only(node: Node): nat -> Node {
    _ => node
  }

  /** A reconcile. */
  lemma ReconcileIsSettled(node: Node, cfg: WatchConfig, mempool: set<Txid>, checked: set<Txid>, tip: nat, x: Txid,
                           e: Option<FlaggedTx>)
    requires e.Some? ==> e.value.txid == x
    ensures var steps := ReconcileSteps(node, cfg, mempool, checked, tip, e, x);
            && ReconcileSettled(node, cfg, mempool, checked, tip, x, e, steps, ReplayOne(e, steps))
            && AllWarranted(node, Only(node), 1, cfg, e, steps)
  {
    hide SeenSteps, MissingSteps, DepthSteps, Warranted, ReplayOne, SeenSettled, MissingSettled, DepthSettled,
      Unchanged, AllWarranted;
    var nodes := Only(node);
    var a := NewSteps(node, mempool - checked, tip, e, x);
    var e1 := ReplayOne(e, a);
    var b := MissingSteps(node, cfg, tip, mempool, e1);
    var e2 := ReplayOne(e1, b);
    var c := DepthSteps(node, cfg, e2);
    SeenIsSettled(Fetched(node, x, None), tip, x, e);
    SeenIsWarranted(node, node, cfg, None, tip, x, e);
    NoStep(e);
    MissingIsSettled(node, cfg, tip, mempool, e1);
    MissingIsWarranted(node, node, cfg, tip, mempool, e1);
    DepthIsSettled(node, cfg, e2);
    DepthIsWarranted(node, node, cfg, e2);
    WarrantedOne(node, nodes, 1, 0, cfg, e, a);
    WarrantedOne(node, nodes, 1, 0, cfg, e1, b);
    WarrantedOne(node, nodes, 1, 0, cfg, e2, c);
    ReplayOneThen(e, a, b);
    ReplayOneThen(e, a + b, c);
    WarrantedThen(node, nodes, 1, cfg, e, a, b);
    WarrantedThen(node, nodes, 1, cfg, e, a + b, c);
    assert Both(a + b + c, a, b, c) && NewSettled(node, mempool, checked, tip, x, e, a, e1);
  }

  // --- Memory ----------------------------------------------------------------------

  /** The event takes the transaction off both sets: it left the mempool, or is in
      the block. */
  predicate TakesOff(node: Node, n: Notice, x: Txid) {
    match n
    case Removed(y) => x == y
    case Connected(b) => node.block(b).Value? && x in node.block(b).value.txids
    case _ => false
  }

  /** Nothing takes the transaction off from the `i`-th event on. */
  ghost predicate StaysOn(nodes: nat -> Node, events: seq<Notice>, i: nat, x: Txid) {
    forall j :: i <= j < |events| ==> !TakesOff(nodes(j), events[j], x)
  }

  /** Some event from the `i`-th on announces the transaction, whose fetch was
      answered or not as `fetched` says, and nothing takes it off afterwards. */
  ghost predicate PutOn(nodes: nat -> Node, fetches: Fetches, events: seq<Notice>, i: nat, x: Txid, fetched: bool) {
    exists k :: i <= k < |events| && events[k] == Added(x) && x in fetches && fetches[x].Some? == fetched
                && StaysOn(nodes, events, k + 1, x)
  }

  lemma PutOnNext(nodes: nat -> Node, fetches: Fetches, events: seq<Notice>, i: nat, x: Txid, fetched: bool)
    requires i < |events|
    ensures StaysOn(nodes, events, i, x) <==> !TakesOff(nodes(i), events[i], x) && StaysOn(nodes, events, i + 1, x)
    ensures PutOn(nodes, fetches, events, i, x, fetched) <==>
              PutOn(nodes, fetches, events, i + 1, x, fetched)
              || (events[i] == Added(x) && x in fetches && fetches[x].Some? == fetched
                  && StaysOn(nodes, events, i + 1, x))
  {
    hide StaysOn;
    StaysOnNext(nodes, events, i, x);
    if PutOn(nodes, fetches, events, i, x, fetched) {
      var k :| i <= k < |events| && events[k] == Added(x) && x in fetches && fetches[x].Some? == fetched
               && StaysOn(nodes, events, k + 1, x);
      assert k > i ==> PutOn(nodes, fetches, events, i + 1, x, fetched);
    }
  }

  lemma StaysOnNext(nodes: nat -> Node, events: seq<Notice>, i: nat, x: Txid)
    requires i < |events|
    ensures StaysOn(nodes, events, i, x) <==> !TakesOff(nodes(i), events[i], x) && StaysOn(nodes, events, i + 1, x)
  {
  }

  /** After a batch a transaction waits for its block exactly if it did before, or
      was announced and could not be fetched, and nothing has taken it off since;
      it is checked exactly if it was, or was announced and fetched, and nothing
      has.  The tip is the highest height met. */
  lemma {:induction false} BatchRemembers(nodes: nat -> Node, m: Memory, fetches: Fetches, events: seq<Notice>,
                                          i: nat, x: Txid)
    requires i <= |events|
    ensures var r := BatchMemory(nodes, m, fetches, events, i);
            && (x in r.unfetched <==>
                  (x in m.unfetched && StaysOn(nodes, events, i, x)) || PutOn(nodes, fetches, events, i, x, false))
            && (x in r.checked <==>
                  (x in m.checked && StaysOn(nodes, events, i, x)) || PutOn(nodes, fetches, events, i, x, true))
            && m.tip <= r.tip
            && forall j :: i <= j < |events| && events[j].Connected? && nodes(j).block(events[j].block).Value? ==>
                 nodes(j).block(events[j].block).value.height <= r.tip
    decreases |events| - i
  {
    hide StaysOn, PutOn;
    if i < |events| {
      PutOnNext(nodes, fetches, events, i, x, false);
      PutOnNext(nodes, fetches, events, i, x, true);
      BatchRemembers(nodes, NoticeMemory(nodes(i), m, fetches, events[i]), fetches, events, i + 1, x);
    } else {
      NothingPutOn(nodes, fetches, events, i, x);
    }
  }

  lemma NothingPutOn(nodes: nat -> Node, fetches: Fetches, events: seq<Notice>, i: nat, x: Txid)
    requires i == |events|
    ensures StaysOn(nodes, events, i, x)
    ensures !PutOn(nodes, fetches, events, i, x, false) && !PutOn(nodes, fetches, events, i, x, true)
  {
  }
}
