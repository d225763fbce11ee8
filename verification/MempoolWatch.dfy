/** MempoolWatcher and FlaggedTxStore, updating the store and the two files in
    place.  Every handler records, for each transaction, exactly the steps that
    MempoolNode gives it; a failing call leaves a prefix of them. */
module MempoolWatch {
  import opened Basics
  import opened Chain
  import opened MempoolLife
  import opened MempoolNode
  import opened MempoolOutcomes

  /** sanctioned_tx_events.csv and flagged.json. */
  class WatchFiles {
    var events: seq<Event>
    var flagged: Store
    ghost var done: seq<Durable>

    constructor (events: seq<Event>, flagged: Store)
      ensures this.events == events && this.flagged == flagged && done == []
    {
      this.events, this.flagged, done := events, flagged, [];
    }

    method Export(e: Event)
      modifies this
      ensures events == old(events) + [e] && flagged == old(flagged) && done == old(done) + [LogRow(e)]
    {
      events := events + [e];
      done := done + [LogRow(e)];
    }

    method Replace(s: Store)
      modifies this
      ensures events == old(events) && flagged == s && done == old(done) + [Save(s)]
    {
      flagged := s;
      done := done + [Save(s)];
    }
  }

  class FlaggedTxStore {
    const files: WatchFiles
    var entries: Store

    constructor (files: WatchFiles)
      ensures this.files == files && entries == files.flagged
    {
      this.files := files;
      entries := files.flagged;
    }

    /** An entry is changed in memory, through a reference to it. */
    method Change(e: FlaggedTx)
      modifies this
      ensures entries == old(entries)[e.txid := e]
    {
      entries := entries[e.txid := e];
    }

    method Put(e: FlaggedTx)
      modifies this, files
      ensures entries == old(entries)[e.txid := e] && files.flagged == entries && files.events == old(files.events)
      ensures files.done == old(files.done) + [Save(entries)]
    {
      entries := entries[e.txid := e];
      files.Replace(entries);
    }

    /** The file is rewritten only if there was an entry. */
    method Remove(x: Txid)
      modifies this, files
      ensures entries == old(entries) - {x} && files.events == old(files.events)
      ensures x in old(entries) ==> files.flagged == entries && files.done == old(files.done) + [Save(entries)]
      ensures x !in old(entries) ==> files.flagged == old(files.flagged) && files.done == old(files.done)
    {
      if x in entries {
        entries := entries - {x};
        files.Replace(entries);
      } else {
        assert entries - {x} == entries;
      }
    }
  }

  const RECONCILE_CHUNK := 500

  datatype Ended = Completed | StopRequested | Unreachable

  class MempoolWatcher {
    const files: WatchFiles
    const store: FlaggedTxStore
    const cfg: WatchConfig
    var checked: set<Txid>
    var unfetched: set<Txid>
    var tip: nat
    ghost const loaded: Store
    ghost const logged: seq<Event>
    ghost var history: seq<Step>

    function Mem(): Memory
      reads this
    {
      Memory(checked, unfetched, tip)
    }

    /** Between handlers memory, file and log agree with the history since the
        process loaded the store, and every kill point so far was safe. */
    ghost predicate Valid()
      reads this`history, files, store
    {
      && store.files == files
      && files.flagged == store.entries == Replay(loaded, history)
      && WellFormed(loaded) && WellFormed(store.entries)
      && Level(loaded, files.done, history) && LogBeforeStore(loaded, files.done)
      && files.events == logged + Events(history)
    }

    constructor (files: WatchFiles, cfg: WatchConfig)
      requires WellFormed(files.flagged) && files.done == []
      ensures Valid() && fresh(store) && this.files == files && this.cfg == cfg
      ensures history == [] && loaded == files.flagged && Mem() == Memory({}, {}, 0)
    {
      this.files, this.cfg := files, cfg;
      store := new FlaggedTxStore(files);
      checked, unfetched, tip := {}, {}, 0;
      loaded, logged, history := files.flagged, files.events, [];
      new;
      assert files.events + [] == files.events;
      assert files.done[..0] == [] && Explains(loaded, [], []);
    }

    /** The history was extended by `steps`. */
    ghost predicate Recorded(before: seq<Step>, steps: seq<Step>)
      reads this`history
    {
      history == before + steps
    }

    ghost predicate OthersKept(before: Store, x: Txid)
      reads store
    {
      forall y :: y != x ==> Lookup(store.entries, y) == Lookup(before, y)
    }

    /** At every boundary between handlers, in a process that loaded what the
        ones before it had saved: the log holds the events of the whole history,
        and those of each transaction are whole lifecycles, with an open one
        exactly while the store has the transaction. */
    lemma LogHasWholeLives(past: seq<Step>, x: Txid)
      requires Valid() && Lawful(map[], past) && loaded == Replay(map[], past) && logged == Events(past)
      ensures files.events == Events(past + history)
      ensures WholeLives(Word(Of(past + history, x)), Lookup(files.flagged, x))
    {
      ReplayConcat(map[], past, history);
      EventsConcat(past, history);
      EventsAreLifecycles(past + history, x);
    }

    lemma EntryIsOwn(x: Txid)
      requires Valid() && x in store.entries
      ensures store.entries[x].txid == x
    {
    }

    /** The durable steps of one step of the history keep everything in order. */
    lemma StepRecorded(before: Store, done: seq<Durable>, past: seq<Step>, step: Step)
      requires store.files == files && WellFormed(loaded) && WellFormed(before)
      requires Level(loaded, done, past) && LogBeforeStore(loaded, done) && before == Replay(loaded, past)
      requires Legal(before, step) && history == past + [step]
      requires files.done == done + DurableOf(before, step)
      requires files.flagged == store.entries == Next(before, step)
      requires files.events == logged + Events(past) + (if step.Exported? then [step.event] else [])
      ensures Valid()
    {
      StepKeepsLogBeforeStore(loaded, done, past, step);
      assert history[..|past|] == past;
      assert files.events == logged + Events(history);
    }

    /** The store, transaction by transaction. */
    lemma EntryAfter(before: Store, past: seq<Step>, steps: seq<Step>, x: Txid)
      requires Valid() && before == Replay(loaded, past) && history == past + steps
      ensures Lookup(store.entries, x) == ReplayOne(Lookup(before, x), Of(steps, x))
    {
      ReplayConcat(loaded, past, steps);
      ReplayIsPointwise(before, steps, x);
    }

    // --- Single transactions -------------------------------------------------

    method OnAdded(x: Txid, fetched: Option<TxInfo>) returns (ghost steps: seq<Step>)
      requires Valid()
      modifies this`checked, this`history, store, files
      ensures Valid() && Recorded(old(history), steps)
      ensures checked == if fetched.Some? then old(checked) + {x} else old(checked)
      ensures steps == SeenSteps(Lookup(old(store.entries), x), x, fetched, tip)
      ensures OnlyOf(steps, x) && OthersKept(old(store.entries), x)
    {
      hide LogBeforeStore, Level, WellFormed;
      steps := [];
      assert history + [] == history;
      if fetched.None? {
        return;
      }
      checked := checked + {x};
      if fetched.value.matches == [] || x in store.entries {
        return;
      }
      var entry := NewEntry(x, fetched.value, tip);
      var event := Event(SeenEvent, entry, None);
      files.Export(event);
      store.Put(entry);
      steps := [Exported(event)];
      history := history + steps;
      StepRecorded(old(store.entries), old(files.done), old(history), Exported(event));
    }

    method MarkConfirmed(entry: FlaggedTx, block: Hash, height: nat) returns (ghost steps: seq<Step>)
      requires Valid() && Lookup(store.entries, entry.txid) == Some(entry) && entry.status.InMempool?
      modifies this`history, store, files
      ensures Valid() && Recorded(old(history), steps)
      ensures steps == [ConfirmedStep(entry, block, height)]
      ensures OnlyOf(steps, entry.txid) && OthersKept(old(store.entries), entry.txid)
    {
      hide LogBeforeStore, Level, WellFormed;
      var changed := Mined(entry, block, height);
      store.Change(changed);
      files.Export(Event(ConfirmedEvent, changed, None));
      store.Put(changed);
      steps := [ConfirmedStep(entry, block, height)];
      history := history + steps;
      assert store.entries == Next(old(store.entries), steps[0]);
      StepRecorded(old(store.entries), old(files.done), old(history), steps[0]);
    }

    /** A tracked transaction left the mempool without being mined. */
    method OnLeftUnmined(node: Node, entry: FlaggedTx) returns (ok: bool, ghost steps: seq<Step>)
      requires Valid() && Lookup(store.entries, entry.txid) == Some(entry) && entry.status.InMempool?
      modifies this`history, store, files
      ensures Valid() && Recorded(old(history), steps)
      ensures steps == LeftSteps(node, entry) && (ok <==> Replacement(node, entry).Some?)
      ensures OnlyOf(steps, entry.txid) && OthersKept(old(store.entries), entry.txid)
    {
      hide LogBeforeStore, Level, WellFormed;
      steps := [];
      assert history + [] == history;
      var replacement := FindReplacement(node, entry);
      if replacement.None? {
        return false, [];
      }
      var replacedBy := replacement.value;
      var event := if replacedBy.Some? && replacedBy.value != ""
                   then Event(ReplacedEvent, entry, replacedBy)
                   else Event(RemovedEvent, entry, None);
      files.Export(event);
      store.Remove(entry.txid);
      steps := [Exported(event)];
      history := history + steps;
      assert store.entries == Next(old(store.entries), steps[0]);
      StepRecorded(old(store.entries), old(files.done), old(history), steps[0]);
      ok := true;
    }

    /** Who spends the inputs of the entry now; None if the query fails. */
    method FindReplacement(node: Node, entry: FlaggedTx) returns (r: Option<Option<Txid>>)
      ensures r == Replacement(node, entry)
      ensures r.Some? && r.value.Some? ==> r.value.value != entry.txid
    {
      if entry.inputs == [] {
        return Some(None);
      }
      match node.spending(entry)
      case Value(spends) =>
        FirstOtherDiffers(spends, entry.txid);
        var first := FirstSpender(spends, entry.txid);
        return Some(first);
      case Refused => return Some(None);
      case Down => return None;
    }

    /** The confirming block of one transaction. */
    method CheckDepthOf(node: Node, entry: FlaggedTx) returns (ok: bool, ghost steps: seq<Step>)
      requires Valid() && Lookup(store.entries, entry.txid) == Some(entry)
      modifies this`history, store, files
      ensures Valid() && Recorded(old(history), steps)
      ensures steps == DepthSteps(node, cfg, Some(entry))
      ensures OnlyOf(steps, entry.txid) && OthersKept(old(store.entries), entry.txid)
      ensures ok <==> (entry.status.Confirmed? && entry.blockHash.Some? ==>
                node.confirmations(entry.txid, entry.blockHash.value).Value?)
    {
      hide LogBeforeStore, Level, WellFormed, Replay, ReplayOne, Of, Events;
      steps := [];
      assert history + [] == history;
      if !entry.status.Confirmed? || entry.blockHash.None? {
        return true, [];
      }
      var answer := node.confirmations(entry.txid, entry.blockHash.value);
      if !answer.Value? {
        return false, [];
      }
      if answer.value == -1 {
        var changed := entry.(status := InMempool);
        store.Change(changed);
        files.Export(Event(UnconfirmedEvent, changed, None));
        store.Put(changed.(blockHash := None, blockHeight := None));
        steps := [Exported(Event(UnconfirmedEvent, changed, None))];
      } else if answer.value >= cfg.forgetAfter {
        store.Remove(entry.txid);
        steps := [Forgot(entry.txid)];
      } else {
        return true, [];
      }
      history := history + steps;
      assert store.entries == Next(old(store.entries), steps[0]);
      StepRecorded(old(store.entries), old(files.done), old(history), steps[0]);
      ok := true;
    }

    // --- Confirmed transactions ----------------------------------------------

    /** Emits `unconfirmed` for every confirmed entry whose block left the
        chain, and drops those that are deep enough. */
    method CheckConfirmedDepth(node: Node) returns (ok: bool, ghost steps: seq<Step>)
      requires Valid()
      modifies this`history, store, files
      ensures Valid() && Recorded(old(history), steps)
      ensures Follows(ok, steps, DepthPlan(node, cfg, old(store.entries)))
      ensures ok ==> forall x ::
                DepthSettled(node, cfg, Lookup(old(store.entries), x), Of(steps, x), Lookup(store.entries, x))
      ensures Answers(node) ==> ok
    {
      hide Valid, DepthSteps, DepthPlan, OnlyOf, Answers, Partway, Follows, DepthSettled, Of;
      EntriesAreReplay();
      NothingRecorded();
      ghost var s := store.entries;
      ghost var plan := DepthPlan(node, cfg, s);
      steps, ok := [], true;
      var rest := store.entries.Keys;
      DepthBegins(node, s);
      while rest != {}
        invariant Valid() && Recorded(old(history), steps) && rest <= s.Keys && ok
        invariant Partway(store.entries, s, rest, steps, plan)
        decreases |rest|
      {
        var x :| x in rest;
        ghost var now, more := store.entries, [];
        PartwayAt(now, s, rest, steps, plan, x);
        EntryIsOwn(x);
        var entry := store.entries[x];
        ok, more := CheckDepthOf(node, entry);
        DepthAt(node, s, x);
        PartwayGoesOn(now, store.entries, s, rest, steps, plan, x, more);
        RecordedThen(old(history), steps, more);
        steps, rest := steps + more, rest - {x};
        if !ok {
          PartwayFollows(store.entries, s, rest, steps, plan);
          FailedCall(node, entry);
          return;
        }
      }
      PartwayFollows(store.entries, s, rest, steps, plan);
      DepthDone(node, s, old(history), steps);
    }

    lemma DepthDone(node: Node, s: Store, past: seq<Step>, steps: seq<Step>)
      requires Valid() && s == Replay(loaded, past) && Recorded(past, steps)
      requires Follows(true, steps, DepthPlan(node, cfg, s))
      ensures forall x :: DepthSettled(node, cfg, Lookup(s, x), Of(steps, x), Lookup(store.entries, x))
    {
      hide DepthSettled, DepthSteps, Of;
      forall x
        ensures DepthSettled(node, cfg, Lookup(s, x), Of(steps, x), Lookup(store.entries, x))
      {
        EntryAfter(s, past, steps, x);
        DepthIsSettled(node, cfg, Lookup(s, x));
      }
    }

    lemma DepthBegins(node: Node, s: Store)
      ensures Partway(s, s, s.Keys, [], DepthPlan(node, cfg, s))
    {
      NoEntryNoSteps(node, cfg, "", BlockInfo(0, {}), 0, {}, s);
      PartwayBegins(s, s.Keys, DepthPlan(node, cfg, s));
    }

    lemma DepthAt(node: Node, s: Store, x: Txid)
      requires x in s
      ensures DepthPlan(node, cfg, s)(x) == DepthSteps(node, cfg, Some(s[x]))
    {
    }

    lemma FailedCall(node: Node, entry: FlaggedTx)
      requires entry.blockHash.Some? && !node.confirmations(entry.txid, entry.blockHash.value).Value?
      ensures !Answers(node)
    {
    }

    lemma NothingRecorded()
      ensures Recorded(history, []) && forall x :: Of([], x) == []
    {
      assert history + [] == history;
    }

    /** `steps` and then `more` were recorded. */
    lemma RecordedThen(before: seq<Step>, steps: seq<Step>, more: seq<Step>)
      requires Recorded(before + steps, more)
      ensures Recorded(before, steps + more)
    {
      assert before + steps + more == before + (steps + more);
    }

    // --- Blocks --------------------------------------------------------------

    /** Transactions that were gone before they could be fetched, and are in the
        block. */
    method AddMissed(node: Node, block: Hash, txids: set<Txid>) returns (ok: bool, ghost steps: seq<Step>)
      requires Valid()
      modifies this`checked, this`history, store, files
      ensures Valid() && Recorded(old(history), steps)
      ensures old(checked) <= checked <= old(checked) + txids
      ensures Follows(ok, steps, MissedPlan(node, old(Mem()), block, txids, old(store.entries)))
      ensures Answers(node) ==> ok
    {
      hide Valid, MissedPlan, SeenSteps, OnlyOf, Answers, Partway, Follows;
      NothingRecorded();
      ghost var s, m := store.entries, Mem();
      ghost var plan := MissedPlan(node, m, block, txids, s);
      steps, ok := [], true;
      var rest := unfetched * txids;
      MissedBegins(node, m, block, txids, s);
      while rest != {}
        invariant Valid() && Recorded(old(history), steps) && rest <= unfetched * txids
        invariant old(checked) <= checked <= old(checked) + txids
        invariant Partway(store.entries, s, rest, steps, plan)
        decreases |rest|
      {
        var x :| x in rest;
        PartwayFollows(store.entries, s, rest, steps, plan);
        var answer := node.fetch(x, Some(block));
        if answer.Down? {
          DownFetch(node, x, Some(block));
          return false, steps;
        }
        ghost var now := store.entries;
        PartwayAt(now, s, rest, steps, plan, x);
        ghost var more := OnAdded(x, Fetched(node, x, Some(block)));
        MissedAt(node, m, block, txids, s, x);
        PartwayGoesOn(now, store.entries, s, rest, steps, plan, x, more);
        RecordedThen(old(history), steps, more);
        steps, rest := steps + more, rest - {x};
      }
      PartwayFollows(store.entries, s, rest, steps, plan);
    }

    lemma MissedBegins(node: Node, m: Memory, block: Hash, txids: set<Txid>, s: Store)
      ensures Partway(s, s, m.unfetched * txids, [], MissedPlan(node, m, block, txids, s))
    {
      PartwayBegins(s, m.unfetched * txids, MissedPlan(node, m, block, txids, s));
    }

    lemma MissedAt(node: Node, m: Memory, block: Hash, txids: set<Txid>, s: Store, x: Txid)
      requires x in m.unfetched * txids
      ensures MissedPlan(node, m, block, txids, s)(x)
              == SeenSteps(Lookup(s, x), x, Fetched(node, x, Some(block)), m.tip)
    {
    }

    lemma DownFetch(node: Node, x: Txid, block: Option<Hash>)
      requires node.fetch(x, block).Down?
      ensures !Answers(node)
    {
    }

    /** Tracked transactions that are in the block. */
    method ConfirmInBlock(block: Hash, info: BlockInfo) returns (ghost steps: seq<Step>)
      requires Valid()
      modifies this`history, store, files
      ensures Valid() && Recorded(old(history), steps)
      ensures Follows(true, steps, InBlockPlan(block, info, old(store.entries)))
    {
      hide Valid, InBlockPlan, OnlyOf, Partway, Follows;
      NothingRecorded();
      ghost var s := store.entries;
      ghost var plan := InBlockPlan(block, info, s);
      steps := [];
      var rest := store.entries.Keys;
      InBlockBegins(block, info, s);
      while rest != {}
        invariant Valid() && Recorded(old(history), steps) && rest <= s.Keys
        invariant Partway(store.entries, s, rest, steps, plan)
        decreases |rest|
      {
        var x :| x in rest;
        ghost var now, more := store.entries, [];
        PartwayAt(now, s, rest, steps, plan, x);
        EntryIsOwn(x);
        NothingRecorded();
        var entry := store.entries[x];
        label Before:
        if entry.status.InMempool? && entry.txid in info.txids {
          more := MarkConfirmed(entry, block, info.height);
        }
        InBlockAt(block, info, s, x);
        PartwayGoesOn(now, store.entries, s, rest, steps, plan, x, more);
        RecordedThen(old(history), steps, more);
        steps, rest := steps + more, rest - {x};
      }
      PartwayFollows(store.entries, s, rest, steps, plan);
    }

    lemma InBlockBegins(block: Hash, info: BlockInfo, s: Store)
      ensures Partway(s, s, s.Keys, [], InBlockPlan(block, info, s))
    {
      assert forall x :: x !in s.Keys ==> InBlockPlan(block, info, s)(x) == [];
      PartwayBegins(s, s.Keys, InBlockPlan(block, info, s));
    }

    lemma InBlockAt(block: Hash, info: BlockInfo, s: Store, x: Txid)
      requires x in s
      ensures InBlockPlan(block, info, s)(x) == InBlockSteps(block, info, Some(s[x]), x)
      ensures OnlyOf([], x)
    {
    }

    lemma EntriesAfter(before: Store, past: seq<Step>, steps: seq<Step>)
      requires Valid() && before == Replay(loaded, past) && Recorded(past, steps)
      ensures After(before, steps, store.entries)
    {
      hide ReplayOne;
      forall x {
        EntryAfter(before, past, steps, x);
      }
    }

    lemma EntriesAreReplay()
      requires Valid()
      ensures store.entries == Replay(loaded, history) && WellFormed(store.entries)
    {
    }

    method OnBlockConnected(node: Node, block: Hash) returns (ok: bool, ghost steps: seq<Step>)
      requires Valid()
      modifies this`checked, this`unfetched, this`tip, this`history, store, files
      ensures Valid() && Recorded(old(history), steps)
      ensures Follows(ok, steps, BlockPlan(node, cfg, old(Mem()), block, old(store.entries)))
      ensures ok ==> Mem() == NoticeMemory(node, old(Mem()), map[], Connected(block))
      ensures Answers(node) ==> ok
    {
      hide Valid, Answers, MissedPlan, InBlockPlan, DepthPlan, BlockPlan, Follows, After, Of;
      steps := [];
      NothingRecorded();
      ghost var s, m := store.entries, Mem();
      BlockUnknown(node, cfg, block, m, s);
      var answer := node.block(block);
      if !answer.Value? {
        return false, [];
      }
      var info := answer.value;
      tip := Max(tip, info.height);
      EntriesAreReplay();
      ghost var first, second, third;
      ok, first := AddMissed(node, block, info.txids);
      if !ok {
        BlockFails(node, cfg, block, info, m, s, first);
        return false, first;
      }
      EntriesAfter(s, old(history), first);
      EntriesAreReplay();
      ghost var s1, h1 := store.entries, history;
      unfetched := unfetched - info.txids;
      checked := checked - info.txids;
      second := ConfirmInBlock(block, info);
      EntriesAfter(s1, h1, second);
      RecordedThen(old(history), first, second);
      ghost var s2 := store.entries;
      ok, third := CheckConfirmedDepth(node);
      RecordedThen(old(history), first + second, third);
      steps := first + second + third;
      BlockFollows(ok, node, cfg, block, info, m, s, s1, s2, first, second, third);
    }

    // --- A batch of events -----------------------------------------------------

    method OnRemoved(node: Node, x: Txid) returns (ok: bool, ghost steps: seq<Step>)
      requires Valid()
      modifies this`checked, this`history, store, files
      ensures Valid() && Recorded(old(history), steps)
      ensures checked == old(checked) - {x}
      ensures var e := Lookup(old(store.entries), x);
              && steps == (if e.Some? && e.value.status.InMempool? then LeftSteps(node, e.value) else [])
              && (ok <==> (e.Some? && e.value.status.InMempool? ==> Replacement(node, e.value).Some?))
      ensures OnlyOf(steps, x)
    {
      hide Valid, LeftSteps, Replacement;
      NothingRecorded();
      checked := checked - {x};
      steps, ok := [], true;
      if x in store.entries && store.entries[x].status.InMempool? {
        EntryIsOwn(x);
        ok, steps := OnLeftUnmined(node, store.entries[x]);
      }
    }

    /** Fetches transactions in parallel; any failure but a refusal is raised
        when the results are collected. */
    method FetchMany(node: Node, txids: set<Txid>) returns (ok: bool, fetches: Fetches)
      ensures ok ==> fetches == map x | x in txids :: Fetched(node, x, None)
      ensures ok <==> forall x :: x in txids ==> !node.fetch(x, None).Down?
    {
      fetches := map[];
      var rest := txids;
      while rest != {}
        invariant rest <= txids
        invariant fetches == map x | x in txids - rest :: Fetched(node, x, None)
        invariant forall x :: x in txids - rest ==> !node.fetch(x, None).Down?
        decreases |rest|
      {
        var x :| x in rest;
        if node.fetch(x, None).Down? {
          return false, fetches;
        }
        fetches := fetches[x := Fetched(node, x, None)];
        rest := rest - {x};
      }
      ok := true;
    }

    /** One event of a batch. */
    method HandleEvent(node: Node, fetches: Fetches, n: Notice) returns (ok: bool, ghost steps: seq<Step>)
      requires Valid()
      modifies this`checked, this`unfetched, this`tip, this`history, store, files
      ensures Valid() && Recorded(old(history), steps)
      ensures Follows(ok, steps, NoticePlan(node, cfg, old(Mem()), fetches, n, old(store.entries)))
      ensures ok ==> Mem() == NoticeMemory(node, old(Mem()), fetches, n)
      ensures ok ==> forall x ::
                NoticeSettled(node, cfg, old(Mem()), fetches, n, x,
                              Lookup(old(store.entries), x), Of(steps, x), Lookup(store.entries, x))
      ensures Answers(node) ==> ok
    {
      hide Valid, Answers, LeftSteps, DepthSteps, BlockSteps, Of, DepthSettled, NoticeSettled;
      EntriesAreReplay();
      NothingRecorded();
      steps, ok := [], true;
      ghost var s, m := store.entries, Mem();
      match n {
        case Added(x) =>
          if x in fetches {
            if fetches[x].None? {
              unfetched := unfetched + {x};
            } else {
              steps := OnAdded(x, fetches[x]);
            }
          }
          AddedFollows(node, m, fetches, x, s, steps);
        case Removed(x) =>
          unfetched := unfetched - {x};
          ok, steps := OnRemoved(node, x);
          RemovedFollows(node, m, fetches, x, s, steps);
        case Connected(b) =>
          ok, steps := OnBlockConnected(node, b);
        case Disconnected(_) =>
          ok, steps := CheckConfirmedDepth(node);
      }
      if ok {
        NoticeDone(node, m, fetches, n, s, old(history), steps);
      }
    }

    lemma NoticeDone(node: Node, m: Memory, fetches: Fetches, n: Notice, s: Store, past: seq<Step>, steps: seq<Step>)
      requires Valid() && WellFormed(s) && s == Replay(loaded, past) && Recorded(past, steps)
      requires Follows(true, steps, NoticePlan(node, cfg, m, fetches, n, s))
      ensures forall x ::
                NoticeSettled(node, cfg, m, fetches, n, x, Lookup(s, x), Of(steps, x), Lookup(store.entries, x))
    {
      hide NoticeSettled, NoticeSteps, Of;
      forall x
        ensures NoticeSettled(node, cfg, m, fetches, n, x, Lookup(s, x), Of(steps, x), Lookup(store.entries, x))
      {
        EntryAfter(s, past, steps, x);
        NoticeIsSettled(node, Only(node), 1, 0, cfg, m, fetches, n, x, Lookup(s, x));
      }
    }

    lemma AddedFollows(node: Node, m: Memory, fetches: Fetches, x: Txid, s: Store, steps: seq<Step>)
      requires steps == if x in fetches then SeenSteps(Lookup(s, x), x, fetches[x], m.tip) else []
      ensures Follows(true, steps, NoticePlan(node, cfg, m, fetches, Added(x), s))
    {
      hide Of;
      forall y {
        OfOnly(steps, x, y);
      }
    }

    lemma RemovedFollows(node: Node, m: Memory, fetches: Fetches, x: Txid, s: Store, steps: seq<Step>)
      requires var e := Lookup(s, x);
               steps == if e.Some? && e.value.status.InMempool? then LeftSteps(node, e.value) else []
      requires OnlyOf(steps, x)
      ensures Follows(true, steps, NoticePlan(node, cfg, m, fetches, Removed(x), s))
      ensures Answers(node) && Lookup(s, x).Some? ==> Replacement(node, s[x]).Some?
    {
      hide Of, LeftSteps;
      forall y {
        OfOnly(steps, x, y);
      }
      if x in s && Answers(node) {
        assert !node.spending(s[x]).Down?;
      }
    }

    /** A batch: every new transaction is fetched up front, then the events are
        applied in order.  Nothing happens if the fetching fails. */
    method HandleEvents(before: Node, nodes: nat -> Node, events: seq<Notice>)
      returns (ok: bool, ghost steps: seq<Step>)
      requires Valid()
      modifies this`checked, this`unfetched, this`tip, this`history, store, files
      ensures Valid() && Recorded(old(history), steps)
      ensures var fetches := map x | x in ToFetch(events, old(checked)) :: Fetched(before, x, None);
              && Follows(ok, steps, BatchPlan(nodes, cfg, old(Mem()), fetches, events, 0, old(store.entries)))
              && (ok ==> Mem() == BatchMemory(nodes, old(Mem()), fetches, events, 0))
      ensures forall x :: AllWarranted(before, nodes, |events|, cfg, Lookup(old(store.entries), x), Of(steps, x))
      ensures Answers(before) && (forall j :: 0 <= j < |events| ==> Answers(nodes(j))) ==> ok
    {
      hide Valid, Answers, NoticePlan, BatchPlan, Follows, After, Of, SoFar, NoticeMemory, NoticeSettled, AllWarranted;
      EntriesAreReplay();
      NothingRecorded();
      ghost var s, m, wanted := store.entries, Mem(), map x | x in ToFetch(events, checked) :: Fetched(before, x, None);
      BatchBegins(nodes, cfg, m, wanted, events, s);
      var fetches;
      ok, fetches := FetchMany(before, ToFetch(events, checked));
      if !ok {
        SomeFetchFailed(before, ToFetch(events, checked));
        BatchDone(before, nodes, m, wanted, events, s, false, []);
        return false, [];
      }
      steps := [];
      for i := 0 to |events|
        invariant Valid() && Recorded(old(history), steps) && ok
        invariant SoFar(nodes, cfg, m, fetches, events, s, i, Mem(), store.entries, steps)
      {
        EntriesAreReplay();
        ghost var t, past, here, more := store.entries, history, Mem(), [];
        ok, more := HandleEvent(nodes(i), fetches, events[i]);
        EntriesAfter(t, past, more);
        RecordedThen(old(history), steps, more);
        BatchGoesOn(nodes, cfg, m, fetches, events, s, i, here, t, steps, ok, more, store.entries);
        steps := steps + more;
        if !ok {
          BatchDone(before, nodes, m, wanted, events, s, false, steps);
          return;
        }
      }
      BatchEnds(nodes, cfg, m, fetches, events, s, Mem(), store.entries, steps);
      BatchDone(before, nodes, m, wanted, events, s, true, steps);
    }

    lemma BatchDone(before: Node, nodes: nat -> Node, m: Memory, fetches: Fetches, events: seq<Notice>, s: Store,
                    ok: bool, steps: seq<Step>)
      requires WellFormed(s) && forall y :: y in fetches ==> fetches[y] == Fetched(before, y, None)
      requires Follows(ok, steps, BatchPlan(nodes, cfg, m, fetches, events, 0, s))
      ensures forall x :: AllWarranted(before, nodes, |events|, cfg, Lookup(s, x), Of(steps, x))
    {
      hide AllWarranted, BatchSteps, Of;
      forall x
        ensures AllWarranted(before, nodes, |events|, cfg, Lookup(s, x), Of(steps, x))
      {
        BatchIsWarranted(before, nodes, cfg, m, fetches, events, 0, x, Lookup(s, x));
        WarrantedPrefix(before, nodes, |events|, cfg, Lookup(s, x), Of(steps, x),
                        BatchSteps(nodes, cfg, m, fetches, events, 0, Lookup(s, x), x));
      }
    }

    lemma SomeFetchFailed(node: Node, txids: set<Txid>)
      ensures Answers(node) ==> forall x :: x in txids ==> !node.fetch(x, None).Down?
    {
    }

    // --- Reconcile -------------------------------------------------------------

    /** Scans the last blocks for the transaction, remembering what it reads. */
    method FindConfirmingBlock(node: Node, entry: FlaggedTx, known: map<nat, (Hash, set<Txid>)>)
      returns (found: Answer<Option<BlockRef>>, cache: map<nat, (Hash, set<Txid>)>)
      requires CacheTrue(node, known)
      ensures CacheTrue(node, cache) && found == FindConfirming(node, cfg, tip, entry)
    {
      cache := known;
      var lowest := LowestScanned(cfg, tip, entry);
      var h: int := tip;
      while h >= lowest
        invariant CacheTrue(node, cache)
        invariant FindConfirming(node, cfg, tip, entry) == FindFrom(node, entry.txid, h, lowest)
        decreases h
      {
        if h !in cache {
          var hash := node.hashAt(h);
          if !hash.Value? {
            return Down, cache;
          }
          var block := node.block(hash.value);
          if !block.Value? {
            return Down, cache;
          }
          cache := cache[h := (hash.value, block.value.txids)];
        }
        if entry.txid in cache[h].1 {
          return Value(Some(BlockRef(cache[h].0, h))), cache;
        }
        h := h - 1;
      }
      found := Value(None);
    }

    ghost predicate CacheTrue(node: Node, cache: map<nat, (Hash, set<Txid>)>) {
      forall h :: h in cache ==>
        && node.hashAt(h) == Value(cache[h].0)
        && node.block(cache[h].0).Value? && node.block(cache[h].0).value.txids == cache[h].1
    }

    /** Fetches and checks the snapshot's new transactions, a chunk at a time;
        `stopAt` is the first chunk that sees the stop flag. */
    method CheckNew(node: Node, unchecked: set<Txid>, stopAt: nat) returns (ended: Ended, ghost steps: seq<Step>)
      requires Valid()
      modifies this`checked, this`history, store, files
      ensures Valid() && Recorded(old(history), steps)
      ensures Follows(ended.Completed?, steps, NewPlan(node, unchecked, tip, old(store.entries)))
      ensures ended.Completed? ==> checked == old(checked) + FetchedOf(node, unchecked)
      ensures ended.Completed? ==> forall x :: x in unchecked ==> !node.fetch(x, None).Down?
      ensures Answers(node) ==> !ended.Unreachable?
    {
      hide Valid, Answers, Unfinished;
      NothingRecorded();
      ghost var s, before := store.entries, checked;
      steps := [];
      var rest, chunks := unchecked, 0;
      NothingChecked(node, unchecked);
      while rest != {}
        invariant Valid() && Recorded(old(history), steps) && rest <= unchecked
        invariant Unfinished(node, unchecked, rest, s, steps, before)
        invariant forall x :: x in unchecked - rest ==> !node.fetch(x, None).Down?
        decreases rest
      {
        CheckedSoFar(node, unchecked, rest, s, steps, before);
        if chunks >= stopAt {
          return StopRequested, steps;
        }
        var chunk := TakeChunk(rest);
        var ok, fetches := FetchMany(node, chunk);
        if !ok {
          SomeFetchFailed(node, chunk);
          return Unreachable, steps;
        }
        ghost var more := AddChunk(node, unchecked, rest, chunk, fetches, s, steps, before);
        RecordedThen(old(history), steps, more);
        steps := steps + more;
        rest, chunks := rest - chunk, chunks + 1;
      }
      CheckedSoFar(node, unchecked, rest, s, steps, before);
      ended := Completed;
    }

    lemma NothingChecked(node: Node, unchecked: set<Txid>)
      ensures Unfinished(node, unchecked, unchecked, store.entries, [], checked)
    {
      assert unchecked - unchecked == {};
    }

    lemma CheckedSoFar(node: Node, unchecked: set<Txid>, left: set<Txid>, s: Store, steps: seq<Step>, before: set<Txid>)
      requires Unfinished(node, unchecked, left, s, steps, before)
      ensures Follows(left == {}, steps, NewPlan(node, unchecked, tip, s))
      ensures left == {} ==> checked == before + FetchedOf(node, unchecked)
    {
      if left == {} {
        assert unchecked - left == unchecked;
      }
    }

    /** Up to RECONCILE_CHUNK elements. */
    method TakeChunk(rest: set<Txid>) returns (chunk: set<Txid>)
      requires rest != {}
      ensures chunk <= rest && chunk != {} && |chunk| <= RECONCILE_CHUNK
    {
      chunk := {};
      while |chunk| < RECONCILE_CHUNK && rest - chunk != {}
        invariant chunk <= rest && |chunk| <= RECONCILE_CHUNK
        invariant chunk == {} ==> rest - chunk != {}
        decreases RECONCILE_CHUNK - |chunk|
      {
        var x :| x in rest - chunk;
        chunk := chunk + {x};
      }
    }

    /** What was fetched of a chunk; `left` is what remains unchecked. */
    method AddChunk(node: Node, ghost unchecked: set<Txid>, ghost rest: set<Txid>, chunk: set<Txid>, fetches: Fetches,
                    ghost s: Store, ghost steps: seq<Step>, ghost before: set<Txid>) returns (ghost more: seq<Step>)
      requires Valid() && chunk <= rest <= unchecked
      requires forall x :: x in chunk ==> x in fetches && fetches[x] == Fetched(node, x, None)
      requires Unfinished(node, unchecked, rest, s, steps, before)
      modifies this`checked, this`history, store, files
      ensures Valid() && Recorded(old(history), more)
      ensures Unfinished(node, unchecked, rest - chunk, s, steps + more, before)
    {
      hide Valid, Unfinished;
      NothingRecorded();
      more := [];
      assert steps + [] == steps;
      var todo := chunk;
      ghost var left := rest;
      while todo != {}
        invariant Valid() && Recorded(old(history), more) && todo <= chunk && left == rest - (chunk - todo)
        invariant Unfinished(node, unchecked, left, s, steps + more, before)
        decreases |todo|
      {
        var x :| x in todo;
        ghost var one := AddNew(node, unchecked, left, x, fetches[x], s, steps + more, before);
        RecordedThen(old(history), more, one);
        assert steps + more + one == steps + (more + one);
        more := more + one;
        todo, left := todo - {x}, left - {x};
      }
      assert left == rest - chunk;
    }

    /** The new transactions outside `left` are checked. */
    ghost predicate Unfinished(node: Node, unchecked: set<Txid>, left: set<Txid>, s: Store, steps: seq<Step>,
                               before: set<Txid>)
      reads this`checked, this`tip, store
    {
      && NewSoFar(node, unchecked, left, tip, s, steps)
      && checked == before + FetchedOf(node, unchecked - left)
      && forall y :: y in left ==> Lookup(store.entries, y) == Lookup(s, y)
    }

    method AddNew(node: Node, ghost unchecked: set<Txid>, ghost left: set<Txid>, x: Txid,
                  fetched: Option<TxInfo>, ghost s: Store, ghost steps: seq<Step>, ghost before: set<Txid>)
      returns (ghost one: seq<Step>)
      requires Valid() && x in left && left <= unchecked && fetched == Fetched(node, x, None)
      requires Unfinished(node, unchecked, left, s, steps, before)
      modifies this`checked, this`history, store, files
      ensures Valid() && Recorded(old(history), one)
      ensures Unfinished(node, unchecked, left - {x}, s, steps + one, before)
    {
      hide Valid, SeenSteps, OnlyOf, Of, NewSoFar, FetchedOf;
      one := OnAdded(x, fetched);
      FetchedOneMore(node, unchecked - left, x);
      assert unchecked - (left - {x}) == unchecked - left + {x};
      NewOneMore(node, unchecked, left, tip, s, steps, x, one);
    }

    /** Tracked transactions that are not in the snapshot: mined, replaced or
        removed. */
    method ResolveMissing(node: Node, mempool: set<Txid>) returns (ok: bool, ghost steps: seq<Step>)
      requires Valid()
      modifies this`history, store, files
      ensures Valid() && Recorded(old(history), steps)
      ensures Follows(ok, steps, MissingPlan(node, cfg, tip, mempool, old(store.entries)))
      ensures ok ==> Resolved(node, cfg, tip, mempool, old(store.entries), {})
      ensures Answers(node) ==> ok
    {
      hide Valid, Answers, MissingPlan, MissingSteps, OnlyOf, Partway, Follows, Resolved;
      NothingRecorded();
      ghost var s := store.entries;
      ghost var plan := MissingPlan(node, cfg, tip, mempool, s);
      steps, ok := [], true;
      var rest := store.entries.Keys;
      var cache: map<nat, (Hash, set<Txid>)> := map[];
      MissingBegins(node, mempool, s);
      while rest != {}
        invariant Valid() && Recorded(old(history), steps) && rest <= s.Keys && CacheTrue(node, cache) && ok
        invariant Partway(store.entries, s, rest, steps, plan)
        invariant Resolved(node, cfg, tip, mempool, s, rest)
        decreases |rest|
      {
        var x :| x in rest;
        ghost var now, more := store.entries, [];
        PartwayAt(now, s, rest, steps, plan, x);
        EntryIsOwn(x);
        ok, cache, more := ResolveOne(node, mempool, x, cache);
        MissingAt(node, mempool, s, rest, x, ok, more);
        PartwayGoesOn(now, store.entries, s, rest, steps, plan, x, more);
        RecordedThen(old(history), steps, more);
        steps, rest := steps + more, rest - {x};
        if !ok {
          PartwayFollows(store.entries, s, rest, steps, plan);
          return;
        }
      }
      PartwayFollows(store.entries, s, rest, steps, plan);
    }

    lemma MissingBegins(node: Node, mempool: set<Txid>, s: Store)
      ensures Partway(s, s, s.Keys, [], MissingPlan(node, cfg, tip, mempool, s))
      ensures Resolved(node, cfg, tip, mempool, s, s.Keys)
    {
      NoEntryNoSteps(node, cfg, "", BlockInfo(0, {}), tip, mempool, s);
      PartwayBegins(s, s.Keys, MissingPlan(node, cfg, tip, mempool, s));
    }

    lemma MissingAt(node: Node, mempool: set<Txid>, s: Store, rest: set<Txid>, x: Txid, ok: bool, more: seq<Step>)
      requires x in s && s[x].txid == x && more == MissingSteps(node, cfg, tip, mempool, Some(s[x]))
      requires Resolved(node, cfg, tip, mempool, s, rest)
      requires ok && s[x].status.InMempool? && x !in mempool ==> more != []
      ensures MissingPlan(node, cfg, tip, mempool, s)(x) == more
      ensures ok ==> Resolved(node, cfg, tip, mempool, s, rest - {x})
    {
    }

    method ResolveOne(node: Node, mempool: set<Txid>, x: Txid, known: map<nat, (Hash, set<Txid>)>)
      returns (ok: bool, cache: map<nat, (Hash, set<Txid>)>, ghost steps: seq<Step>)
      requires Valid() && x in store.entries && store.entries[x].txid == x && CacheTrue(node, known)
      modifies this`history, store, files
      ensures Valid() && Recorded(old(history), steps) && CacheTrue(node, cache)
      ensures OnlyOf(steps, x) && OthersKept(old(store.entries), x)
      ensures steps == MissingSteps(node, cfg, tip, mempool, Some(old(store.entries)[x]))
      ensures ok && old(store.entries)[x].status.InMempool? && x !in mempool ==> steps != []
      ensures Answers(node) ==> ok
    {
      hide Valid, Answers, Of, FindConfirming;
      NothingRecorded();
      ok, cache, steps := true, known, [];
      var entry := store.entries[x];
      if !entry.status.InMempool? || entry.txid in mempool {
        return;
      }
      AllAnswered(node, cfg, tip, entry);
      var found;
      found, cache := FindConfirmingBlock(node, entry, cache);
      if !found.Value? {
        return false, cache, [];
      }
      if found.value.Some? {
        steps := MarkConfirmed(entry, found.value.value.hash, found.value.value.height);
      } else {
        ok, steps := OnLeftUnmined(node, entry);
      }
    }

    /** Full diff against a snapshot of the mempool: the three parts of
        ReconcileSteps, and what is known afterwards. */
    method Reconcile(node: Node, stopAt: nat) returns (ended: Ended, ghost steps: seq<Step>)
      requires Valid()
      modifies this`checked, this`tip, this`history, store, files
      ensures Valid() && Recorded(old(history), steps)
      ensures node.mempool.Value? && node.tip.Value? ==>
                Follows(ended.Completed?, steps,
                        ReconcilePlan(node, cfg, node.mempool.value, old(checked), node.tip.value, old(store.entries)))
      ensures ended.Completed? ==>
                var m := node.mempool;
                && m.Value? && node.tip == Value(tip)
                && checked <= m.value
                && (forall x :: x in m.value - checked <==> x in m.value - old(checked) && node.fetch(x, None).Refused?)
                && (forall x :: x in store.entries && store.entries[x].status.InMempool? ==>
                      x in m.value || TurnedUnconfirmed(Of(steps, x)))
      ensures ended.Completed? ==> forall x ::
                ReconcileSettled(node, cfg, node.mempool.value, old(checked), node.tip.value, x,
                                 Lookup(old(store.entries), x), Of(steps, x), Lookup(store.entries, x))
      ensures forall x :: AllWarranted(node, Only(node), 1, cfg, Lookup(old(store.entries), x), Of(steps, x))
      ensures !(node.mempool.Value? && node.tip.Value?) ==> ended.Unreachable? && steps == []
      ensures Answers(node) ==> !ended.Unreachable?
    {
      hide Valid, Answers, NewPlan, MissingPlan, DepthPlan, ReconcilePlan, Follows, After, Of, Resolved,
        TurnedUnconfirmed, DepthSettled, ReconcileSettled, AllWarranted;
      NothingRecorded();
      steps := [];
      SnapshotAnswered(node);
      NoneWarranted(node, store.entries);
      if !node.mempool.Value? {
        return Unreachable, [];
      }
      var mempool := node.mempool.value;
      if !node.tip.Value? {
        return Unreachable, [];
      }
      tip := node.tip.value;
      EntriesAreReplay();
      ghost var s := store.entries;
      var unchecked := mempool - checked;
      checked := checked * mempool;
      ghost var first, second, third;
      ended, first := CheckNew(node, unchecked, stopAt);
      if !ended.Completed? {
        ReconcileNotBegun(node, cfg, mempool, old(checked), tip, s, first);
        ReconcileWarranted(node, mempool, old(checked), s, false, first);
        return ended, first;
      }
      EntriesAfter(s, old(history), first);
      EntriesAreReplay();
      ghost var s1, h1 := store.entries, history;
      var ok;
      ok, second := ResolveMissing(node, mempool);
      EntriesAfter(s1, h1, second);
      RecordedThen(old(history), first, second);
      if !ok {
        ReconcileFails(node, cfg, mempool, old(checked), tip, s, s1, first, second);
        ReconcileWarranted(node, mempool, old(checked), s, false, first + second);
        return Unreachable, first + second;
      }
      EntriesAreReplay();
      ghost var s2 := store.entries;
      ok, third := CheckConfirmedDepth(node);
      RecordedThen(old(history), first + second, third);
      steps := first + second + third;
      ReconcileFollows(ok, node, cfg, mempool, old(checked), tip, s, s1, s2, first, second, third);
      ReconcileWarranted(node, mempool, old(checked), s, ok, steps);
      if !ok {
        return Unreachable, steps;
      }
      EntriesAfter(s, old(history), steps);
      ReconcileKnows(node, mempool, old(checked), s, s1, first, steps);
      ReconcileDone(node, mempool, old(checked), s, steps);
      ended := Completed;
    }

    lemma NoneWarranted(node: Node, s: Store)
      ensures forall x :: AllWarranted(node, Only(node), 1, cfg, Lookup(s, x), Of([], x))
    {
    }

    lemma ReconcileWarranted(node: Node, mempool: set<Txid>, before: set<Txid>, s: Store, ok: bool, steps: seq<Step>)
      requires WellFormed(s) && Follows(ok, steps, ReconcilePlan(node, cfg, mempool, before, tip, s))
      ensures forall x :: AllWarranted(node, Only(node), 1, cfg, Lookup(s, x), Of(steps, x))
    {
      hide AllWarranted, ReconcileSteps, ReconcileSettled, Of;
      forall x
        ensures AllWarranted(node, Only(node), 1, cfg, Lookup(s, x), Of(steps, x))
      {
        ReconcileIsSettled(node, cfg, mempool, before, tip, x, Lookup(s, x));
        WarrantedPrefix(node, Only(node), 1, cfg, Lookup(s, x), Of(steps, x),
                        ReconcileSteps(node, cfg, mempool, before, tip, Lookup(s, x), x));
      }
    }

    lemma ReconcileDone(node: Node, mempool: set<Txid>, before: set<Txid>, s: Store, steps: seq<Step>)
      requires WellFormed(s) && Follows(true, steps, ReconcilePlan(node, cfg, mempool, before, tip, s))
      requires After(s, steps, store.entries)
      ensures forall x ::
                ReconcileSettled(node, cfg, mempool, before, tip, x, Lookup(s, x), Of(steps, x),
                                 Lookup(store.entries, x))
    {
      hide AllWarranted, ReconcileSteps, ReconcileSettled, Of, ReplayOne;
      forall x
        ensures ReconcileSettled(node, cfg, mempool, before, tip, x, Lookup(s, x), Of(steps, x),
                                 Lookup(store.entries, x))
      {
        ReconcileIsSettled(node, cfg, mempool, before, tip, x, Lookup(s, x));
        assert Lookup(store.entries, x) == ReplayOne(Lookup(s, x), Of(steps, x));
      }
    }

    lemma SnapshotAnswered(node: Node)
      ensures Answers(node) ==> node.mempool.Value? && node.tip.Value?
    {
    }

    lemma ReconcileKnows(node: Node, mempool: set<Txid>, before: set<Txid>, s: Store, s1: Store, first: seq<Step>,
                         steps: seq<Step>)
      requires WellFormed(s)
      requires Follows(true, first, NewPlan(node, mempool - before, tip, s)) && After(s, first, s1)
      requires Resolved(node, cfg, tip, mempool, s1, {})
      requires Follows(true, steps, ReconcilePlan(node, cfg, mempool, before, tip, s)) && After(s, steps, store.entries)
      ensures forall x :: x in store.entries && store.entries[x].status.InMempool? ==>
                x in mempool || TurnedUnconfirmed(Of(steps, x))
    {
      hide MissingSteps, ReconcileSteps, TurnedUnconfirmed, Of;
      forall x | x in store.entries && store.entries[x].status.InMempool?
        ensures x in mempool || TurnedUnconfirmed(Of(steps, x))
      {
        assert Lookup(s1, x) == ReplayOne(Lookup(s, x), NewSteps(node, mempool - before, tip, Lookup(s, x), x));
        StillInMempool(node, cfg, mempool, before, tip, Lookup(s, x), x);
        assert Lookup(store.entries, x) == ReplayOne(Lookup(s, x), Of(steps, x));
      }
    }
  }

  lemma {:induction false} FirstOtherDiffers(spends: seq<Option<Txid>>, own: Txid)
    ensures var r := FirstOther(spends, own);
            r.Some? ==> r in spends && r.value != own
    ensures FirstOther(spends, own).None? <==> forall s :: s in spends ==> s.None? || s.value == own
  {
    if spends != [] {
      FirstOtherDiffers(spends[1..], own);
      assert spends == [spends[0]] + spends[1..];
    }
  }

  method FirstSpender(spends: seq<Option<Txid>>, own: Txid) returns (r: Option<Txid>)
    ensures r == FirstOther(spends, own)
  {
    for i := 0 to |spends|
      invariant FirstOther(spends, own) == FirstOther(spends[i..], own)
    {
      if spends[i].Some? && spends[i].value != own {
        return spends[i];
      }
      assert spends[i..][1..] == spends[i + 1..];
    }
    r := None;
  }

  lemma {:induction false} AllAnswered(node: Node, cfg: WatchConfig, tip: nat, e: FlaggedTx)
    ensures Answers(node) ==> FindConfirming(node, cfg, tip, e).Value? && Replacement(node, e).Some?
  {
    if Answers(node) {
      FindAnswered(node, e.txid, tip, LowestScanned(cfg, tip, e));
    }
  }

  lemma {:induction false} FindAnswered(node: Node, x: Txid, h: int, lowest: nat)
    requires Answers(node)
    ensures FindFrom(node, x, h, lowest).Value?
    decreases h + 1 - lowest
  {
    if h >= lowest {
      FindAnswered(node, x, h - 1, lowest);
    }
  }
}
