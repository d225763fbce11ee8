/** The life of a flagged transaction as the mempool watcher records it: the
    exported events, the store they describe, and the two files on disk. */
module MempoolLife {
  import opened Basics
  import opened Chain

  type Txid = string

  datatype TxStatus = InMempool | Confirmed

  datatype Outpoint = Outpoint(txid: Txid, vout: nat)

  datatype FlaggedTx = FlaggedTx(
    txid: Txid,
    firstSeenHeight: nat,
    inputs: seq<Outpoint>,
    matches: seq<string>,
    status: TxStatus,
    blockHash: Option<Hash>,
    blockHeight: Option<nat>)

  type Store = map<Txid, FlaggedTx>

  datatype EventKind = SeenEvent | ConfirmedEvent | UnconfirmedEvent | ReplacedEvent | RemovedEvent

  /** The rows of one exported event; `tx` is the entry as it was exported. */
  datatype Event = Event(kind: EventKind, tx: FlaggedTx, replacedBy: Option<Txid>)

  /** What happens to one transaction: an exported event, or the silent end of
      a deeply confirmed one. */
  datatype Step = Exported(event: Event) | Forgot(txid: Txid)

  function TxOf(s: Step): Txid {
    match s
    case Exported(e) => e.tx.txid
    case Forgot(x) => x
  }

  function Lookup(s: Store, x: Txid): Option<FlaggedTx> {
    if x in s then Some(s[x]) else None
  }

  // --- One transaction -----------------------------------------------------

  /** The steps a transaction may take, given its entry. */
  predicate LegalOne(e: Option<FlaggedTx>, s: Step) {
    match s
    case Forgot(_) => e.Some? && e.value.status.Confirmed?
    case Exported(Event(kind, tx, replacer)) =>
      match kind
      case SeenEvent =>
        e.None? && tx.status.InMempool? && tx.blockHash.None? && tx.blockHeight.None? && tx.matches != []
        && replacer.None?
      case ConfirmedEvent =>
        && e.Some? && e.value.status.InMempool? && replacer.None? && tx.blockHash.Some? && tx.blockHeight.Some?
        && tx == e.value.(status := Confirmed, blockHash := tx.blockHash, blockHeight := tx.blockHeight)
      case UnconfirmedEvent =>
        e.Some? && e.value.status.Confirmed? && tx == e.value.(status := InMempool) && replacer.None?
      case ReplacedEvent =>
        e.Some? && e.value.status.InMempool? && tx == e.value && replacer.Some? && replacer.value != tx.txid
      case RemovedEvent =>
        e.Some? && e.value.status.InMempool? && tx == e.value && replacer.None?
  }

  /** The entry after a step. */
  function NextOne(s: Step): Option<FlaggedTx> {
    match s
    case Forgot(_) => None
    case Exported(Event(kind, tx, _)) =>
      match kind
      case SeenEvent | ConfirmedEvent => Some(tx)
      case UnconfirmedEvent => Some(tx.(blockHash := None, blockHeight := None))
      case ReplacedEvent | RemovedEvent => None
  }

  function ReplayOne(e: Option<FlaggedTx>, steps: seq<Step>): Option<FlaggedTx> {
    if steps == [] then e else NextOne(steps[|steps| - 1])
  }

  predicate LawfulOne(e: Option<FlaggedTx>, steps: seq<Step>)
    decreases |steps|
  {
    steps == [] ||
    (LawfulOne(e, steps[..|steps| - 1]) && LegalOne(ReplayOne(e, steps[..|steps| - 1]), steps[|steps| - 1]))
  }

  // --- The store -----------------------------------------------------------

  predicate Legal(s: Store, step: Step) {
    LegalOne(Lookup(s, TxOf(step)), step)
  }

  function Next(s: Store, step: Step): Store {
    match NextOne(step)
    case Some(tx) => s[TxOf(step) := tx]
    case None => s - {TxOf(step)}
  }

  function Replay(s: Store, steps: seq<Step>): Store
    decreases |steps|
  {
    if steps == [] then s else Next(Replay(s, steps[..|steps| - 1]), steps[|steps| - 1])
  }

  predicate Lawful(s: Store, steps: seq<Step>)
    decreases |steps|
  {
    steps == [] ||
    (Lawful(s, steps[..|steps| - 1]) && Legal(Replay(s, steps[..|steps| - 1]), steps[|steps| - 1]))
  }

  /** The steps of transaction `x`, in order. */
  function Of(steps: seq<Step>, x: Txid): seq<Step>
    decreases |steps|
  {
    if steps == [] then []
    else
      var n := |steps| - 1;
      Of(steps[..n], x) + (if TxOf(steps[n]) == x then [steps[n]] else [])
  }

  lemma {:induction false} OfConcat(xs: seq<Step>, ys: seq<Step>, x: Txid)
    ensures Of(xs + ys, x) == Of(xs, x) + Of(ys, x)
    decreases |ys|
  {
    if ys == [] {
      assert xs + ys == xs;
    } else {
      var n := |ys| - 1;
      assert (xs + ys)[..|xs + ys| - 1] == xs + ys[..n];
      OfConcat(xs, ys[..n], x);
    }
  }

  ghost predicate OnlyOf(steps: seq<Step>, x: Txid) {
    forall i :: 0 <= i < |steps| ==> TxOf(steps[i]) == x
  }

  lemma {:induction false} OfOnly(steps: seq<Step>, x: Txid, y: Txid)
    requires OnlyOf(steps, x)
    ensures Of(steps, y) == if y == x then steps else []
    decreases |steps|
  {
    if steps != [] {
      OfOnly(steps[..|steps| - 1], x, y);
    }
  }

  /** Further steps of one transaction. */
  lemma OfMore(steps: seq<Step>, more: seq<Step>, x: Txid)
    requires OnlyOf(more, x)
    ensures forall y :: Of(steps + more, y) == if y == x then Of(steps, y) + more else Of(steps, y)
  {
    forall y
      ensures Of(steps + more, y) == if y == x then Of(steps, y) + more else Of(steps, y)
    {
      OfConcat(steps, more, y);
      OfOnly(more, x, y);
    }
  }

  lemma {:induction false} ReplayConcat(s: Store, xs: seq<Step>, ys: seq<Step>)
    ensures Replay(s, xs + ys) == Replay(Replay(s, xs), ys)
    ensures Lawful(s, xs + ys) <==> Lawful(s, xs) && Lawful(Replay(s, xs), ys)
    decreases |ys|
  {
    if ys == [] {
      assert xs + ys == xs;
    } else {
      var n := |ys| - 1;
      assert (xs + ys)[..|xs + ys| - 1] == xs + ys[..n];
      ReplayConcat(s, xs, ys[..n]);
    }
  }

  /** Transactions do not affect each other: the store is replayed, and its
      steps are lawful, one transaction at a time. */
  lemma {:induction false} ReplayIsPointwise(s: Store, steps: seq<Step>, x: Txid)
    ensures Lookup(Replay(s, steps), x) == ReplayOne(Lookup(s, x), Of(steps, x))
    ensures Lawful(s, steps) ==> LawfulOne(Lookup(s, x), Of(steps, x))
    decreases |steps|
  {
    if steps != [] {
      var n := |steps| - 1;
      ReplayIsPointwise(s, steps[..n], x);
      if TxOf(steps[n]) == x {
        assert Of(steps, x)[..|Of(steps, x)| - 1] == Of(steps[..n], x);
      } else {
        assert Of(steps, x) == Of(steps[..n], x);
      }
    }
  }

  /** A stored entry has a block exactly while it is confirmed. */
  ghost predicate WellFormedEntry(x: Txid, e: FlaggedTx) {
    && e.txid == x
    && (e.status.Confirmed? <==> e.blockHash.Some?)
    && (e.status.Confirmed? <==> e.blockHeight.Some?)
  }

  ghost predicate WellFormed(s: Store) {
    forall x :: x in s ==> WellFormedEntry(x, s[x])
  }

  lemma {:induction false} LawfulKeepsWellFormed(s: Store, steps: seq<Step>)
    requires WellFormed(s) && Lawful(s, steps)
    ensures WellFormed(Replay(s, steps))
    decreases |steps|
  {
    if steps != [] {
      LawfulKeepsWellFormed(s, steps[..|steps| - 1]);
    }
  }

  // --- The lifecycle -------------------------------------------------------

  /** The exported events of a transaction's steps. */
  function Word(steps: seq<Step>): seq<EventKind>
    decreases |steps|
  {
    if steps == [] then []
    else
      var n := |steps| - 1;
      Word(steps[..n]) + (if steps[n].Exported? then [steps[n].event.kind] else [])
  }

  /** (confirmed unconfirmed)*, `n` times. */
  function Flips(n: nat): seq<EventKind> {
    if n == 0 then [] else Flips(n - 1) + [ConfirmedEvent, UnconfirmedEvent]
  }

  /** seen (confirmed unconfirmed)* and then replaced, removed, or confirmed
      followed by the silent drop. */
  ghost predicate Closed(life: seq<EventKind>) {
    exists n: nat ::
      || life == [SeenEvent] + Flips(n) + [ReplacedEvent]
      || life == [SeenEvent] + Flips(n) + [RemovedEvent]
      || life == [SeenEvent] + Flips(n) + [ConfirmedEvent]
  }

  /** A life that is not over. */
  ghost predicate Open(life: seq<EventKind>, status: TxStatus) {
    exists n: nat ::
      life == [SeenEvent] + Flips(n) + (if status.Confirmed? then [ConfirmedEvent] else [])
  }

  /** `lives` are over, `last` is the one the entry is in, if there is one. */
  ghost predicate Lives(word: seq<EventKind>, entry: Option<FlaggedTx>, lives: seq<seq<EventKind>>,
                        last: seq<EventKind>) {
    && word == Flatten(lives) + last
    && (forall i :: 0 <= i < |lives| ==> Closed(lives[i]))
    && (if entry.Some? then Open(last, entry.value.status) else last == [])
  }

  ghost predicate WholeLives(word: seq<EventKind>, entry: Option<FlaggedTx>) {
    exists lives, last :: Lives(word, entry, lives, last)
  }

  lemma LifeEnds(lives: seq<seq<EventKind>>, life: seq<EventKind>)
    requires Closed(life) && forall i :: 0 <= i < |lives| ==> Closed(lives[i])
    ensures Lives(Flatten(lives) + life, None, lives + [life], [])
  {
    hide Closed, Open, Flatten;
    FlattenAppend(lives, [life]);
    FlattenOne(life);
    assert Flatten(lives) + life == Flatten(lives + [life]) + [];
  }

  /** How an open life goes on. */
  lemma OpenLife(life: seq<EventKind>)
    ensures Open([SeenEvent], InMempool)
    ensures Open(life, InMempool) ==> Open(life + [ConfirmedEvent], Confirmed)
    ensures Open(life, Confirmed) ==> Open(life + [UnconfirmedEvent], InMempool) && Closed(life)
    ensures Open(life, InMempool) ==> Closed(life + [ReplacedEvent]) && Closed(life + [RemovedEvent])
  {
    assert [SeenEvent] == [SeenEvent] + Flips(0) + [];
    if Open(life, InMempool) {
      var n: nat :| life == [SeenEvent] + Flips(n) + [];
      assert life + [ConfirmedEvent] == [SeenEvent] + Flips(n) + [ConfirmedEvent];
      assert life + [ReplacedEvent] == [SeenEvent] + Flips(n) + [ReplacedEvent];
      assert life + [RemovedEvent] == [SeenEvent] + Flips(n) + [RemovedEvent];
    }
    if Open(life, Confirmed) {
      var n: nat :| life == [SeenEvent] + Flips(n) + [ConfirmedEvent];
      assert life + [UnconfirmedEvent] == [SeenEvent] + Flips(n + 1) + [];
    }
  }

  lemma LastStep(steps: seq<Step>)
    requires steps != []
    ensures ReplayOne(None, steps) == NextOne(steps[|steps| - 1])
  {
  }

  lemma OneMoreStep(steps: seq<Step>, lives: seq<seq<EventKind>>, last: seq<EventKind>)
    returns (more: seq<seq<EventKind>>, next: seq<EventKind>)
    requires steps != []
    requires var n := |steps| - 1;
             LawfulOne(None, steps) && Lives(Word(steps[..n]), ReplayOne(None, steps[..n]), lives, last)
    ensures Lives(Word(steps), ReplayOne(None, steps), more, next)
  {
    hide Open, Closed, Flatten, ReplayOne;
    LastStep(steps);
    var n := |steps| - 1;
    var kinds := if steps[n].Exported? then [steps[n].event.kind] else [];
    more, next := lives, last + kinds;
    assert Word(steps) == Flatten(lives) + next;
    OpenLife(last);
    assert last + [] == last && (last == [] ==> next == kinds);
    if NextOne(steps[n]).None? {
      assert Closed(next);
      LifeEnds(lives, next);
      more, next := lives + [next], [];
    }
  }

  lemma {:induction false} LifecycleOfOne(steps: seq<Step>)
    returns (lives: seq<seq<EventKind>>, last: seq<EventKind>)
    requires LawfulOne(None, steps)
    ensures Lives(Word(steps), ReplayOne(None, steps), lives, last)
    decreases |steps|
  {
    if steps == [] {
      lives, last := [], [];
      assert Flatten<EventKind>([]) == [];
    } else {
      lives, last := LifecycleOfOne(steps[..|steps| - 1]);
      lives, last := OneMoreStep(steps, lives, last);
    }
  }

  /** The events exported for a transaction, from an empty store on, are whole
      lifecycles and one open one exactly while the transaction is stored; its
      last event is `confirmed` exactly while the entry is confirmed, which is
      exactly while it has a block. */
  lemma EventsAreLifecycles(steps: seq<Step>, x: Txid)
    requires Lawful(map[], steps)
    ensures var s := Replay(map[], steps);
            && WholeLives(Word(Of(steps, x)), Lookup(s, x))
            && (x in s ==>
                  var word := Word(Of(steps, x));
                  && word != []
                  && (s[x].status.Confirmed? <==> word[|word| - 1] == ConfirmedEvent)
                  && (s[x].status.Confirmed? <==> s[x].blockHash.Some?))
  {
    var s := Replay(map[], steps);
    ReplayIsPointwise(map[], steps, x);
    var mine := Of(steps, x);
    var lives, last := LifecycleOfOne(mine);
    LawfulKeepsWellFormed(map[], steps);
    if x in s {
      var word := Word(mine);
      var n: nat :| last == [SeenEvent] + Flips(n) + (if s[x].status.Confirmed? then [ConfirmedEvent] else []);
      assert word[|word| - 1] == last[|last| - 1];
      if s[x].status.InMempool? && n > 0 {
        assert Flips(n)[|Flips(n)| - 1] == UnconfirmedEvent;
      }
    }
  }

  /** The same over a stop and a restart, which loads what was saved. */
  lemma RestartContinuesLives(past: seq<Step>, steps: seq<Step>, x: Txid)
    requires Lawful(map[], past) && Lawful(Replay(map[], past), steps)
    ensures WholeLives(Word(Of(past, x) + Of(steps, x)), Lookup(Replay(Replay(map[], past), steps), x))
  {
    ReplayConcat(map[], past, steps);
    EventsAreLifecycles(past + steps, x);
    OfConcat(past, steps, x);
  }

  // --- The two files -------------------------------------------------------

  /** The durable steps: a line of sanctioned_tx_events.csv, or flagged.json
      rewritten. */
  datatype Durable = LogRow(event: Event) | Save(store: Store)

  function Events(steps: seq<Step>): seq<Event>
    decreases |steps|
  {
    if steps == [] then []
    else
      var n := |steps| - 1;
      Events(steps[..n]) + (if steps[n].Exported? then [steps[n].event] else [])
  }

  lemma {:induction false} EventsConcat(xs: seq<Step>, ys: seq<Step>)
    ensures Events(xs + ys) == Events(xs) + Events(ys)
    decreases |ys|
  {
    if ys == [] {
      assert xs + ys == xs;
    } else {
      var n := |ys| - 1;
      assert (xs + ys)[..|xs + ys| - 1] == xs + ys[..n];
      EventsConcat(xs, ys[..n]);
    }
  }

  function LogOf(done: seq<Durable>): seq<Event>
    decreases |done|
  {
    if done == [] then []
    else
      var n := |done| - 1;
      LogOf(done[..n]) + (if done[n].LogRow? then [done[n].event] else [])
  }

  /** flagged.json after the durable steps of a process that loaded `loaded`. */
  function SavedBy(loaded: Store, done: seq<Durable>): Store
    decreases |done|
  {
    if done == [] then loaded
    else
      var n := |done| - 1;
      if done[n].Save? then done[n].store else SavedBy(loaded, done[..n])
  }

  /** The log is that of `steps`, and the store is what they lead to or, at
      most, the one event behind that was logged last. */
  ghost predicate Explains(loaded: Store, done: seq<Durable>, steps: seq<Step>) {
    && Lawful(loaded, steps)
    && LogOf(done) == Events(steps)
    && (|| SavedBy(loaded, done) == Replay(loaded, steps)
        || (steps != [] && steps[|steps| - 1].Exported?
            && SavedBy(loaded, done) == Replay(loaded, steps[..|steps| - 1])))
  }

  /** A kill now leaves the log level with the store, or one event ahead. */
  ghost predicate KillPoint(loaded: Store, done: seq<Durable>) {
    exists steps :: Explains(loaded, done, steps)
  }

  ghost predicate LogBeforeStore(loaded: Store, done: seq<Durable>) {
    forall cut :: 0 <= cut <= |done| ==> KillPoint(loaded, done[..cut])
  }

  /** Log and store are level. */
  ghost predicate Level(loaded: Store, done: seq<Durable>, steps: seq<Step>) {
    && Lawful(loaded, steps)
    && LogOf(done) == Events(steps)
    && SavedBy(loaded, done) == Replay(loaded, steps)
  }

  /** The durable steps of one step: the event first, then the store. */
  function DurableOf(s: Store, step: Step): seq<Durable> {
    (if step.Exported? then [LogRow(step.event)] else []) + [Save(Next(s, step))]
  }

  lemma OneMoreDurable(loaded: Store, done: seq<Durable>, d: Durable)
    requires LogBeforeStore(loaded, done) && KillPoint(loaded, done + [d])
    ensures LogBeforeStore(loaded, done + [d])
  {
    var next := done + [d];
    forall cut | 0 <= cut <= |next|
      ensures KillPoint(loaded, next[..cut])
    {
      if cut <= |done| {
        assert next[..cut] == done[..cut];
      } else {
        assert next[..cut] == next;
      }
    }
  }

  /** Logging before saving keeps every kill point safe. */
  lemma StepKeepsLogBeforeStore(loaded: Store, done: seq<Durable>, steps: seq<Step>, step: Step)
    requires LogBeforeStore(loaded, done) && Level(loaded, done, steps) && Legal(Replay(loaded, steps), step)
    ensures var next := done + DurableOf(Replay(loaded, steps), step);
            LogBeforeStore(loaded, next) && Level(loaded, next, steps + [step])
  {
    hide KillPoint, Explains, LogBeforeStore, Level, Legal, Next;
    var s, all := Replay(loaded, steps), steps + [step];
    StepLogged(loaded, done, steps, step);
    var mid := done;
    if step.Exported? {
      mid := done + [LogRow(step.event)];
      OneMoreDurable(loaded, done, LogRow(step.event));
    }
    var save := Save(Next(s, step));
    OneMoreDurable(loaded, mid, save);
    assert mid + [save] == done + DurableOf(s, step);
  }

  lemma StepLogged(loaded: Store, done: seq<Durable>, steps: seq<Step>, step: Step)
    requires Level(loaded, done, steps) && Legal(Replay(loaded, steps), step)
    ensures step.Exported? ==> KillPoint(loaded, done + [LogRow(step.event)])
    ensures var mid := if step.Exported? then done + [LogRow(step.event)] else done;
            var next := mid + [Save(Next(Replay(loaded, steps), step))];
            KillPoint(loaded, next) && Level(loaded, next, steps + [step])
  {
    hide Legal, Next, Replay, Lawful, Events, LogOf, SavedBy;
    var s, all := Replay(loaded, steps), steps + [step];
    OneMore(loaded, steps, step);
    assert all[..|steps|] == steps;
    var mid := done;
    if step.Exported? {
      mid := done + [LogRow(step.event)];
      OneMoreLine(loaded, done, LogRow(step.event));
      assert Explains(loaded, mid, all);
    }
    OneMoreLine(loaded, mid, Save(Next(s, step)));
    assert Explains(loaded, mid + [Save(Next(s, step))], all);
  }

  lemma OneMore(loaded: Store, steps: seq<Step>, step: Step)
    requires Lawful(loaded, steps) && Legal(Replay(loaded, steps), step)
    ensures Lawful(loaded, steps + [step]) && Replay(loaded, steps + [step]) == Next(Replay(loaded, steps), step)
    ensures Events(steps + [step]) == Events(steps) + (if step.Exported? then [step.event] else [])
  {
    assert (steps + [step])[..|steps|] == steps;
  }

  lemma OneMoreLine(loaded: Store, done: seq<Durable>, d: Durable)
    ensures LogOf(done + [d]) == LogOf(done) + (if d.LogRow? then [d.event] else [])
    ensures SavedBy(loaded, done + [d]) == if d.Save? then d.store else SavedBy(loaded, done)
  {
    assert (done + [d])[..|done|] == done;
  }

  // --- Kills and restarts ---------------------------------------------------

  /** Processes one after the other, each given by its durable steps up to a kill
      or a stop: it starts from what the one before had saved, and log and store
      are as every kill point of a process leaves them. */
  ghost predicate Sessions(s: Store, sessions: seq<seq<Durable>>)
    decreases |sessions|
  {
    sessions == [] || (KillPoint(s, sessions[0]) && Sessions(SavedBy(s, sessions[0]), sessions[1..]))
  }

  /** flagged.json after the last of them. */
  function SavedAfter(s: Store, sessions: seq<seq<Durable>>): Store
    decreases |sessions|
  {
    if sessions == [] then s else SavedAfter(SavedBy(s, sessions[0]), sessions[1..])
  }

  /** What one process logged: the events of the steps it saved and at most one
      more. */
  ghost predicate Logged(done: seq<Durable>, kept: seq<Step>, lost: seq<Event>) {
    |lost| <= 1 && LogOf(done) == Events(kept) + lost
  }

  lemma OneSession(s: Store, done: seq<Durable>) returns (kept: seq<Step>, lost: seq<Event>)
    requires KillPoint(s, done)
    ensures Logged(done, kept, lost) && Lawful(s, kept) && SavedBy(s, done) == Replay(s, kept)
  {
    var steps: seq<Step> :| Explains(s, done, steps);
    if SavedBy(s, done) == Replay(s, steps) {
      kept, lost := steps, [];
      assert Events(steps) + [] == Events(steps);
    } else {
      var n := |steps| - 1;
      kept, lost := steps[..n], [steps[n].event];
    }
  }

  lemma {:induction false} SavedSteps(s: Store, sessions: seq<seq<Durable>>)
    returns (kept: seq<seq<Step>>, lost: seq<seq<Event>>)
    requires Sessions(s, sessions)
    ensures |kept| == |lost| == |sessions|
    ensures forall i :: 0 <= i < |sessions| ==> Logged(sessions[i], kept[i], lost[i])
    ensures Lawful(s, Flatten(kept)) && SavedAfter(s, sessions) == Replay(s, Flatten(kept))
    decreases |sessions|
  {
    hide KillPoint, Logged;
    kept, lost := [], [];
    if sessions != [] {
      var first, last := OneSession(s, sessions[0]);
      var rest, others := SavedSteps(SavedBy(s, sessions[0]), sessions[1..]);
      kept, lost := [first] + rest, [last] + others;
      assert kept[1..] == rest;
      ReplayConcat(s, first, Flatten(rest));
      forall i | 0 <= i < |sessions|
        ensures Logged(sessions[i], kept[i], lost[i])
      {
        if i > 0 {
          assert sessions[i] == sessions[1..][i - 1];
        }
      }
    }
  }

  /** What kills do to the lifecycles.  From an empty store on, over any number of
      processes: apart from at most one event at the end of each of them, the one
      it had logged and not yet saved when it was killed, the events of a
      transaction are whole lifecycles and one open one exactly while it is
      stored. */
  lemma KillsAddOneEventEach(sessions: seq<seq<Durable>>)
    returns (kept: seq<seq<Step>>, lost: seq<seq<Event>>)
    requires Sessions(map[], sessions)
    ensures |kept| == |lost| == |sessions|
    ensures forall i :: 0 <= i < |sessions| ==> |lost[i]| <= 1 && LogOf(sessions[i]) == Events(kept[i]) + lost[i]
    ensures Lawful(map[], Flatten(kept))
    ensures forall x :: WholeLives(Word(Of(Flatten(kept), x)), Lookup(SavedAfter(map[], sessions), x))
  {
    kept, lost := SavedSteps(map[], sessions);
    forall i | 0 <= i < |sessions|
      ensures |lost[i]| <= 1 && LogOf(sessions[i]) == Events(kept[i]) + lost[i]
    {
      assert Logged(sessions[i], kept[i], lost[i]);
    }
    forall x
      ensures WholeLives(Word(Of(Flatten(kept), x)), Lookup(SavedAfter(map[], sessions), x))
    {
      EventsAreLifecycles(Flatten(kept), x);
    }
  }

  /** A process whose log is ahead of its store at every kill point by at most one
      event, killed anywhere, is such a session. */
  lemma KilledAnywhere(loaded: Store, done: seq<Durable>, cut: nat)
    requires LogBeforeStore(loaded, done) && cut <= |done|
    ensures Sessions(loaded, [done[..cut]])
  {
    assert [done[..cut]][1..] == [];
  }
}
