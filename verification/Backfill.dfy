/** The price backfill: a walk over the minutes of a range that may be killed,
    interrupted or refused at any point, and resumed. */
module Backfill {
  import opened Basics

  const STEP_SECONDS := 60
  const FLUSH_EVERY_STEPS := 1000

  /** A row of prices.csv. */
  datatype PriceRow = PriceRow(date: int, usd: Option<real>, eur: Option<real>)

  /** What a request yields: the price point nearest to the timestamp, which
      may have no time, or nothing. */
  datatype Entry = Entry(time: Option<int>, usd: Option<real>, eur: Option<real>)

  type Oracle = int -> Option<Entry>

  datatype Checkpoint = Checkpoint(rangeStart: int, next: int)

  /** prices.csv and the checkpoint file. */
  datatype Saved = Saved(rows: seq<PriceRow>, checkpoint: Option<Checkpoint>)

  datatype Action = AppendRows(rows: seq<PriceRow>) | SaveCheckpoint(checkpoint: Checkpoint)

  function Do(d: Saved, a: Action): Saved {
    match a
    case AppendRows(rows) => d.(rows := d.rows + rows)
    case SaveCheckpoint(c) => d.(checkpoint := Some(c))
  }

  function DoAll(d: Saved, acts: seq<Action>): Saved
    decreases |acts|
  {
    if acts == [] then d else Do(DoAll(d, acts[..|acts| - 1]), acts[|acts| - 1])
  }

  lemma {:induction false} DoAppend(d: Saved, xs: seq<Action>, ys: seq<Action>)
    ensures DoAll(d, xs + ys) == DoAll(DoAll(d, xs), ys)
    decreases |ys|
  {
    if ys == [] {
      assert xs + ys == xs;
    } else {
      var n := |ys| - 1;
      assert (xs + ys)[..|xs + ys| - 1] == xs + ys[..n];
      DoAppend(d, xs, ys[..n]);
    }
  }

  // --- What a run does -------------------------------------------------------

  /** Only a checkpoint of the same range is resumed. */
  function Resume(d: Saved, start: int): int {
    if d.checkpoint.Some? && d.checkpoint.value.rangeStart == start then d.checkpoint.value.next else start
  }

  function Dates(rows: seq<PriceRow>): (dates: set<int>)
    ensures forall i :: 0 <= i < |rows| ==> rows[i].date in dates
    ensures forall x :: x in dates ==> exists i :: 0 <= i < |rows| && rows[i].date == x
  {
    set i | 0 <= i < |rows| :: rows[i].date
  }

  /** The row an entry adds to `rows`, if its date is new. */
  function NewRow(rows: seq<PriceRow>, e: Option<Entry>): seq<PriceRow> {
    if e.Some? && e.value.time.Some? && e.value.time.value !in Dates(rows)
    then [PriceRow(e.value.time.value, e.value.usd, e.value.eur)]
    else []
  }

  datatype Refusal = Answered | RateLimited | FetchFailed

  /** Where in a step an interrupt lands: before or after its row is staged,
      after the timestamp has advanced, or, if the step flushes, after the rows
      are appended and before they are forgotten.  Later in that flush it is as
      after the timestamp has advanced; in the flush on the way out it is a kill. */
  datatype Point = BeforeRow | AfterRow | AfterStep | AfterAppend

  datatype Interrupt = Interrupt(step: nat, point: Point)

  /** How one run goes: which request is refused, after which step the flush
      interval has passed, and where it is interrupted. */
  datatype Attempt = Attempt(refusal: int -> Refusal, due: nat -> bool, interrupt: Option<Interrupt>)

  datatype Exit = Finished | BadRange | Limited | Failed | Interrupted

  datatype RunResult = RunResult(acts: seq<Action>, exit: Exit)

  function WriteActs(pending: seq<PriceRow>): seq<Action> {
    if pending == [] then [] else [AppendRows(pending)]
  }

  function FlushActs(start: int, t: int, pending: seq<PriceRow>): seq<Action> {
    WriteActs(pending) + [SaveCheckpoint(Checkpoint(start, t))]
  }

  predicate FlushDue(run: Attempt, k: nat, since: nat) {
    since + 1 >= FLUSH_EVERY_STEPS || run.due(k)
  }

  function Before(acts: seq<Action>, r: RunResult): RunResult {
    r.(acts := acts + r.acts)
  }

  /** The loop at timestamp `t`, after `k` steps, `since` of them since the last
      flush, with `rows` on disk. */
  function Loop(price: Oracle, run: Attempt, start: int, end: int, t: int, k: nat, since: nat,
                rows: seq<PriceRow>, pending: seq<PriceRow>): RunResult
    decreases end - t
  {
    if t > end then RunResult(FlushActs(start, t, pending), Finished)
    else if run.interrupt == Some(Interrupt(k, BeforeRow)) then RunResult(FlushActs(start, t, pending), Interrupted)
    else if run.refusal(t).RateLimited? then RunResult(FlushActs(start, t, pending), Limited)
    else if run.refusal(t).FetchFailed? then RunResult(FlushActs(start, t, pending), Failed)
    else
      var staged := pending + NewRow(rows + pending, price(t));
      if run.interrupt == Some(Interrupt(k, AfterRow)) then RunResult(FlushActs(start, t, staged), Interrupted)
      else if run.interrupt == Some(Interrupt(k, AfterStep)) then
        RunResult(FlushActs(start, t + STEP_SECONDS, staged), Interrupted)
      else if FlushDue(run, k, since) then
        if run.interrupt == Some(Interrupt(k, AfterAppend)) then
          RunResult(WriteActs(staged) + FlushActs(start, t + STEP_SECONDS, staged), Interrupted)
        else
          Before(FlushActs(start, t + STEP_SECONDS, staged),
                 Loop(price, run, start, end, t + STEP_SECONDS, k + 1, 0, rows + staged, []))
      else
        Loop(price, run, start, end, t + STEP_SECONDS, k + 1, since + 1, rows, staged)
  }

  /** One step of the loop. */
  lemma LoopNext(price: Oracle, run: Attempt, start: int, end: int, t: int, k: nat, since: nat,
                 rows: seq<PriceRow>, pending: seq<PriceRow>)
    ensures var r, after := Loop(price, run, start, end, t, k, since, rows, pending), t + STEP_SECONDS;
            var staged, at := pending + NewRow(rows + pending, price(t)), p => run.interrupt == Some(Interrupt(k, p));
            if t > end then r == RunResult(FlushActs(start, t, pending), Finished)
            else if at(BeforeRow) then r == RunResult(FlushActs(start, t, pending), Interrupted)
            else if run.refusal(t).RateLimited? then r == RunResult(FlushActs(start, t, pending), Limited)
            else if run.refusal(t).FetchFailed? then r == RunResult(FlushActs(start, t, pending), Failed)
            else if at(AfterRow) then r == RunResult(FlushActs(start, t, staged), Interrupted)
            else if at(AfterStep) then r == RunResult(FlushActs(start, after, staged), Interrupted)
            else if !FlushDue(run, k, since) then
              r == Loop(price, run, start, end, after, k + 1, since + 1, rows, staged)
            else if at(AfterAppend) then
              r == Before(WriteActs(staged), RunResult(FlushActs(start, after, staged), Interrupted))
            else
              r == Before(FlushActs(start, after, staged),
                          Loop(price, run, start, end, after, k + 1, 0, rows + staged, []))
  {
  }

  function RunBackfill(price: Oracle, run: Attempt, start: int, end: int, d: Saved): RunResult {
    if end < start then RunResult([], BadRange)
    else if Resume(d, start) > end then RunResult([], Finished)
    else Loop(price, run, start, end, Resume(d, start), 0, 0, d.rows, [])
  }

  // --- The walk --------------------------------------------------------------

  /** prices.csv after the first `n` minutes from `base` on. */
  function Walk(price: Oracle, rows: seq<PriceRow>, base: int, n: nat): seq<PriceRow> {
    if n == 0 then rows
    else
      var before := Walk(price, rows, base, n - 1);
      before + NewRow(before, price(base + STEP_SECONDS * (n - 1)))
  }

  function StepsTo(base: int, end: int): nat {
    if end < base then 0 else (end - base) / STEP_SECONDS + 1
  }

  ghost predicate AddsOnce(rows: seq<PriceRow>, all: seq<PriceRow>) {
    && rows <= all
    && forall i, j :: |rows| <= j < |all| && 0 <= i < j ==> all[i].date != all[j].date
  }

  ghost predicate DateIn(e: Option<Entry>, rows: seq<PriceRow>) {
    e.Some? && e.value.time.Some? ==> e.value.time.value in Dates(rows)
  }

  lemma AddsOneMore(rows: seq<PriceRow>, before: seq<PriceRow>, e: Option<Entry>)
    requires AddsOnce(rows, before)
    ensures AddsOnce(rows, before + NewRow(before, e))
  {
    var more := NewRow(before, e);
    forall i, j | |rows| <= j < |before + more| && 0 <= i < j
      ensures (before + more)[i].date != (before + more)[j].date
    {
      assert before[i].date in Dates(before);
    }
  }

  /** A date is added once, and never if it was there before. */
  lemma WalkAddsOnce(price: Oracle, rows: seq<PriceRow>, base: int, n: nat)
    ensures var all := Walk(price, rows, base, n);
            && rows <= all
            && (forall i, j :: |rows| <= j < |all| && 0 <= i < j ==> all[i].date != all[j].date)
            && (forall m: nat :: m < n ==>
                  var e := price(base + STEP_SECONDS * m);
                  e.Some? && e.value.time.Some? ==> e.value.time.value in Dates(all))
  {
    WalkKeepsDates(price, rows, base, n);
    forall m: nat | m < n
      ensures var e := price(base + STEP_SECONDS * m);
              e.Some? && e.value.time.Some? ==> e.value.time.value in Dates(Walk(price, rows, base, n))
    {
      assert DateIn(price(base + STEP_SECONDS * m), Walk(price, rows, base, n));
    }
  }

  lemma {:induction false} WalkKeepsDates(price: Oracle, rows: seq<PriceRow>, base: int, n: nat)
    ensures var all := Walk(price, rows, base, n);
            AddsOnce(rows, all) && forall m: nat :: m < n ==> DateIn(price(base + STEP_SECONDS * m), all)
  {
    if n > 0 {
      WalkKeepsDates(price, rows, base, n - 1);
      var before, e := Walk(price, rows, base, n - 1), price(base + STEP_SECONDS * (n - 1));
      assert Walk(price, rows, base, n) == before + NewRow(before, e);
      hide Walk, NewRow, AddsOnce, Dates;
      AddsOneMore(rows, before, e);
      NewRowIsNew(before, e);
    }
  }

  /** After an entry its date is there, and no date is there twice that was not. */
  lemma NewRowIsNew(rows: seq<PriceRow>, e: Option<Entry>)
    ensures var more := NewRow(rows, e);
            && |more| <= 1 && (more != [] ==> more[0].date !in Dates(rows))
            && Dates(rows) <= Dates(rows + more)
            && (e.Some? && e.value.time.Some? ==> e.value.time.value in Dates(rows + more))
  {
    var more := NewRow(rows, e);
    if more == [] {
      assert rows + more == rows;
    } else {
      DatesOneMore(rows, more[0]);
    }
  }

  /** Walking a minute again adds nothing. */
  lemma WalkAgain(price: Oracle, rows: seq<PriceRow>, base: int, n: nat, m: nat)
    requires m < n
    ensures NewRow(Walk(price, rows, base, n), price(base + STEP_SECONDS * m)) == []
  {
    WalkAddsOnce(price, rows, base, n);
  }

  // --- Repeats -----------------------------------------------------------------

  /** The rows without those that repeat an earlier date, of which the first `n`
      are kept. */
  function Once(n: nat, rows: seq<PriceRow>): seq<PriceRow> {
    if |rows| <= n then rows
    else
      var kept, last := Once(n, rows[..|rows| - 1]), rows[|rows| - 1];
      kept + if last.date in Dates(kept) then [] else [last]
  }

  /** A date was added that was there already. */
  ghost predicate AddedTwice(rows: seq<PriceRow>, all: seq<PriceRow>) {
    exists i, j :: 0 <= i < j < |all| && |rows| <= j && all[i].date == all[j].date
  }

  lemma DatesOf(rows: seq<PriceRow>, all: seq<PriceRow>)
    requires forall r :: r in rows ==> r in all
    ensures Dates(rows) <= Dates(all)
  {
    forall x | x in Dates(rows)
      ensures x in Dates(all)
    {
      var i :| 0 <= i < |rows| && rows[i].date == x;
      assert rows[i] in all;
    }
  }

  lemma {:induction false} OnceKeepsDates(n: nat, rows: seq<PriceRow>)
    ensures Dates(Once(n, rows)) == Dates(rows)
    ensures |rows| >= n ==> rows[..n] <= Once(n, rows)
    decreases |rows|
  {
    if |rows| > n {
      var m := |rows| - 1;
      var kept := Once(n, rows[..m]);
      OnceKeepsDates(n, rows[..m]);
      assert rows[..m] + [rows[m]] == rows;
      DatesOneMore(rows[..m], rows[m]);
      DatesOneMore(kept, rows[m]);
      assert kept + [] == kept && rows[..m][..n] == rows[..n];
    } else {
      assert rows[..|rows|] == rows;
    }
  }

  /** Rows of new dates are kept, rows of old ones dropped. */
  lemma OnceMore(n: nat, rows: seq<PriceRow>, e: Option<Entry>)
    requires n <= |rows|
    ensures Once(n, rows + NewRow(rows, e)) == Once(n, rows) + NewRow(Once(n, rows), e)
    ensures NewRow(rows, e) == NewRow(Once(n, rows), e)
  {
    OnceKeepsDates(n, rows);
    var more := NewRow(rows, e);
    if more == [] {
      assert rows + more == rows && Once(n, rows) + [] == Once(n, rows);
    } else {
      assert (rows + more)[..|rows + more| - 1] == rows;
    }
  }

  lemma {:induction false} OnceAgain(n: nat, rows: seq<PriceRow>, more: seq<PriceRow>)
    requires n <= |rows| && Dates(more) <= Dates(rows)
    ensures Once(n, rows + more) == Once(n, rows)
    decreases |more|
  {
    if more == [] {
      assert rows + more == rows;
    } else {
      var m := |more| - 1;
      DatesOf(more[..m], more);
      OnceAgain(n, rows, more[..m]);
      OnceKeepsDates(n, rows);
      assert (rows + more)[..|rows + more| - 1] == rows + more[..m];
      assert more[m].date in Dates(more);
      assert Once(n, rows) + [] == Once(n, rows);
    }
  }

  lemma {:induction false} OnceIsAll(n: nat, rows: seq<PriceRow>)
    requires forall i, j :: 0 <= i < j < |rows| && n <= j ==> rows[i].date != rows[j].date
    ensures Once(n, rows) == rows
    decreases |rows|
  {
    if |rows| > n {
      OnceIsAll(n, rows[..|rows| - 1]);
    }
  }

  // --- Resumability ------------------------------------------------------------

  /** On disk are, but for repeats, the rows of the first `n` minutes, and the
      next run starts at minute `c`, which is not beyond them. */
  ghost predicate At(price: Oracle, start: int, end: int, rows0: seq<PriceRow>, base: int, d: Saved, c: nat, n: nat) {
    && c <= n <= StepsTo(base, end)
    && rows0 <= d.rows && Once(|rows0|, d.rows) == Walk(price, rows0, base, n)
    && Resume(d, start) == base + STEP_SECONDS * c
  }

  ghost predicate OnTrack(price: Oracle, start: int, end: int, rows0: seq<PriceRow>, base: int, d: Saved) {
    exists c, n :: At(price, start, end, rows0, base, d, c, n)
  }

  /** Every point at which `acts` can be cut is on track. */
  ghost predicate Safe(price: Oracle, start: int, end: int, rows0: seq<PriceRow>, base: int, d: Saved,
                       acts: seq<Action>) {
    forall cut :: 0 <= cut <= |acts| ==> OnTrack(price, start, end, rows0, base, DoAll(d, acts[..cut]))
  }

  lemma SafeSum(price: Oracle, start: int, end: int, rows0: seq<PriceRow>, base: int, d: Saved, xs: seq<Action>,
                ys: seq<Action>)
    requires Safe(price, start, end, rows0, base, d, xs)
    requires Safe(price, start, end, rows0, base, DoAll(d, xs), ys)
    ensures Safe(price, start, end, rows0, base, d, xs + ys)
  {
    forall cut | 0 <= cut <= |xs + ys|
      ensures OnTrack(price, start, end, rows0, base, DoAll(d, (xs + ys)[..cut]))
    {
      if cut <= |xs| {
        assert (xs + ys)[..cut] == xs[..cut];
      } else {
        assert (xs + ys)[..cut] == xs + ys[..cut - |xs|];
        DoAppend(d, xs, ys[..cut - |xs|]);
      }
    }
  }

  /** Appending what is staged. */
  lemma WriteIsSafe(price: Oracle, start: int, end: int, rows0: seq<PriceRow>, base: int, d: Saved, c: nat, n: nat,
                    pending: seq<PriceRow>, n': nat)
    requires At(price, start, end, rows0, base, d, c, n)
    requires c <= n' <= StepsTo(base, end) && Once(|rows0|, d.rows + pending) == Walk(price, rows0, base, n')
    ensures var acts := WriteActs(pending);
            && Safe(price, start, end, rows0, base, d, acts)
            && DoAll(d, acts) == d.(rows := d.rows + pending)
            && At(price, start, end, rows0, base, DoAll(d, acts), c, n')
  {
    hide Once, Walk, StepsTo;
    var acts, e := WriteActs(pending), d.(rows := d.rows + pending);
    assert At(price, start, end, rows0, base, e, c, n');
    assert At(price, start, end, rows0, base, d, c, n);
    if pending == [] {
      assert d.rows + pending == d.rows;
    } else {
      assert acts[..0] == [] && acts[..1] == acts;
    }
  }

  lemma SaveIsSafe(price: Oracle, start: int, end: int, rows0: seq<PriceRow>, base: int, d: Saved, c: nat, n: nat,
                   m: nat)
    requires At(price, start, end, rows0, base, d, c, n) && m <= n
    ensures var acts := [SaveCheckpoint(Checkpoint(start, base + STEP_SECONDS * m))];
            && Safe(price, start, end, rows0, base, d, acts)
            && DoAll(d, acts) == d.(checkpoint := Some(acts[0].checkpoint))
            && At(price, start, end, rows0, base, DoAll(d, acts), m, n)
  {
    hide Once, Walk, StepsTo;
    var acts := [SaveCheckpoint(Checkpoint(start, base + STEP_SECONDS * m))];
    assert acts[..0] == [] && acts[..1] == acts;
    assert At(price, start, end, rows0, base, Do(d, acts[0]), m, n);
  }

  /** A flush at minute `m` of what is staged. */
  lemma FlushIsSafe(price: Oracle, start: int, end: int, rows0: seq<PriceRow>, base: int, d: Saved, c: nat, n: nat,
                    pending: seq<PriceRow>, m: nat, n': nat)
    requires At(price, start, end, rows0, base, d, c, n)
    requires m <= n' <= StepsTo(base, end) && c <= n' && Once(|rows0|, d.rows + pending) == Walk(price, rows0, base, n')
    ensures var acts := FlushActs(start, base + STEP_SECONDS * m, pending);
            && Safe(price, start, end, rows0, base, d, acts)
            && At(price, start, end, rows0, base, DoAll(d, acts), m, n')
            && DoAll(d, acts) == Saved(d.rows + pending, Some(Checkpoint(start, base + STEP_SECONDS * m)))
  {
    hide Once, Walk, StepsTo, Safe, DoAll, At, WriteActs;
    var save := [SaveCheckpoint(Checkpoint(start, base + STEP_SECONDS * m))];
    WriteIsSafe(price, start, end, rows0, base, d, c, n, pending, n');
    var e := DoAll(d, WriteActs(pending));
    SaveIsSafe(price, start, end, rows0, base, e, c, n', m);
    SafeSum(price, start, end, rows0, base, d, WriteActs(pending), save);
    DoAppend(d, WriteActs(pending), save);
  }

  /** A flush that is interrupted once the rows are appended: the flush on the
      way out appends them again. */
  lemma FlushTwiceIsSafe(price: Oracle, start: int, end: int, rows0: seq<PriceRow>, base: int, d: Saved, c: nat, n: nat,
                         pending: seq<PriceRow>, m: nat, n': nat)
    requires At(price, start, end, rows0, base, d, c, n)
    requires m <= n' <= StepsTo(base, end) && c <= n' && Once(|rows0|, d.rows + pending) == Walk(price, rows0, base, n')
    ensures Safe(price, start, end, rows0, base, d,
                 WriteActs(pending) + FlushActs(start, base + STEP_SECONDS * m, pending))
  {
    hide Once, Walk, StepsTo, Safe, DoAll, WriteActs, FlushActs;
    WriteIsSafe(price, start, end, rows0, base, d, c, n, pending, n');
    var e := DoAll(d, WriteActs(pending));
    DatesOf(pending, d.rows + pending);
    OnceAgain(|rows0|, d.rows + pending, pending);
    FlushIsSafe(price, start, end, rows0, base, e, c, n', pending, m, n');
    SafeSum(price, start, end, rows0, base, d, WriteActs(pending), FlushActs(start, base + STEP_SECONDS * m, pending));
  }

  /** One more minute, new or walked again. */
  lemma OneMoreMinute(price: Oracle, rows0: seq<PriceRow>, base: int, m: nat, n: nat)
    ensures var all := Walk(price, rows0, base, if m < n then n else m);
            all + NewRow(all, price(base + STEP_SECONDS * m))
            == Walk(price, rows0, base, if m + 1 < n then n else m + 1)
  {
    if m < n {
      WalkAgain(price, rows0, base, n, m);
      var all := Walk(price, rows0, base, n);
      assert all + [] == all;
    }
  }

  /** `steps` of `base` lie in the range exactly as far as StepsTo says. */
  lemma InRange(base: int, end: int, m: nat)
    ensures base + STEP_SECONDS * m <= end <==> m < StepsTo(base, end)
  {
  }

  lemma {:induction false} LoopIsSafe(price: Oracle, run: Attempt, start: int, end: int, rows0: seq<PriceRow>,
                                      base: int, d: Saved, c: nat, n: nat, m: nat, k: nat, since: nat,
                                      pending: seq<PriceRow>)
    requires At(price, start, end, rows0, base, d, c, n)
    requires c <= m <= StepsTo(base, end)
    requires Once(|rows0|, d.rows + pending) == Walk(price, rows0, base, if m < n then n else m)
    ensures var r := Loop(price, run, start, end, base + STEP_SECONDS * m, k, since, d.rows, pending);
            && Safe(price, start, end, rows0, base, d, r.acts)
            && (r.exit.Finished? ==>
                  At(price, start, end, rows0, base, DoAll(d, r.acts), StepsTo(base, end), StepsTo(base, end)))
    decreases StepsTo(base, end) - m
  {
    hide Safe, DoAll, Walk, NewRow, FlushActs, WriteActs, StepsTo, Once;
    var t, now := base + STEP_SECONDS * m, if m < n then n else m;
    InRange(base, end, m);
    FlushIsSafe(price, start, end, rows0, base, d, c, n, pending, m, now);
    if t <= end && run.interrupt != Some(Interrupt(k, BeforeRow)) && run.refusal(t).Answered? {
      OneMoreMinute(price, rows0, base, m, n);
      var staged := pending + NewRow(d.rows + pending, price(t));
      var next := if m + 1 < n then n else m + 1;
      OnceMore(|rows0|, d.rows + pending, price(t));
      assert d.rows + staged == d.rows + pending + NewRow(d.rows + pending, price(t));
      assert base + STEP_SECONDS * (m + 1) == t + STEP_SECONDS;
      FlushIsSafe(price, start, end, rows0, base, d, c, n, staged, m, next);
      FlushIsSafe(price, start, end, rows0, base, d, c, n, staged, m + 1, next);
      var stops := run.interrupt == Some(Interrupt(k, AfterRow)) || run.interrupt == Some(Interrupt(k, AfterStep));
      if !stops && FlushDue(run, k, since) && run.interrupt == Some(Interrupt(k, AfterAppend)) {
        FlushTwiceIsSafe(price, start, end, rows0, base, d, c, n, staged, m + 1, next);
      } else if !stops && FlushDue(run, k, since) {
        var acts := FlushActs(start, t + STEP_SECONDS, staged);
        var e := DoAll(d, acts);
        assert e.rows + [] == e.rows;
        LoopIsSafe(price, run, start, end, rows0, base, e, m + 1, next, m + 1, k + 1, 0, []);
        var rest := Loop(price, run, start, end, t + STEP_SECONDS, k + 1, 0, d.rows + staged, []).acts;
        SafeSum(price, start, end, rows0, base, d, acts, rest);
        DoAppend(d, acts, rest);
      } else if !stops {
        LoopIsSafe(price, run, start, end, rows0, base, d, c, n, m + 1, k + 1, since + 1, staged);
      }
    }
  }

  lemma NothingSafe(price: Oracle, start: int, end: int, rows0: seq<PriceRow>, base: int, d: Saved)
    requires OnTrack(price, start, end, rows0, base, d)
    ensures Safe(price, start, end, rows0, base, d, []) && DoAll(d, []) == d
  {
  }

  /** Every kill point of a run keeps the files on track, and a run that
      finishes has all minutes. */
  lemma RunIsSafe(price: Oracle, run: Attempt, start: int, end: int, rows0: seq<PriceRow>, base: int, d: Saved)
    requires OnTrack(price, start, end, rows0, base, d)
    ensures var r := RunBackfill(price, run, start, end, d);
            && Safe(price, start, end, rows0, base, d, r.acts)
            && (r.exit.Finished? ==>
                  At(price, start, end, rows0, base, DoAll(d, r.acts), StepsTo(base, end), StepsTo(base, end)))
  {
    hide Safe, DoAll, Walk, Loop, StepsTo, Once;
    var c, n :| At(price, start, end, rows0, base, d, c, n);
    InRange(base, end, c);
    NothingSafe(price, start, end, rows0, base, d);
    assert d.rows + [] == d.rows;
    LoopIsSafe(price, run, start, end, rows0, base, d, c, n, c, 0, 0, []);
  }

  // --- When rows are repeated ----------------------------------------------------

  /** How many steps were done at the last flush before step `k`. */
  function FlushedBy(run: Attempt, k: nat): (n: nat)
    ensures n <= k
  {
    if k == 0 then 0
    else
      var n := FlushedBy(run, k - 1);
      if FlushDue(run, k - 1, k - 1 - n) then k else n
  }

  /** The interrupt hits the flush of a step that the run gets to, between the
      append and the reset, and there is a row to append. */
  ghost predicate Repeats(price: Oracle, run: Attempt, start: int, end: int, d: Saved) {
    && start <= end && run.interrupt.Some? && run.interrupt.value.point.AfterAppend?
    && var k, from := run.interrupt.value.step, Resume(d, start);
       && k < StepsTo(from, end)
       && (forall i: nat :: i <= k ==> run.refusal(from + STEP_SECONDS * i).Answered?)
       && FlushDue(run, k, k - FlushedBy(run, k))
       && Walk(price, d.rows, from, FlushedBy(run, k)) != Walk(price, d.rows, from, k + 1)
  }

  /** Cut after `cut` actions, `acts` repeat rows exactly if they do so at all and
      the second append is among them; otherwise they leave those of some first
      minutes. */
  ghost predicate RepeatsOrWalks(price: Oracle, rows0: seq<PriceRow>, from: int, d: Saved, acts: seq<Action>,
                                 twice: bool) {
    && (twice ==> |acts| >= 3)
    && forall cut :: 0 <= cut <= |acts| ==>
         var rows := DoAll(d, acts[..cut]).rows;
         rows0 <= rows &&
         if twice && cut >= |acts| - 1 then AddedTwice(rows0, rows) else exists m: nat ::
              rows == Walk(price, rows0, from, m)
  }

  lemma FlushWalks(price: Oracle, rows0: seq<PriceRow>, from: int, d: Saved, start: int, t: int,
                   pending: seq<PriceRow>, n: nat, m: nat)
    requires d.rows == Walk(price, rows0, from, n) && d.rows + pending == Walk(price, rows0, from, m)
    ensures var acts := FlushActs(start, t, pending);
            RepeatsOrWalks(price, rows0, from, d, acts, false) && DoAll(d, acts).rows == d.rows + pending
  {
    hide Walk;
    WalkAddsOnce(price, rows0, from, n);
    WalkAddsOnce(price, rows0, from, m);
    var acts := FlushActs(start, t, pending);
    var save := SaveCheckpoint(Checkpoint(start, t));
    if pending == [] {
      assert acts == [save] && acts[..0] == [] && acts[..1] == acts;
      assert d.rows + pending == d.rows;
    } else {
      assert acts == [AppendRows(pending), save] && acts[..0] == [] && acts[..1] == [AppendRows(pending)]
             && acts[..2] == acts;
      assert acts[..1][..0] == [];
    }
  }

  lemma FlushTwiceRepeats(price: Oracle, rows0: seq<PriceRow>, from: int, d: Saved, start: int, t: int,
                          pending: seq<PriceRow>, n: nat, m: nat)
    requires d.rows == Walk(price, rows0, from, n) && d.rows + pending == Walk(price, rows0, from, m)
    ensures RepeatsOrWalks(price, rows0, from, d, WriteActs(pending) + FlushActs(start, t, pending),
                           d.rows != d.rows + pending)
  {
    hide Walk;
    FlushWalks(price, rows0, from, d, start, t, pending, n, m);
    WalkAddsOnce(price, rows0, from, n);
    WalkAddsOnce(price, rows0, from, m);
    var acts := WriteActs(pending) + FlushActs(start, t, pending);
    var write, save := AppendRows(pending), SaveCheckpoint(Checkpoint(start, t));
    if pending == [] {
      assert acts == FlushActs(start, t, pending) && d.rows + pending == d.rows;
    } else {
      assert |d.rows + pending| > |d.rows|;
      assert acts == [write, write, save];
      assert acts[..0] == [] && acts[..1] == [write] && acts[..2] == [write, write] && acts[..3] == acts;
      assert acts[..1][..0] == [] && acts[..2][..1] == [write] && acts[..3][..2] == [write, write];
      var all := d.rows + pending + pending;
      assert all[|d.rows|] == pending[0] == all[|d.rows| + |pending|];
      assert AddedTwice(rows0, all);
    }
  }

  lemma WalksThen(price: Oracle, rows0: seq<PriceRow>, from: int, d: Saved, xs: seq<Action>, ys: seq<Action>,
                  twice: bool)
    requires RepeatsOrWalks(price, rows0, from, d, xs, false)
    requires RepeatsOrWalks(price, rows0, from, DoAll(d, xs), ys, twice)
    ensures RepeatsOrWalks(price, rows0, from, d, xs + ys, twice)
  {
    hide Walk, AddedTwice;
    forall cut | 0 <= cut <= |xs + ys|
      ensures var rows := DoAll(d, (xs + ys)[..cut]).rows;
              rows0 <= rows &&
              if twice && cut >= |xs + ys| - 1 then AddedTwice(rows0, rows) else exists m: nat ::
                   rows == Walk(price, rows0, from, m)
    {
      if cut <= |xs| {
        assert (xs + ys)[..cut] == xs[..cut];
      } else {
        assert (xs + ys)[..cut] == xs + ys[..cut - |xs|];
        DoAppend(d, xs, ys[..cut - |xs|]);
      }
    }
  }

  /** What is left of the condition at step `k`. */
  lemma RepeatsAt(price: Oracle, run: Attempt, start: int, end: int, d: Saved, k: nat)
    requires start <= end && (Repeats(price, run, start, end, d) ==> k <= run.interrupt.value.step)
    requires forall i: nat :: i < k ==> run.refusal(Resume(d, start) + STEP_SECONDS * i).Answered?
    ensures var twice, from := Repeats(price, run, start, end, d), Resume(d, start);
            var hit := run.interrupt == Some(Interrupt(k, AfterAppend)) && FlushDue(run, k, k - FlushedBy(run, k));
            && (twice ==> k < StepsTo(from, end) && run.refusal(from + STEP_SECONDS * k).Answered?)
            && (twice ==> run.interrupt.value.point.AfterAppend? && (hit || k + 1 <= run.interrupt.value.step))
            && (hit && k < StepsTo(from, end) && run.refusal(from + STEP_SECONDS * k).Answered? ==>
                  (twice <==> Walk(price, d.rows, from, FlushedBy(run, k)) != Walk(price, d.rows, from, k + 1)))
  {
    hide Walk, StepsTo, FlushDue, FlushedBy;
  }

  lemma NextMinute(price: Oracle, rows: seq<PriceRow>, from: int, k: nat, pending: seq<PriceRow>, d: Saved)
    requires d.rows + pending == Walk(price, rows, from, k)
    ensures d.rows + (pending + NewRow(d.rows + pending, price(from + STEP_SECONDS * k)))
            == Walk(price, rows, from, k + 1)
  {
    var more := NewRow(d.rows + pending, price(from + STEP_SECONDS * k));
    assert d.rows + (pending + more) == d.rows + pending + more;
  }

  lemma {:induction false} LoopRepeats(price: Oracle, run: Attempt, start: int, end: int, d0: Saved, d: Saved,
                                       k: nat, pending: seq<PriceRow>)
    requires start <= end && (Repeats(price, run, start, end, d0) ==> k <= run.interrupt.value.step)
    requires var from := Resume(d0, start);
             && k <= StepsTo(from, end)
             && (forall i: nat :: i < k ==> run.refusal(from + STEP_SECONDS * i).Answered?)
             && d.rows == Walk(price, d0.rows, from, FlushedBy(run, k))
             && d.rows + pending == Walk(price, d0.rows, from, k)
    ensures var from := Resume(d0, start);
            var r := Loop(price, run, start, end, from + STEP_SECONDS * k, k, k - FlushedBy(run, k), d.rows, pending);
            && RepeatsOrWalks(price, d0.rows, from, d, r.acts, Repeats(price, run, start, end, d0))
            && (Repeats(price, run, start, end, d0) ==> r.exit.Interrupted?)
    decreases StepsTo(Resume(d0, start), end) - k
  {
    hide DoAll, FlushActs, WriteActs, StepsTo, NewRow, RepeatsOrWalks, FlushDue, Repeats, Walk;
    var from, n := Resume(d0, start), FlushedBy(run, k);
    var t := from + STEP_SECONDS * k;
    InRange(from, end, k);
    RepeatsAt(price, run, start, end, d0, k);
    FlushWalks(price, d0.rows, from, d, start, t, pending, n, k);
    if t <= end && run.interrupt != Some(Interrupt(k, BeforeRow)) && run.refusal(t).Answered? {
      var staged := pending + NewRow(d.rows + pending, price(t));
      NextMinute(price, d0.rows, from, k, pending, d);
      assert from + STEP_SECONDS * (k + 1) == t + STEP_SECONDS;
      FlushWalks(price, d0.rows, from, d, start, t, staged, n, k + 1);
      FlushWalks(price, d0.rows, from, d, start, t + STEP_SECONDS, staged, n, k + 1);
      var stops := run.interrupt == Some(Interrupt(k, AfterRow)) || run.interrupt == Some(Interrupt(k, AfterStep));
      if !stops && FlushDue(run, k, k - n) && run.interrupt == Some(Interrupt(k, AfterAppend)) {
        FlushTwiceRepeats(price, d0.rows, from, d, start, t + STEP_SECONDS, staged, n, k + 1);
      } else if !stops && FlushDue(run, k, k - n) {
        var acts := FlushActs(start, t + STEP_SECONDS, staged);
        var e := DoAll(d, acts);
        assert e.rows + [] == e.rows;
        LoopRepeats(price, run, start, end, d0, e, k + 1, []);
        var rest := Loop(price, run, start, end, t + STEP_SECONDS, k + 1, 0, d.rows + staged, []).acts;
        WalksThen(price, d0.rows, from, d, acts, rest, Repeats(price, run, start, end, d0));
      } else if !stops {
        LoopRepeats(price, run, start, end, d0, d, k + 1, staged);
      }
    }
  }

  // --- Series of runs ------------------------------------------------------------

  /** A run, killed after `cut` durable steps if there is one. */
  datatype Event = Event(run: Attempt, cut: Option<nat>)

  function Acts(price: Oracle, start: int, end: int, d: Saved, e: Event): seq<Action> {
    var acts := RunBackfill(price, e.run, start, end, d).acts;
    if e.cut.Some? && e.cut.value <= |acts| then acts[..e.cut.value] else acts
  }

  /** The run repeats rows, and is not killed before it does. */
  ghost predicate EventRepeats(price: Oracle, start: int, end: int, d: Saved, e: Event) {
    && Repeats(price, e.run, start, end, d)
    && (e.cut.Some? ==> e.cut.value >= |RunBackfill(price, e.run, start, end, d).acts| - 1)
  }

  lemma WalkAddsNoneTwice(price: Oracle, rows: seq<PriceRow>, from: int, m: nat)
    ensures rows <= Walk(price, rows, from, m) && !AddedTwice(rows, Walk(price, rows, from, m))
  {
    WalkAddsOnce(price, rows, from, m);
  }

  lemma WalkNone(price: Oracle, rows: seq<PriceRow>, from: int)
    ensures rows + [] == rows == Walk(price, rows, from, 0)
  {
  }

  lemma NothingWalks(price: Oracle, d: Saved, from: int)
    ensures RepeatsOrWalks(price, d.rows, from, d, [], false)
  {
    assert d.rows == Walk(price, d.rows, from, 0);
  }

  /** From any files a run adds a date twice if and only if it repeats rows. */
  lemma AddsTwiceIff(price: Oracle, start: int, end: int, d: Saved, e: Event)
    ensures var all := DoAll(d, Acts(price, start, end, d, e)).rows;
            d.rows <= all && (AddedTwice(d.rows, all) <==> EventRepeats(price, start, end, d, e))
    ensures Repeats(price, e.run, start, end, d) ==> RunBackfill(price, e.run, start, end, d).exit.Interrupted?
  {
    hide Walk, AddedTwice, Loop, DoAll, StepsTo;
    var from, twice := Resume(d, start), Repeats(price, e.run, start, end, d);
    var r := RunBackfill(price, e.run, start, end, d);
    if start <= end && from <= end {
      WalkNone(price, d.rows, from);
      LoopRepeats(price, e.run, start, end, d, d, 0, []);
      assert from + STEP_SECONDS * 0 == from;
    } else {
      InRange(from, end, 0);
      NothingWalks(price, d, from);
    }
    assert RepeatsOrWalks(price, d.rows, from, d, r.acts, twice);
    var acts := Acts(price, start, end, d, e);
    var cut := |acts|;
    assert acts == r.acts[..cut];
    if !(twice && cut >= |r.acts| - 1) {
      var m: nat :| DoAll(d, acts).rows == Walk(price, d.rows, from, m);
      WalkAddsNoneTwice(price, d.rows, from, m);
    }
  }

  function RunAll(price: Oracle, start: int, end: int, d: Saved, events: seq<Event>): Saved
    decreases |events|
  {
    if events == [] then d
    else
      var n := |events| - 1;
      var before := RunAll(price, start, end, d, events[..n]);
      DoAll(before, Acts(price, start, end, before, events[n]))
  }

  lemma {:induction false} SeriesOnTrack(price: Oracle, start: int, end: int, d: Saved, events: seq<Event>)
    ensures OnTrack(price, start, end, d.rows, Resume(d, start), RunAll(price, start, end, d, events))
    decreases |events|
  {
    var base := Resume(d, start);
    if events == [] {
      assert At(price, start, end, d.rows, base, d, 0, 0);
    } else {
      var n := |events| - 1;
      SeriesOnTrack(price, start, end, d, events[..n]);
      var before := RunAll(price, start, end, d, events[..n]);
      RunIsSafe(price, events[n].run, start, end, d.rows, base, before);
      var all := RunBackfill(price, events[n].run, start, end, before).acts;
      assert all[..|all|] == all;
    }
  }

  /** A run of the series repeats rows. */
  ghost predicate SeriesRepeats(price: Oracle, start: int, end: int, d: Saved, events: seq<Event>) {
    exists i :: 0 <= i < |events| &&
      EventRepeats(price, start, end, RunAll(price, start, end, d, events[..i]), events[i])
  }

  /** A series of runs adds a date twice if and only if one of them repeats rows. */
  lemma {:induction false} SeriesAddsTwiceIff(price: Oracle, start: int, end: int, d: Saved, events: seq<Event>)
    ensures var all := RunAll(price, start, end, d, events).rows;
            d.rows <= all && (AddedTwice(d.rows, all) <==> SeriesRepeats(price, start, end, d, events))
    decreases |events|
  {
    hide EventRepeats, AddedTwice, DoAll, Acts;
    if events == [] {
      NoneAddedTwice(d.rows);
    } else {
      var n := |events| - 1;
      SeriesAddsTwiceIff(price, start, end, d, events[..n]);
      var before := RunAll(price, start, end, d, events[..n]);
      AddsTwiceIff(price, start, end, before, events[n]);
      AddedTwiceSum(d.rows, before.rows, RunAll(price, start, end, d, events).rows);
      assert forall i :: 0 <= i < n ==> events[..n][i] == events[i] && events[..n][..i] == events[..i];
    }
  }

  lemma NoneAddedTwice(rows: seq<PriceRow>)
    ensures !AddedTwice(rows, rows)
  {
  }

  lemma AddedTwiceSum(rows: seq<PriceRow>, mid: seq<PriceRow>, all: seq<PriceRow>)
    requires rows <= mid <= all
    ensures AddedTwice(rows, all) <==> AddedTwice(rows, mid) || AddedTwice(mid, all)
  {
    if AddedTwice(rows, mid) {
      var i, j :| 0 <= i < j < |mid| && |rows| <= j && mid[i].date == mid[j].date;
      assert all[i].date == all[j].date;
    }
    if AddedTwice(rows, all) {
      var i, j :| 0 <= i < j < |all| && |rows| <= j && all[i].date == all[j].date;
      assert j < |mid| ==> mid[i].date == mid[j].date;
    }
  }

  ghost predicate Uninterrupted(run: Attempt) {
    run.interrupt.None? && forall t :: run.refusal(t).Answered?
  }

  lemma {:induction false} LoopFinishes(price: Oracle, run: Attempt, start: int, end: int, t: int, k: nat, since: nat,
                                        rows: seq<PriceRow>, pending: seq<PriceRow>)
    requires Uninterrupted(run)
    ensures Loop(price, run, start, end, t, k, since, rows, pending).exit.Finished?
    decreases end - t
  {
    if t <= end {
      var staged := pending + NewRow(rows + pending, price(t));
      if FlushDue(run, k, since) {
        LoopFinishes(price, run, start, end, t + STEP_SECONDS, k + 1, 0, rows + staged, []);
      } else {
        LoopFinishes(price, run, start, end, t + STEP_SECONDS, k + 1, since + 1, rows, staged);
      }
    }
  }

  /** Any series of runs over one range, killed, interrupted and refused
      anywhere, and then one that finishes: the position is what one
      uninterrupted run from the same files leaves, and so is prices.csv, but
      for repeated rows; row for row it is so, with no date added twice, if and
      only if no run of the series was interrupted in a flush between appending
      rows and forgetting them. */
  lemma ResumedEqualsOneRun(price: Oracle, start: int, end: int, d: Saved, events: seq<Event>, last: Attempt,
                            once: Attempt)
    requires start <= end && Uninterrupted(once)
    ensures var before := RunAll(price, start, end, d, events);
            var r := RunBackfill(price, last, start, end, before);
            var one := RunBackfill(price, once, start, end, d);
            && one.exit.Finished?
            && (r.exit.Finished? ==>
                  var x, y := DoAll(before, r.acts), DoAll(d, one.acts);
                  && Once(|d.rows|, x.rows) == y.rows && Resume(x, start) == Resume(y, start)
                  && d.rows <= x.rows && d.rows <= y.rows && !AddedTwice(d.rows, y.rows)
                  && (x.rows == y.rows <==> !SeriesRepeats(price, start, end, d, events))
                  && (AddedTwice(d.rows, x.rows) <==> SeriesRepeats(price, start, end, d, events)))
  {
    hide RunAll, AddedTwice, Once, Walk, SeriesRepeats, Repeats, Safe, OnTrack, RunBackfill, DoAll;
    var base := Resume(d, start);
    var before := RunAll(price, start, end, d, events);
    SeriesOnTrack(price, start, end, d, events);
    RunIsSafe(price, last, start, end, d.rows, base, before);
    var r := RunBackfill(price, last, start, end, before);
    OneRun(price, start, end, d, once);
    if r.exit.Finished? {
      SeriesAddsTwiceIff(price, start, end, d, events);
      var e := Event(last, None);
      AddsTwiceIff(price, start, end, before, e);
      var x := DoAll(before, r.acts);
      AddedTwiceSum(d.rows, before.rows, x.rows);
      WalkAddsNoneTwice(price, d.rows, base, StepsTo(base, end));
      if !AddedTwice(d.rows, x.rows) {
        OnceIfNoneTwice(d.rows, x.rows);
      }
    }
  }

  lemma OnceIfNoneTwice(rows: seq<PriceRow>, all: seq<PriceRow>)
    requires !AddedTwice(rows, all)
    ensures Once(|rows|, all) == all
  {
    OnceIsAll(|rows|, all);
  }

  lemma OneRun(price: Oracle, start: int, end: int, d: Saved, once: Attempt)
    requires start <= end && Uninterrupted(once)
    ensures var base := Resume(d, start);
            var one := RunBackfill(price, once, start, end, d);
            var y := DoAll(d, one.acts);
            && one.exit.Finished? && y.rows == Walk(price, d.rows, base, StepsTo(base, end))
            && At(price, start, end, d.rows, base, y, StepsTo(base, end), StepsTo(base, end))
  {
    hide Walk, AddedTwice, Safe, Loop, StepsTo, Once, DoAll, EventRepeats;
    var base := Resume(d, start);
    SeriesOnTrack(price, start, end, d, []);
    RunIsSafe(price, once, start, end, d.rows, base, d);
    if base <= end {
      LoopFinishes(price, once, start, end, base, 0, 0, d.rows, []);
    }
    AddsTwiceIff(price, start, end, d, Event(once, None));
    NotRepeating(price, start, end, d, once);
    OnceIfNoneTwice(d.rows, DoAll(d, RunBackfill(price, once, start, end, d).acts).rows);
  }

  lemma NotRepeating(price: Oracle, start: int, end: int, d: Saved, run: Attempt)
    requires run.interrupt.None?
    ensures !EventRepeats(price, start, end, d, Event(run, None))
  {
  }

  // --- What is covered -----------------------------------------------------------

  function Minute(from: int, k: nat): int {
    from + 60 * k
  }

  /** A minute whose request was answered with a time. */
  ghost predicate HasDate(price: Oracle, t: int) {
    price(t).Some? && price(t).value.time.Some?
  }

  /** The dates of the minutes `from, from + 60, ..` up to `end` are there. */
  ghost predicate CoversFrom(price: Oracle, from: int, end: int, rows: seq<PriceRow>) {
    forall k: nat :: Minute(from, k) <= end && HasDate(price, Minute(from, k)) ==>
      exists i :: 0 <= i < |rows| && rows[i].date == price(Minute(from, k)).value.time.value
  }

  /** The row is the answer for a minute of `from, from + 60, ..` up to `end`, with
      its date and both its prices. */
  ghost predicate IsAnswer(price: Oracle, from: int, end: int, row: PriceRow) {
    exists k: nat ::
      && Minute(from, k) <= end && HasDate(price, Minute(from, k))
      && var e := price(Minute(from, k)).value;
         row.date == e.time.value && row.usd == e.usd && row.eur == e.eur
  }

  ghost predicate AllAnswers(price: Oracle, from: int, end: int, rows: seq<PriceRow>) {
    forall j :: 0 <= j < |rows| ==> IsAnswer(price, from, end, rows[j])
  }

  /** The range starts over unless the checkpoint is one of this range. */
  predicate StartsOver(d: Saved, start: int) {
    d.checkpoint == None || d.checkpoint.value.rangeStart != start
  }

  /** The rows of an append are answers, and at most a thousand. */
  ghost predicate AppendsAnswers(price: Oracle, from: int, end: int, acts: seq<Action>) {
    forall i :: 0 <= i < |acts| && acts[i].AppendRows? ==>
      AllAnswers(price, from, end, acts[i].rows) && |acts[i].rows| <= 1000
  }

  lemma StagedAnswers(price: Oracle, from: int, end: int, m: nat, rows: seq<PriceRow>, pending: seq<PriceRow>)
    requires Minute(from, m) <= end && AllAnswers(price, from, end, pending)
    ensures var staged := pending + NewRow(rows, price(Minute(from, m)));
            AllAnswers(price, from, end, staged) && |staged| <= |pending| + 1
  {
    var more := NewRow(rows, price(Minute(from, m)));
    if more != [] {
      assert HasDate(price, Minute(from, m)) && IsAnswer(price, from, end, more[0]);
    }
  }

  lemma {:induction false} LoopAppendsAnswers(price: Oracle, run: Attempt, start: int, end: int, from: int, m: nat,
                                              k: nat, since: nat, rows: seq<PriceRow>, pending: seq<PriceRow>)
    requires AllAnswers(price, from, end, pending) && |pending| <= since < 1000
    ensures AppendsAnswers(price, from, end,
                           Loop(price, run, start, end, Minute(from, m), k, since, rows, pending).acts)
    decreases end - (Minute(from, m))
  {
    hide AllAnswers, NewRow, Dates, Loop;
    var t := Minute(from, m);
    LoopNext(price, run, start, end, t, k, since, rows, pending);
    if t <= end && run.interrupt != Some(Interrupt(k, BeforeRow)) && run.refusal(t).Answered? {
      var staged := pending + NewRow(rows + pending, price(t));
      StagedAnswers(price, from, end, m, rows + pending, pending);
      assert Minute(from, m + 1) == t + STEP_SECONDS;
      if FlushDue(run, k, since) {
        NoAnswers(price, from, end);
        LoopAppendsAnswers(price, run, start, end, from, m + 1, k + 1, 0, rows + staged, []);
      } else {
        LoopAppendsAnswers(price, run, start, end, from, m + 1, k + 1, since + 1, rows, staged);
      }
    }
  }

  lemma NoAnswers(price: Oracle, from: int, end: int)
    ensures AllAnswers(price, from, end, [])
  {
  }

  lemma {:induction false} ActsAddAnswers(price: Oracle, from: int, end: int, d: Saved, acts: seq<Action>)
    requires AppendsAnswers(price, from, end, acts)
    ensures var rows := DoAll(d, acts).rows;
            d.rows <= rows && AllAnswers(price, from, end, rows[|d.rows|..])
    decreases |acts|
  {
    hide IsAnswer;
    if acts != [] {
      var n := |acts| - 1;
      ActsAddAnswers(price, from, end, d, acts[..n]);
      var before, after := DoAll(d, acts[..n]).rows, DoAll(d, acts).rows;
      if acts[n].AppendRows? {
        assert after[|d.rows|..] == before[|d.rows|..] + acts[n].rows;
      }
    }
  }

  /** The minutes from that of the checkpoint on, if it is one of this range, and
      otherwise all of them. */
  lemma WalkCovers(price: Oracle, rows: seq<PriceRow>, from: int, end: int)
    ensures CoversFrom(price, from, end, Walk(price, rows, from, StepsTo(from, end)))
  {
    hide Walk, StepsTo;
    var all := Walk(price, rows, from, StepsTo(from, end));
    WalkAddsOnce(price, rows, from, StepsTo(from, end));
    forall k: nat | Minute(from, k) <= end && HasDate(price, Minute(from, k))
      ensures exists i :: 0 <= i < |all| && all[i].date == price(Minute(from, k)).value.time.value
    {
      InRange(from, end, k);
      assert price(from + STEP_SECONDS * k).value.time.value in Dates(all);
    }
  }

  /** Once a run of a series over one range has finished, the dates of all minutes
      of the range are there, or, if the series began at a checkpoint of that
      range, of all from the checkpoint on; and whatever was added is an answer
      for one of these minutes. */
  lemma SeriesCovers(price: Oracle, start: int, end: int, d: Saved, events: seq<Event>, last: Attempt)
    ensures var before := RunAll(price, start, end, d, events);
            var r := RunBackfill(price, last, start, end, before);
            var rows := DoAll(before, r.acts).rows;
            var from := if StartsOver(d, start) then start else d.checkpoint.value.next;
            && (r.exit.Finished? ==> CoversFrom(price, from, end, rows))
            && d.rows <= rows && AllAnswers(price, from, end, rows[|d.rows|..])
  {
    hide RunAll, Once, Walk, Safe, RunBackfill, DoAll, StepsTo, AllAnswers, CoversFrom;
    var base := Resume(d, start);
    assert base == if StartsOver(d, start) then start else d.checkpoint.value.next;
    var before := RunAll(price, start, end, d, events);
    SeriesOnTrack(price, start, end, d, events);
    RunIsSafe(price, last, start, end, d.rows, base, before);
    var r := RunBackfill(price, last, start, end, before);
    var rows := DoAll(before, r.acts).rows;
    if r.exit.Finished? {
      WalkCovers(price, d.rows, base, end);
      OnceCovers(price, base, end, |d.rows|, rows);
    }
    SeriesAddsAnswers(price, start, end, d, events + [Event(last, None)]);
    SeriesOneMore(price, start, end, d, events, last);
  }

  lemma OnceCovers(price: Oracle, from: int, end: int, n: nat, rows: seq<PriceRow>)
    requires CoversFrom(price, from, end, Once(n, rows))
    ensures CoversFrom(price, from, end, rows)
  {
    var once := Once(n, rows);
    OnceKeepsDates(n, rows);
    forall k: nat | Minute(from, k) <= end && HasDate(price, Minute(from, k))
      ensures exists i :: 0 <= i < |rows| && rows[i].date == price(Minute(from, k)).value.time.value
    {
      var i :| 0 <= i < |once| && once[i].date == price(Minute(from, k)).value.time.value;
      assert once[i].date in Dates(rows);
    }
  }

  lemma SeriesOneMore(price: Oracle, start: int, end: int, d: Saved, events: seq<Event>, last: Attempt)
    ensures var before := RunAll(price, start, end, d, events);
            RunAll(price, start, end, d, events + [Event(last, None)])
            == DoAll(before, RunBackfill(price, last, start, end, before).acts)
  {
    hide RunBackfill, DoAll;
    assert (events + [Event(last, None)])[..|events|] == events;
  }

  lemma {:induction false} SeriesAddsAnswers(price: Oracle, start: int, end: int, d: Saved, events: seq<Event>)
    ensures var rows := RunAll(price, start, end, d, events).rows;
            d.rows <= rows && AllAnswers(price, Resume(d, start), end, rows[|d.rows|..])
    decreases |events|
  {
    hide AllAnswers, Once, Walk, StepsTo, DoAll, RunBackfill, Resume;
    var base := Resume(d, start);
    if events == [] {
      NoAnswers(price, base, end);
      assert d.rows[|d.rows|..] == [];
    } else {
      var n := |events| - 1;
      SeriesAddsAnswers(price, start, end, d, events[..n]);
      var before := RunAll(price, start, end, d, events[..n]);
      SeriesOnTrack(price, start, end, d, events[..n]);
      var acts := Acts(price, start, end, before, events[n]);
      OnTheMinute(price, start, end, d.rows, base, before);
      RunAppendsAnswers(price, start, end, base, before, events[n]);
      ActsAddAnswers(price, base, end, before, acts);
      var rows := RunAll(price, start, end, d, events).rows;
      AnswersConcat(price, base, end, before.rows[|d.rows|..], rows[|before.rows|..]);
      assert rows[|d.rows|..] == before.rows[|d.rows|..] + rows[|before.rows|..];
    }
  }

  lemma OnTheMinute(price: Oracle, start: int, end: int, rows0: seq<PriceRow>, base: int, d: Saved)
    requires OnTrack(price, start, end, rows0, base, d)
    ensures exists c: nat :: Resume(d, start) == Minute(base, c)
  {
    var c, n :| At(price, start, end, rows0, base, d, c, n);
    assert Resume(d, start) == Minute(base, c);
  }

  lemma AnswersConcat(price: Oracle, from: int, end: int, xs: seq<PriceRow>, ys: seq<PriceRow>)
    requires AllAnswers(price, from, end, xs) && AllAnswers(price, from, end, ys)
    ensures AllAnswers(price, from, end, xs + ys)
  {
    hide IsAnswer;
  }

  /** Every row a run appends is an answer, and it never has more than a thousand
      rows that are not yet appended. */
  lemma RunAppendsAnswers(price: Oracle, start: int, end: int, base: int, d: Saved, e: Event)
    requires exists c: nat :: Resume(d, start) == Minute(base, c)
    ensures AppendsAnswers(price, base, end, Acts(price, start, end, d, e))
  {
    hide AllAnswers, Loop;
    var c: nat :| Resume(d, start) == Minute(base, c);
    NoAnswers(price, base, end);
    LoopAppendsAnswers(price, e.run, start, end, base, c, 0, 0, d.rows, []);
  }

  /** A loop that does not finish and is not interrupted stops at the first request
      that is not answered, and that is where the next run starts; one that
      finishes has passed the end. */
  lemma {:induction false} LoopStopsAt(price: Oracle, run: Attempt, start: int, end: int, from: int, m: nat, k: nat,
                                       since: nat, rows: seq<PriceRow>, pending: seq<PriceRow>)
    ensures var r := Loop(price, run, start, end, Minute(from, m), k, since, rows, pending);
            && r.acts != [] && !r.exit.BadRange?
            && (!r.exit.Interrupted? ==> exists n: nat :: StopsAt(run, start, end, from, m, n, r))
    decreases end - Minute(from, m)
  {
    hide NewRow, Dates, Loop;
    var t := Minute(from, m);
    var r := Loop(price, run, start, end, t, k, since, rows, pending);
    LoopNext(price, run, start, end, t, k, since, rows, pending);
    if t > end || !run.refusal(t).Answered? {
      assert !r.exit.Interrupted? ==> StopsAt(run, start, end, from, m, m, r);
    } else if run.interrupt != Some(Interrupt(k, BeforeRow)) {
      var staged := pending + NewRow(rows + pending, price(t));
      assert Minute(from, m + 1) == t + STEP_SECONDS;
      var s := r;
      if FlushDue(run, k, since) {
        LoopStopsAt(price, run, start, end, from, m + 1, k + 1, 0, rows + staged, []);
        s := Loop(price, run, start, end, t + STEP_SECONDS, k + 1, 0, rows + staged, []);
      } else {
        LoopStopsAt(price, run, start, end, from, m + 1, k + 1, since + 1, rows, staged);
        s := Loop(price, run, start, end, t + STEP_SECONDS, k + 1, since + 1, rows, staged);
      }
      if !r.exit.Interrupted? {
        var n: nat :| StopsAt(run, start, end, from, m + 1, n, s);
        assert StopsAt(run, start, end, from, m, n, r);
      }
    }
  }

  /** All minutes from the `m`-th to before the `n`-th were answered; the `n`-th
      was rate limited, failed, or is beyond the end, as the exit says, and the
      checkpoint saved last is at that minute. */
  ghost predicate StopsAt(run: Attempt, start: int, end: int, from: int, m: nat, n: nat, r: RunResult) {
    && m <= n && (forall j: nat :: m <= j < n ==> Minute(from, j) <= end && run.refusal(Minute(from, j)).Answered?)
    && r.acts != [] && r.acts[|r.acts| - 1] == SaveCheckpoint(Checkpoint(start, Minute(from, n)))
    && (r.exit.Finished? <==> Minute(from, n) > end)
    && (r.exit.Limited? <==> Minute(from, n) <= end && run.refusal(Minute(from, n)).RateLimited?)
    && (r.exit.Failed? <==> Minute(from, n) <= end && run.refusal(Minute(from, n)).FetchFailed?)
  }

  /** So for a run with something left to do, from any files. */
  lemma RunStopsAt(price: Oracle, run: Attempt, start: int, end: int, d: Saved)
    ensures var r := RunBackfill(price, run, start, end, d);
            var from := if StartsOver(d, start) then start else d.checkpoint.value.next;
            start <= end && from <= end && !r.exit.Interrupted? ==>
              exists n: nat :: StopsAt(run, start, end, from, 0, n, r)
  {
    hide Loop, StopsAt;
    if start <= end && Resume(d, start) <= end {
      LoopStopsAt(price, run, start, end, Resume(d, start), 0, 0, 0, d.rows, []);
      assert Minute(Resume(d, start), 0) == Resume(d, start);
    }
  }

  /** A run leaves the files alone only if nothing of its range is left. */
  lemma RunIdlesIff(price: Oracle, run: Attempt, start: int, end: int, d: Saved)
    ensures var r := RunBackfill(price, run, start, end, d);
            && (r.acts == [] <==> end < start || (!StartsOver(d, start) && d.checkpoint.value.next > end))
            && (r.exit.BadRange? <==> end < start)
  {
    hide Loop;
    if start <= end && Resume(d, start) <= end {
      assert Minute(Resume(d, start), 0) == Resume(d, start);
      LoopStopsAt(price, run, start, end, Resume(d, start), 0, 0, 0, d.rows, []);
    }
  }

  // --- The code ------  // --- The code ------------------------------------------------------------------

  class PriceFiles {
    var saved: Saved
    ghost var done: seq<Action>

    ghost predicate Performed(before: Saved, history: seq<Action>, acts: seq<Action>)
      reads this
    {
      done == history + acts && saved == DoAll(before, acts)
    }

    lemma PerformedThen(before: Saved, history: seq<Action>, xs: seq<Action>, mid: Saved, ys: seq<Action>)
      requires mid == DoAll(before, xs) && Performed(mid, history + xs, ys)
      ensures Performed(before, history, xs + ys)
    {
      DoAppend(before, xs, ys);
      assert history + xs + ys == history + (xs + ys);
    }

    method Perform(a: Action)
      modifies this
      ensures Performed(old(saved), old(done), [a]) && saved == Do(old(saved), a)
    {
      saved, done := Do(saved, a), done + [a];
      assert [a][..0] == [];
    }

    lemma NothingDone()
      ensures Performed(saved, done, [])
    {
      assert done + [] == done;
    }

    method Write(pending: seq<PriceRow>)
      modifies this
      ensures Performed(old(saved), old(done), WriteActs(pending))
      ensures saved == old(saved).(rows := old(saved).rows + pending)
    {
      if pending != [] {
        Perform(AppendRows(pending));
      } else {
        assert done + [] == done && saved.rows + pending == saved.rows;
      }
    }

    /** The staged rows first, then the checkpoint. */
    method Flush(start: int, t: int, pending: seq<PriceRow>)
      modifies this
      ensures Performed(old(saved), old(done), FlushActs(start, t, pending))
      ensures saved == Saved(old(saved).rows + pending, Some(Checkpoint(start, t)))
    {
      ghost var before, history := saved, done;
      Write(pending);
      ghost var mid := saved;
      Perform(SaveCheckpoint(Checkpoint(start, t)));
      PerformedThen(before, history, WriteActs(pending), mid, [SaveCheckpoint(Checkpoint(start, t))]);
    }

    /** Walks the range from where the last run stopped, flushing every so many
        steps and on every way out. */
    method Run(price: Oracle, run: Attempt, start: int, end: int) returns (exit: Exit)
      modifies this
      ensures var r := RunBackfill(price, run, start, end, old(saved));
              exit == r.exit && Performed(old(saved), old(done), r.acts)
    {
      hide NewRow, Dates, DoAll, FlushActs, WriteActs, Loop, FlushDue;
      ghost var before, history := saved, done;
      NothingDone();
      if end < start {
        return BadRange;
      }
      var t := Resume(saved, start);
      if t > end {
        return Finished;
      }
      var dates := Dates(saved.rows);
      var pending: seq<PriceRow> := [];
      var steps, since := 0, 0;
      ghost var acts: seq<Action> := [];
      ghost var whole := RunBackfill(price, run, start, end, before);
      assert saved.rows + [] == saved.rows;
      assert Before([], whole) == whole;
      exit := Finished;
      while t <= end
        invariant Performed(before, history, acts)
        invariant dates == Dates(saved.rows + pending)
        invariant whole == Before(acts, Loop(price, run, start, end, t, steps, since, saved.rows, pending))
        decreases end - t
      {
        LoopNext(price, run, start, end, t, steps, since, saved.rows, pending);
        if run.interrupt == Some(Interrupt(steps, BeforeRow)) {
          exit := Interrupted;
          break;
        }
        if run.refusal(t) != Answered {
          exit := if run.refusal(t).RateLimited? then Limited else Failed;
          break;
        }
        pending, dates := Stage(price(t), saved.rows, pending, dates);
        if run.interrupt == Some(Interrupt(steps, AfterRow)) {
          exit := Interrupted;
          break;
        }
        var due, hit := FlushDue(run, steps, since), run.interrupt == Some(Interrupt(steps, AfterAppend));
        var stopped := run.interrupt == Some(Interrupt(steps, AfterStep));
        t, steps, since := t + STEP_SECONDS, steps + 1, since + 1;
        if stopped {
          exit := Interrupted;
          break;
        }
        if due {
          if hit {
            ghost var mid, more := saved, WriteActs(pending);
            Write(pending);
            PerformedThen(before, history, acts, mid, more);
            BeforeTwice(acts, more, RunResult(FlushActs(start, t, pending), Interrupted));
            acts, exit := acts + more, Interrupted;
            break;
          }
          ghost var mid, more := saved, FlushActs(start, t, pending);
          Flush(start, t, pending);
          PerformedThen(before, history, acts, mid, more);
          BeforeTwice(acts, more, Loop(price, run, start, end, t, steps, 0, saved.rows, []));
          acts := acts + more;
          pending, since := [], 0;
          assert saved.rows + [] == saved.rows;
        }
      }
      LoopNext(price, run, start, end, t, steps, since, saved.rows, pending);
      ghost var mid, more := saved, FlushActs(start, t, pending);
      Flush(start, t, pending);
      PerformedThen(before, history, acts, mid, more);
    }
  }

  /** Stages the row of an entry if its date is new. */
  method Stage(entry: Option<Entry>, ghost rows: seq<PriceRow>, pending: seq<PriceRow>, dates: set<int>)
    returns (next: seq<PriceRow>, known: set<int>)
    requires dates == Dates(rows + pending)
    ensures next == pending + NewRow(rows + pending, entry) && known == Dates(rows + next)
  {
    next, known := pending, dates;
    if entry.Some? && entry.value.time.Some? && entry.value.time.value !in dates {
      var row := PriceRow(entry.value.time.value, entry.value.usd, entry.value.eur);
      DatesOneMore(rows + pending, row);
      assert rows + pending + [row] == rows + (pending + [row]);
      next, known := pending + [row], dates + {row.date};
    } else {
      assert pending + [] == pending;
    }
  }

  lemma DatesOneMore(rows: seq<PriceRow>, row: PriceRow)
    ensures Dates(rows + [row]) == Dates(rows) + {row.date}
  {
    var all := rows + [row];
    forall x | x in Dates(rows) + {row.date}
      ensures x in Dates(all)
    {
      if x in Dates(rows) {
        var i :| 0 <= i < |rows| && rows[i].date == x;
        assert all[i].date == x;
      } else {
        assert all[|rows|].date == x;
      }
    }
  }

  lemma BeforeTwice(xs: seq<Action>, ys: seq<Action>, r: RunResult)
    ensures Before(xs, Before(ys, r)) == Before(xs + ys, r)
  {
    assert xs + (ys + r.acts) == xs + ys + r.acts;
  }
}
