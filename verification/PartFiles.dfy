/** The files behind one logical CSV, and what PartSequencer does to them.

    A write is a list of durable actions, each of which is one atomic step on
    disk.  A kill leaves the effect of a prefix of that list; a restart reads
    the counter file back. */
module PartFiles {
  import opened Basics
  import opened Chain

  datatype Counter = Counter(part: nat, isOpen: bool)

  datatype Part = Part(number: nat, rows: seq<Row>)

  /** `open` and `exported` are the parts under state_base and export_base by
      part number, `counter` is the *_part_seq.csv file.

      The last two fields are history and are read by no operation: `shipped`
      lists what was ever put under export_base, in order, and `written` every
      row ever written to the logical CSV. */
  datatype Files = Files(
    open: map<nat, seq<Row>>,
    exported: map<nat, seq<Row>>,
    counter: Option<Counter>,
    shipped: seq<Part>,
    written: seq<Row>)

  const EMPTY_FILES := Files(map[], map[], None, [], [])

  datatype PartAction =
    | HandOff(number: nat)                     // os.replace from state_base to export_base
    | Persist(counter: Counter)                // the counter file
    | Append(number: nat, rows: seq<Row>)      // to a part under state_base
    | Publish(number: nat, rows: seq<Row>)     // whole file under export_base

  datatype Mode = Batched | Atomic

  /** `bytes` is the size of a file with the given rows. */
  datatype PartConfig = PartConfig(maxPartBytes: nat, bytes: seq<Row> -> nat)

  /** Parts 0 and 1 share the base path. */
  function PathNumber(part: nat): nat {
    if part <= 1 then 1 else part
  }

  function Apply(f: Files, a: PartAction): Files {
    match a
    case HandOff(n) =>
      if n in f.open
      then f.(open := f.open - {n}, exported := f.exported[n := f.open[n]], shipped := f.shipped + [Part(n, f.open[n])])
      else f
    case Persist(c) => f.(counter := Some(c))
    case Append(n, rows) =>
      f.(open := f.open[n := (if n in f.open then f.open[n] else []) + rows], written := f.written + rows)
    case Publish(n, rows) =>
      f.(exported := f.exported[n := rows], shipped := f.shipped + [Part(n, rows)], written := f.written + rows)
  }

  function ApplyAll(f: Files, acts: seq<PartAction>): Files
    decreases |acts|
  {
    if acts == [] then f else Apply(ApplyAll(f, acts[..|acts| - 1]), acts[|acts| - 1])
  }

  lemma ApplyOne(f: Files, a: PartAction)
    ensures ApplyAll(f, [a]) == Apply(f, a)
  {
    assert ApplyAll(f, [a][..0]) == f;
  }

  lemma {:induction false} ApplyAppend(f: Files, xs: seq<PartAction>, ys: seq<PartAction>)
    ensures ApplyAll(f, xs + ys) == ApplyAll(ApplyAll(f, xs), ys)
    decreases |ys|
  {
    if ys == [] {
      assert xs + ys == xs;
    } else {
      var n := |xs + ys| - 1;
      assert (xs + ys)[..n] == xs + ys[..|ys| - 1] && (xs + ys)[n] == ys[|ys| - 1];
      ApplyAppend(f, xs, ys[..|ys| - 1]);
    }
  }

  /** The consumer deletes exported parts. */
  function Eat(f: Files, gone: set<nat>): Files {
    f.(exported := f.exported - gone)
  }

  // --- Constructor seeding -------------------------------------------------

  lemma {:induction false} HighestExists(keys: set<nat>)
    requires keys != {}
    ensures exists n :: n in keys && forall k :: k in keys ==> k <= n
  {
    var k :| k in keys;
    var rest := keys - {k};
    if rest != {} {
      HighestExists(rest);
      var n :| n in rest && forall j :: j in rest ==> j <= n;
      var top := if k >= n then k else n;
      assert forall j :: j in keys ==> j == k || j in rest;
      assert top in keys && forall j :: j in keys ==> j <= top;
    } else {
      assert keys == {k};
    }
  }

  ghost function Highest(keys: set<nat>): (n: nat)
    ensures keys == {} ==> n == 0
    ensures keys != {} ==> n in keys && forall k :: k in keys ==> k <= n
  {
    if keys == {} then 0
    else
      HighestExists(keys);
      var n :| n in keys && forall k :: k in keys ==> k <= n;
      n
  }

  /** What the constructor loads: the counter file or, if there is none, the
      highest part on disk, an open one first. */
  ghost function Load(f: Files): Counter {
    match f.counter
    case Some(c) => c
    case None =>
      if Highest(f.open.Keys) > 0 then Counter(Highest(f.open.Keys), true)
      else Counter(Highest(f.exported.Keys), false)
  }

  // --- Writes --------------------------------------------------------------

  function CloseActions(f: Files, m: Counter): seq<PartAction> {
    if !m.isOpen then []
    else (if PathNumber(m.part) in f.open then [HandOff(PathNumber(m.part))] else [])
         + [Persist(Counter(m.part, false))]
  }

  predicate NeedsNewPart(cfg: PartConfig, f: Files, m: Counter) {
    !m.isOpen || (PathNumber(m.part) in f.open && cfg.bytes(f.open[PathNumber(m.part)]) >= cfg.maxPartBytes)
  }

  function BatchedActions(cfg: PartConfig, f: Files, m: Counter, rows: seq<Row>): seq<PartAction> {
    if rows == [] then []
    else if NeedsNewPart(cfg, f, m) then
      CloseActions(f, m) + [Append(PathNumber(m.part + 1), rows), Persist(Counter(m.part + 1, true))]
    else
      [Append(PathNumber(m.part), rows), Persist(m)]
  }

  function AtomicActions(f: Files, m: Counter, rows: seq<Row>): seq<PartAction> {
    if rows == [] then []
    else CloseActions(f, m) + [Persist(Counter(m.part + 1, false)), Publish(PathNumber(m.part + 1), rows)]
  }

  function WriteActions(cfg: PartConfig, f: Files, m: Counter, mode: Mode, rows: seq<Row>): seq<PartAction> {
    match mode
    case Batched => BatchedActions(cfg, f, m, rows)
    case Atomic => AtomicActions(f, m, rows)
  }

  /** The in-memory counter after a write. */
  function NextCounter(cfg: PartConfig, f: Files, m: Counter, mode: Mode, rows: seq<Row>): Counter {
    if rows == [] then m
    else if mode.Atomic? then Counter(m.part + 1, false)
    else if NeedsNewPart(cfg, f, m) then Counter(m.part + 1, true)
    else m
  }

  /** A kill is allowed after `cut` actions, except between the rename and the
      counter write of a hand-off. */
  predicate SafeCut(acts: seq<PartAction>, cut: nat) {
    cut <= |acts| && (cut > 0 ==> !acts[cut - 1].HandOff?)
  }

  // --- Invariant -----------------------------------------------------------

  ghost predicate Increasing(parts: seq<Part>) {
    forall i, j :: 0 <= i < j < |parts| ==> parts[i].number < parts[j].number
  }

  ghost predicate Shipped(f: Files, n: nat, rows: seq<Row>) {
    Part(n, rows) in f.shipped
  }

  /** No part number was exported twice, the next one is above all of them, and
      what the consumer has not deleted is what was exported. */
  ghost predicate Consistent(f: Files) {
    var m := Load(f);
    && Increasing(f.shipped)
    && (forall i :: 0 <= i < |f.shipped| ==> 1 <= f.shipped[i].number <= m.part)
    && (m.isOpen ==> 1 <= m.part && forall i :: 0 <= i < |f.shipped| ==> f.shipped[i].number < m.part)
    && (forall n :: n in f.exported ==> Shipped(f, n, f.exported[n]))
    && (f.counter.None? ==> f.shipped == [] && f.open.Keys <= {1})
  }

  /** A row the consumer got, or will get when the open part is closed. */
  ghost predicate Held(f: Files, r: Row) {
    var m := Load(f);
    || (exists i :: 0 <= i < |f.shipped| && r in f.shipped[i].rows)
    || (m.isOpen && PathNumber(m.part) in f.open && r in f.open[PathNumber(m.part)])
  }

  ghost predicate Grows(f: Files, g: Files) {
    && f.shipped <= g.shipped
    && f.written <= g.written
    && (forall r :: Held(f, r) ==> Held(g, r))
  }
}
