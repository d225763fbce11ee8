/** What PartSequencer keeps over whole runs: writes in both modes, kills at
    any safe point, restarts, and a consumer that deletes exported parts at any
    time. */
module PartRuns {
  import opened Basics
  import opened Chain
  import opened PartFiles

  // --- One write -----------------------------------------------------------

  lemma LoadUnseeded(f: Files)
    requires Consistent(f) && f.counter.None?
    ensures f.exported == map[] && f.shipped == []
    ensures Load(f) == if 1 in f.open then Counter(1, true) else Counter(0, false)
  {
    assert forall n :: n in f.exported ==> Shipped(f, n, f.exported[n]);
    assert forall n :: n !in f.exported;
    assert f.exported.Keys == {};
    if 1 in f.open {
      assert f.open.Keys == {1};
    } else {
      assert f.open.Keys == {};
    }
  }

  /** The open part is handed over and the counter says so. */
  lemma HandOffStep(f: Files)
    requires Consistent(f) && Load(f).isOpen && Load(f).part in f.open
    ensures var m := Load(f);
            var g := Apply(Apply(f, HandOff(m.part)), Persist(Counter(m.part, false)));
            Consistent(g) && Grows(f, g)
  {
    var n := Load(f).part;
    var g := Apply(Apply(f, HandOff(n)), Persist(Counter(n, false)));
    assert g.shipped[|f.shipped|] == Part(n, f.open[n]);
    forall k | k in g.exported
      ensures Shipped(g, k, g.exported[k])
    {
      if k != n {
        assert Shipped(f, k, f.exported[k]);
      }
    }
    forall r | Held(f, r)
      ensures Held(g, r)
    {
      if i :| 0 <= i < |f.shipped| && r in f.shipped[i].rows {
        assert g.shipped[i] == f.shipped[i];
      }
    }
  }

  /** There is nothing to hand over. */
  lemma NoHandOffStep(f: Files)
    requires Consistent(f) && Load(f).isOpen && Load(f).part !in f.open
    ensures var g := Apply(f, Persist(Counter(Load(f).part, false)));
            Consistent(g) && Grows(f, g)
  {
  }

  lemma CloseStep(f: Files)
    requires Consistent(f) && Load(f).isOpen
    ensures var g := ApplyAll(f, CloseActions(f, Load(f)));
            && Consistent(g) && Grows(f, g)
            && g.counter == Some(Counter(Load(f).part, false)) && Load(g) == g.counter.value
            && g.written == f.written
            && g.open == f.open - {Load(f).part}
            && g.shipped == f.shipped
                 + (if Load(f).part in f.open then [Part(Load(f).part, f.open[Load(f).part])] else [])
  {
    hide Consistent, Grows, ApplyAll;
    OpenIsPositive(f);
    var n := Load(f).part;
    var acts, closed := CloseActions(f, Load(f)), Persist(Counter(n, false));
    if n in f.open {
      assert acts == [HandOff(n), closed];
      HandOffStep(f);
      TwoActions(f, HandOff(n), closed, 2);
      assert acts[..2] == acts;
    } else {
      assert acts == [closed];
      NoHandOffStep(f);
      ApplyOne(f, closed);
    }
  }

  lemma OpenIsPositive(f: Files)
    requires Consistent(f)
    ensures Load(f).isOpen ==> Load(f).part >= 1
  {
  }

  /** Rows reach a part under state_base that is, or now becomes, the open one. */
  lemma AppendStep(f: Files, n: nat, rows: seq<Row>)
    requires Consistent(f)
    requires var m := Load(f); if m.isOpen then n == m.part else n == m.part + 1
    ensures var g := Apply(f, Append(n, rows));
            && Consistent(g) && Grows(f, g)
            && Consistent(Apply(g, Persist(Counter(n, true)))) && Grows(f, Apply(g, Persist(Counter(n, true))))
            && Stored(Apply(g, Persist(Counter(n, true))), rows)
  {
    var g := Apply(f, Append(n, rows));
    var h := Apply(g, Persist(Counter(n, true)));
    forall k | k in f.exported
      ensures Shipped(g, k, g.exported[k]) && Shipped(h, k, h.exported[k])
    {
      assert Shipped(f, k, f.exported[k]);
    }
    if f.counter.None? {
      LoadUnseeded(f);
      assert n == 1;
      assert g.open.Keys == {1};
    }
    assert Consistent(g);
  }

  lemma PublishStep(f: Files, n: nat, rows: seq<Row>)
    requires n >= 1 && Consistent(f) && Load(f) == Counter(n - 1, false)
    ensures var g := Apply(f, Persist(Counter(n, false)));
            var h := Apply(g, Publish(n, rows));
            && Consistent(g) && Grows(f, g) && Consistent(h) && Grows(f, h)
            && Stored(h, rows)
  {
    if f.counter.None? {
      LoadUnseeded(f);
    }
    var g := Apply(f, Persist(Counter(n, false)));
    var h := Apply(g, Publish(n, rows));
    assert h.shipped[|f.shipped|] == Part(n, rows);
    forall k | k in h.exported
      ensures Shipped(h, k, h.exported[k])
    {
      if k != n {
        assert Shipped(f, k, f.exported[k]);
      }
    }
    forall k | k in f.exported
      ensures Shipped(g, k, g.exported[k])
    {
      assert Shipped(f, k, f.exported[k]);
    }
    forall r | Held(f, r)
      ensures Held(h, r)
    {
      var i :| 0 <= i < |f.shipped| && r in f.shipped[i].rows;
      assert h.shipped[i] == f.shipped[i];
    }
  }

  lemma GrowsTrans(f: Files, g: Files, h: Files)
    requires Grows(f, g) && Grows(g, h)
    ensures Grows(f, h)
  {
  }

  lemma CutOfSum(f: Files, xs: seq<PartAction>, ys: seq<PartAction>, cut: nat)
    requires cut <= |xs + ys|
    ensures ApplyAll(f, (xs + ys)[..cut]) ==
            if cut <= |xs| then ApplyAll(f, xs[..cut]) else ApplyAll(ApplyAll(f, xs), ys[..cut - |xs|])
  {
    if cut <= |xs| {
      assert (xs + ys)[..cut] == xs[..cut];
    } else {
      assert (xs + ys)[..cut] == xs + ys[..cut - |xs|];
      ApplyAppend(f, xs, ys[..cut - |xs|]);
    }
  }

  lemma TwoActions(f: Files, a: PartAction, b: PartAction, cut: nat)
    requires cut <= 2
    ensures ApplyAll(f, [a, b][..cut]) ==
            if cut == 0 then f else if cut == 1 then Apply(f, a) else Apply(Apply(f, a), b)
  {
    ApplyOne(f, a);
    ApplyOne(Apply(f, a), b);
    assert [a, b][..1] == [a];
    assert [a, b][..2] == [a] + [b];
    ApplyAppend(f, [a], [b]);
  }

  /** The last two actions of a write, after a possible hand-off. */
  ghost function Tail(m: Counter, mode: Mode, opens: bool, rows: seq<Row>): seq<PartAction> {
    if mode.Atomic? then [Persist(Counter(m.part + 1, false)), Publish(PathNumber(m.part + 1), rows)]
    else if opens then [Append(PathNumber(m.part + 1), rows), Persist(Counter(m.part + 1, true))]
    else [Append(PathNumber(m.part), rows), Persist(m)]
  }

  ghost predicate Stored(g: Files, rows: seq<Row>) {
    forall r :: r in rows ==> Held(g, r)
  }

  lemma GrowsRefl(f: Files)
    ensures Grows(f, f)
  {
  }

  lemma TailStep(f: Files, m: Counter, mode: Mode, opens: bool, rows: seq<Row>, cut: nat)
    requires Consistent(f) && m == Load(f)
    requires m.isOpen ==> mode.Batched? && !opens
    requires mode.Batched? && !opens ==> m.isOpen
    requires cut <= 2
    ensures var g := ApplyAll(f, Tail(m, mode, opens, rows)[..cut]);
            && Consistent(g) && Grows(f, g)
            && (cut == 2 ==>
                  && Stored(g, rows)
                  && Load(g) == (if mode.Batched? && !opens then m else Counter(m.part + 1, mode.Batched?)))
  {
    var acts := Tail(m, mode, opens, rows);
    TwoActions(f, acts[0], acts[1], cut);
    GrowsRefl(f);
    var n := m.part + 1;
    assert PathNumber(n) == n;
    if mode.Atomic? {
      assert acts == [Persist(Counter(n, false)), Publish(n, rows)];
      PublishStep(f, n, rows);
    } else if opens {
      assert acts == [Append(n, rows), Persist(Counter(n, true))];
      AppendStep(f, n, rows);
    } else {
      assert acts == [Append(m.part, rows), Persist(Counter(m.part, true))];
      AppendStep(f, m.part, rows);
    }
  }

  /** A write that first closes the open part. */
  lemma ClosingWrite(cfg: PartConfig, f: Files, mode: Mode, rows: seq<Row>, cut: nat)
    requires Consistent(f) && rows != [] && Load(f).isOpen && (mode.Atomic? || NeedsNewPart(cfg, f, Load(f)))
    requires SafeCut(WriteActions(cfg, f, Load(f), mode, rows), cut)
    ensures var acts := WriteActions(cfg, f, Load(f), mode, rows);
            var g := ApplyAll(f, acts[..cut]);
            && Consistent(g) && Grows(f, g)
            && (cut == |acts| ==>
                  && Load(g) == NextCounter(cfg, f, Load(f), mode, rows)
                  && Stored(g, rows))
  {
    hide Consistent, Grows, Held, Load, Apply;
    var m, opens := Load(f), NeedsNewPart(cfg, f, Load(f));
    var close, tail := CloseActions(f, m), Tail(m, mode, opens, rows);
    var acts, c := WriteActions(cfg, f, m, mode, rows), ApplyAll(f, close);
    assert acts == close + tail;
    CutOfSum(f, close, tail, cut);
    CloseStep(f);
    GrowsRefl(f);
    if cut < |close| {
      assert cut == 0;
    } else if cut == |close| {
      assert close[..cut] == close && cut < |acts|;
    } else {
      assert Tail(Load(c), mode, opens, rows) == tail;
      TailStep(c, Load(c), mode, opens, rows, cut - |close|);
      GrowsTrans(f, c, ApplyAll(f, acts[..cut]));
    }
  }

  /** One write, cut anywhere but inside the rename window, keeps the part
      numbering consistent and loses no row; completed, it has stored its rows
      and the counter on disk is the one in memory. */
  lemma WriteKeepsParts(cfg: PartConfig, f: Files, mode: Mode, rows: seq<Row>, cut: nat)
    requires Consistent(f)
    requires SafeCut(WriteActions(cfg, f, Load(f), mode, rows), cut)
    ensures var acts := WriteActions(cfg, f, Load(f), mode, rows);
            var g := ApplyAll(f, acts[..cut]);
            && Consistent(g) && Grows(f, g)
            && (cut == |acts| ==>
                  && Load(g) == NextCounter(cfg, f, Load(f), mode, rows)
                  && Stored(g, rows))
  {
    hide Consistent, Grows, Held, Load, Apply;
    var m := Load(f);
    GrowsRefl(f);
    if rows != [] {
      if m.isOpen && (mode.Atomic? || NeedsNewPart(cfg, f, m)) {
        ClosingWrite(cfg, f, mode, rows, cut);
      } else {
        assert WriteActions(cfg, f, m, mode, rows) == Tail(m, mode, NeedsNewPart(cfg, f, m), rows);
        TailStep(f, m, mode, NeedsNewPart(cfg, f, m), rows, cut);
      }
    }
  }

  lemma CompleteWrite(cfg: PartConfig, f: Files, mode: Mode, rows: seq<Row>)
    requires Consistent(f)
    ensures var acts := WriteActions(cfg, f, Load(f), mode, rows);
            var g := ApplyAll(f, acts);
            && Consistent(g) && Grows(f, g) && Stored(g, rows)
            && Load(g) == NextCounter(cfg, f, Load(f), mode, rows)
  {
    var acts := WriteActions(cfg, f, Load(f), mode, rows);
    assert acts[..|acts|] == acts;
    WriteKeepsParts(cfg, f, mode, rows, |acts|);
  }

  /** What closing the part that is open exports. */
  ghost function Closed(f: Files): seq<Part> {
    var m := Load(f);
    if m.isOpen && m.part in f.open then [Part(m.part, f.open[m.part])] else []
  }

  lemma ClosesFirst(f: Files)
    requires Consistent(f)
    ensures var c := ApplyAll(f, CloseActions(f, Load(f)));
            && Consistent(c) && Load(c) == Counter(Load(f).part, false) && c.shipped == f.shipped + Closed(f)
            && (forall n :: n != Load(f).part ==>
                  (n in c.open <==> n in f.open) && (n in f.open ==> c.open[n] == f.open[n]))
  {
    if Load(f).isOpen {
      CloseStep(f);
    } else {
      assert f.shipped + [] == f.shipped;
    }
  }

  /** Where a completed write goes.  A batched one is appended to the open part if
      that is below the cap, and otherwise closes it and opens the next one; an
      atomic one closes it and exports its rows alone under the next number. */
  lemma WriteGoesTo(cfg: PartConfig, f: Files, mode: Mode, rows: seq<Row>)
    requires Consistent(f) && rows != []
    ensures var m, g := Load(f), ApplyAll(f, WriteActions(cfg, f, Load(f), mode, rows));
            var fits := m.isOpen && (m.part in f.open ==> cfg.bytes(f.open[m.part]) < cfg.maxPartBytes);
            if mode.Atomic? then
              && g.counter == Some(Counter(m.part + 1, false))
              && g.shipped == f.shipped + Closed(f) + [Part(m.part + 1, rows)]
              && m.part + 1 in g.exported && g.exported[m.part + 1] == rows
            else
              var n := if fits then m.part else m.part + 1;
              && g.counter == Some(Counter(n, true))
              && g.shipped == (if fits then f.shipped else f.shipped + Closed(f))
              && n in g.open && g.open[n] == (if n in f.open then f.open[n] else []) + rows
  {
    hide Consistent, Closed, ApplyAll;
    OpenIsPositive(f);
    var m := Load(f);
    var opens := NeedsNewPart(cfg, f, m);
    var tail := Tail(m, mode, opens, rows);
    assert tail[..2] == tail;
    if mode.Atomic? || opens {
      var close := CloseActions(f, m);
      var c := ApplyAll(f, close);
      assert WriteActions(cfg, f, m, mode, rows) == close + tail;
      ClosesFirst(f);
      ApplyAppend(f, close, tail);
      TwoActions(c, tail[0], tail[1], 2);
    } else {
      assert WriteActions(cfg, f, m, mode, rows) == tail;
      TwoActions(f, tail[0], tail[1], 2);
    }
  }

  // --- A consumer that deletes exported parts at any time ------------------

  /** `g` is `f` with some exported parts deleted. */
  ghost predicate Reduced(g: Files, f: Files) {
    && g == f.(exported := g.exported)
    && forall n :: n in g.exported ==> n in f.exported && g.exported[n] == f.exported[n]
  }

  /** `acts` with deletions before, between and after them. */
  ghost function ApplyWoven(f: Files, acts: seq<PartAction>, eats: seq<set<nat>>): Files
    requires |eats| == |acts| + 1
    decreases |acts|
  {
    if acts == [] then Eat(f, eats[0])
    else
      var n := |acts| - 1;
      Eat(Apply(ApplyWoven(f, acts[..n], eats[..n + 1]), acts[n]), eats[n + 1])
  }

  lemma {:induction false} WovenReduces(f: Files, acts: seq<PartAction>, eats: seq<set<nat>>)
    requires |eats| == |acts| + 1
    ensures Reduced(ApplyWoven(f, acts, eats), ApplyAll(f, acts))
    decreases |acts|
  {
    if acts != [] {
      var n := |acts| - 1;
      WovenReduces(f, acts[..n], eats[..n + 1]);
    }
  }

  lemma ReducedConsistent(g: Files, f: Files)
    requires Consistent(f) && Reduced(g, f)
    ensures Consistent(g) && Load(g) == Load(f) && Grows(f, g)
  {
    forall n | n in g.exported
      ensures Shipped(g, n, g.exported[n])
    {
      assert Shipped(f, n, f.exported[n]);
    }
    if f.counter.None? {
      LoadUnseeded(f);
      assert g.exported.Keys == {};
    }
  }

  // --- Runs ----------------------------------------------------------------

  /** A write of which the first `cut` actions happen; a cut write is a kill,
      after which the process restarts.  Deletions are woven in. */
  datatype WriteEvent = WriteEvent(mode: Mode, rows: seq<Row>, cut: nat, eats: seq<set<nat>>)

  ghost predicate ValidEvent(cfg: PartConfig, f: Files, e: WriteEvent) {
    && SafeCut(WriteActions(cfg, f, Load(f), e.mode, e.rows), e.cut)
    && |e.eats| == e.cut + 1
  }

  ghost function Step(cfg: PartConfig, f: Files, e: WriteEvent): Files
    requires ValidEvent(cfg, f, e)
  {
    ApplyWoven(f, WriteActions(cfg, f, Load(f), e.mode, e.rows)[..e.cut], e.eats)
  }

  ghost predicate ValidRun(cfg: PartConfig, f: Files, events: seq<WriteEvent>)
    decreases |events|
  {
    events == [] || (ValidEvent(cfg, f, events[0]) && ValidRun(cfg, Step(cfg, f, events[0]), events[1..]))
  }

  ghost function Run(cfg: PartConfig, f: Files, events: seq<WriteEvent>): Files
    requires ValidRun(cfg, f, events)
    decreases |events|
  {
    if events == [] then f else Run(cfg, Step(cfg, f, events[0]), events[1..])
  }

  /** Export part numbers are write-once over every run: the numbers ever
      exported are strictly increasing, what is still there is what was put
      there, and rows that were exported or are in the open part stay so. */
  lemma {:induction false} ExportedPartsAreWriteOnce(cfg: PartConfig, f: Files, events: seq<WriteEvent>)
    requires Consistent(f) && ValidRun(cfg, f, events)
    ensures var g := Run(cfg, f, events);
            && Consistent(g)
            && Increasing(g.shipped)
            && (forall n :: n in g.exported ==> Part(n, g.exported[n]) in g.shipped)
            && f.shipped <= g.shipped
            && forall r :: Held(f, r) ==> Held(g, r)
    decreases |events|
  {
    var g := Run(cfg, f, events);
    if events != [] {
      var e := events[0];
      var acts := WriteActions(cfg, f, Load(f), e.mode, e.rows)[..e.cut];
      var mid := ApplyAll(f, acts);
      var next := Step(cfg, f, e);
      WriteKeepsParts(cfg, f, e.mode, e.rows, e.cut);
      WovenReduces(f, acts, e.eats);
      ReducedConsistent(next, mid);
      ExportedPartsAreWriteOnce(cfg, next, events[1..]);
    }
    forall n | n in g.exported
      ensures Part(n, g.exported[n]) in g.shipped
    {
      assert Shipped(g, n, g.exported[n]);
    }
  }

  lemma EmptyIsConsistent()
    ensures Consistent(EMPTY_FILES) && Load(EMPTY_FILES) == Counter(0, false)
  {
  }

  // --- Uninterrupted runs --------------------------------------------------

  datatype Write = Write(mode: Mode, rows: seq<Row>)

  function ShippedRows(parts: seq<Part>): seq<Row>
    decreases |parts|
  {
    if parts == [] then [] else ShippedRows(parts[..|parts| - 1]) + parts[|parts| - 1].rows
  }

  lemma ShippedRowsSnoc(parts: seq<Part>, p: Part)
    ensures ShippedRows(parts + [p]) == ShippedRows(parts) + p.rows
  {
    assert (parts + [p])[..|parts|] == parts;
  }

  ghost function OpenRows(f: Files): seq<Row> {
    var m := Load(f);
    if m.isOpen && m.part in f.open then f.open[m.part] else []
  }

  /** Parts 1, 2, ... were exported in that order, the next one may be open,
      nothing else is under state_base, and together they are all that was
      written. */
  ghost predicate Orderly(f: Files) {
    var m := Load(f);
    && Consistent(f)
    && (forall i :: 0 <= i < |f.shipped| ==> f.shipped[i].number == i + 1)
    && m.part == |f.shipped| + (if m.isOpen then 1 else 0)
    && f.open.Keys == (if m.isOpen then {m.part} else {})
    && f.written == ShippedRows(f.shipped) + OpenRows(f)
  }

  /** No append goes to a part already at or over the cap. */
  ghost predicate AppendsBelowCap(cfg: PartConfig, f: Files, acts: seq<PartAction>) {
    forall i :: 0 <= i < |acts| && acts[i].Append? ==>
      var g := ApplyAll(f, acts[..i]);
      acts[i].number in g.open ==> cfg.bytes(g.open[acts[i].number]) < cfg.maxPartBytes
  }

  lemma CloseKeepsOrder(f: Files)
    requires Orderly(f) && Load(f).isOpen
    ensures var g := ApplyAll(f, CloseActions(f, Load(f)));
            Orderly(g) && Load(g) == Counter(Load(f).part, false) && g.written == f.written && g.open == map[]
  {
    var m := Load(f);
    CloseStep(f);
    var g := ApplyAll(f, CloseActions(f, m));
    assert m.part in f.open;
    ShippedRowsSnoc(f.shipped, Part(m.part, f.open[m.part]));
    assert g.open.Keys == {};
  }

  lemma AppendKeepsOrder(f: Files, n: nat, rows: seq<Row>)
    requires Orderly(f)
    requires var m := Load(f); if m.isOpen then n == m.part else n == m.part + 1
    ensures var g := Apply(Apply(f, Append(n, rows)), Persist(Counter(n, true)));
            Orderly(g) && g.written == f.written + rows
  {
    AppendStep(f, n, rows);
    var g := Apply(Apply(f, Append(n, rows)), Persist(Counter(n, true)));
    assert g.open.Keys == {n};
    var before := if n in f.open then f.open[n] else [];
    assert OpenRows(f) == before;
    assert ShippedRows(f.shipped) + (before + rows) == (ShippedRows(f.shipped) + before) + rows;
  }

  lemma PublishKeepsOrder(f: Files, n: nat, rows: seq<Row>)
    requires n >= 1 && Orderly(f) && Load(f) == Counter(n - 1, false)
    ensures var g := Apply(Apply(f, Persist(Counter(n, false))), Publish(n, rows));
            Orderly(g) && g.written == f.written + rows
  {
    PublishStep(f, n, rows);
    ShippedRowsSnoc(f.shipped, Part(n, rows));
  }

  lemma TailKeepsOrder(cfg: PartConfig, f: Files, mode: Mode, opens: bool, rows: seq<Row>)
    requires Orderly(f)
    requires Load(f).isOpen ==> mode.Batched? && !opens
    requires mode.Batched? && !opens ==> Load(f).isOpen
    requires mode.Batched? && !opens ==> !NeedsNewPart(cfg, f, Load(f))
    ensures var acts := Tail(Load(f), mode, opens, rows);
            var g := ApplyAll(f, acts);
            Orderly(g) && g.written == f.written + rows && AppendsBelowCap(cfg, f, acts)
  {
    var m := Load(f);
    var acts := Tail(m, mode, opens, rows);
    var n := m.part + 1;
    assert PathNumber(n) == n;
    TwoActions(f, acts[0], acts[1], 2);
    assert acts[..2] == acts;
    assert acts[..0] == [];
    if mode.Atomic? {
      PublishKeepsOrder(f, n, rows);
    } else if opens {
      AppendKeepsOrder(f, n, rows);
    } else {
      AppendKeepsOrder(f, m.part, rows);
    }
  }

  lemma CloseThenTailBelowCap(cfg: PartConfig, f: Files, close: seq<PartAction>, tail: seq<PartAction>)
    requires forall a :: a in close ==> !a.Append?
    requires AppendsBelowCap(cfg, ApplyAll(f, close), tail)
    ensures AppendsBelowCap(cfg, f, close + tail)
  {
    var acts := close + tail;
    assert forall i :: 0 <= i < |close| ==> acts[i] == close[i] && !close[i].Append?;
    forall i | 0 <= i < |acts| && acts[i].Append?
      ensures var g := ApplyAll(f, acts[..i]);
              acts[i].number in g.open ==> cfg.bytes(g.open[acts[i].number]) < cfg.maxPartBytes
    {
      var j := i - |close|;
      assert tail[j] == acts[i];
      assert acts[..i] == close + tail[..j];
      ApplyAppend(f, close, tail[..j]);
    }
  }

  lemma NoAppends(cfg: PartConfig, f: Files)
    ensures AppendsBelowCap(cfg, f, []) && ApplyAll(f, []) == f
  {
  }

  /** A completed write of an uninterrupted run. */
  lemma WriteKeepsOrder(cfg: PartConfig, f: Files, mode: Mode, rows: seq<Row>)
    requires Orderly(f)
    ensures var acts := WriteActions(cfg, f, Load(f), mode, rows);
            var g := ApplyAll(f, acts);
            Orderly(g) && g.written == f.written + rows && AppendsBelowCap(cfg, f, acts)
  {
    hide Orderly, AppendsBelowCap, Load, ApplyAll;
    var m := Load(f);
    var acts := WriteActions(cfg, f, m, mode, rows);
    if rows == [] {
      NoAppends(cfg, f);
      assert f.written + rows == f.written;
    } else {
      var opens := NeedsNewPart(cfg, f, m);
      var tail := Tail(m, mode, opens, rows);
      if m.isOpen && (mode.Atomic? || opens) {
        var close := CloseActions(f, m);
        var c := ApplyAll(f, close);
        CloseKeepsOrder(f);
        TailKeepsOrder(cfg, c, mode, opens, rows);
        assert Tail(Load(c), mode, opens, rows) == tail;
        assert acts == close + tail;
        ApplyAppend(f, close, tail);
        CloseThenTailBelowCap(cfg, f, close, tail);
      } else {
        assert acts == tail;
        TailKeepsOrder(cfg, f, mode, opens, rows);
      }
    }
  }

  lemma NextWrite(cfg: PartConfig, f: Files, mode: Mode, rows: seq<Row>)
    requires Orderly(f)
    ensures var g := ApplyAll(f, WriteActions(cfg, f, Load(f), mode, rows));
            && Orderly(g) && g.written == f.written + rows
            && Load(g) == NextCounter(cfg, f, Load(f), mode, rows)
            && AppendsBelowCap(cfg, f, WriteActions(cfg, f, Load(f), mode, rows))
  {
    CompleteWrite(cfg, f, mode, rows);
    WriteKeepsOrder(cfg, f, mode, rows);
  }

  function CompleteRun(cfg: PartConfig, f: Files, m: Counter, writes: seq<Write>): Files
    decreases |writes|
  {
    if writes == [] then f
    else
      var w := writes[0];
      CompleteRun(cfg, ApplyAll(f, WriteActions(cfg, f, m, w.mode, w.rows)),
                  NextCounter(cfg, f, m, w.mode, w.rows), writes[1..])
  }

  function AllRows(writes: seq<Write>): seq<Row> {
    if writes == [] then [] else writes[0].rows + AllRows(writes[1..])
  }

  ghost predicate RunBelowCap(cfg: PartConfig, f: Files, m: Counter, writes: seq<Write>)
    decreases |writes|
  {
    writes == [] ||
    (var acts := WriteActions(cfg, f, m, writes[0].mode, writes[0].rows);
     && AppendsBelowCap(cfg, f, acts)
     && RunBelowCap(cfg, ApplyAll(f, acts), NextCounter(cfg, f, m, writes[0].mode, writes[0].rows), writes[1..]))
  }

  lemma {:induction false} OrderlyRun(cfg: PartConfig, f: Files, writes: seq<Write>)
    requires Orderly(f)
    ensures var g := CompleteRun(cfg, f, Load(f), writes);
            Orderly(g) && g.written == f.written + AllRows(writes)
    decreases |writes|
  {
    hide Orderly, WriteActions, NextCounter, AppendsBelowCap, Load, ApplyAll;
    if writes == [] {
      assert f.written + [] == f.written;
    } else {
      var w := writes[0];
      NextWrite(cfg, f, w.mode, w.rows);
      var next := ApplyAll(f, WriteActions(cfg, f, Load(f), w.mode, w.rows));
      OrderlyRun(cfg, next, writes[1..]);
      assert next.written + AllRows(writes[1..]) == f.written + (w.rows + AllRows(writes[1..]));
    }
  }

  lemma {:induction false} BelowCapRun(cfg: PartConfig, f: Files, writes: seq<Write>)
    requires Orderly(f)
    ensures RunBelowCap(cfg, f, Load(f), writes)
    decreases |writes|
  {
    if writes != [] {
      var w := writes[0];
      NextWrite(cfg, f, w.mode, w.rows);
      BelowCapRun(cfg, ApplyAll(f, WriteActions(cfg, f, Load(f), w.mode, w.rows)), writes[1..]);
    }
  }

  /** Nothing is lost, duplicated or reordered: the exported parts in number
      order and then the open part are the rows of all writes in call order.
      No append went to a part already at the cap. */
  lemma OrderPreservingConservation(cfg: PartConfig, writes: seq<Write>)
    ensures var g := CompleteRun(cfg, EMPTY_FILES, Counter(0, false), writes);
            && (forall i :: 0 <= i < |g.shipped| ==> g.shipped[i].number == i + 1)
            && ShippedRows(g.shipped) + OpenRows(g) == AllRows(writes)
            && RunBelowCap(cfg, EMPTY_FILES, Counter(0, false), writes)
  {
    EmptyIsOrderly();
    OrderlyRun(cfg, EMPTY_FILES, writes);
    BelowCapRun(cfg, EMPTY_FILES, writes);
  }

  lemma EmptyIsOrderly()
    ensures Orderly(EMPTY_FILES)
  {
    EmptyIsConsistent();
  }

  // --- The rename window ---------------------------------------------------

  lemma {:induction false} ShippedGrows(f: Files, acts: seq<PartAction>)
    ensures f.shipped <= ApplyAll(f, acts).shipped
    decreases |acts|
  {
    if acts != [] {
      ShippedGrows(f, acts[..|acts| - 1]);
    }
  }

  ghost predicate HasPart(parts: seq<Part>, n: nat) {
    exists i :: 0 <= i < |parts| && parts[i].number == n
  }

  /** The counter says part `n` is open although it was already exported, and
      there is again a file to export under that number. */
  ghost predicate Reopened(f: Files, n: nat) {
    n >= 1 && f.counter == Some(Counter(n, true)) && n in f.open && HasPart(f.shipped, n)
  }

  /** Part `n` is open again, or was exported twice. */
  ghost predicate Reused(f: Files, n: nat) {
    Reopened(f, n) || !Increasing(f.shipped)
  }

  lemma ReusedIsInconsistent(f: Files, n: nat)
    requires Reused(f, n)
    ensures !Consistent(f)
    ensures f.counter != Some(Counter(n, true)) ==> !Increasing(f.shipped)
  {
  }

  lemma ReopenedWrite(cfg: PartConfig, f: Files, n: nat, mode: Mode, rows: seq<Row>, cut: nat)
    requires Reopened(f, n) && SafeCut(WriteActions(cfg, f, Counter(n, true), mode, rows), cut)
    ensures Reused(ApplyAll(f, WriteActions(cfg, f, Counter(n, true), mode, rows)[..cut]), n)
  {
    var m := Counter(n, true);
    var acts := WriteActions(cfg, f, m, mode, rows);
    if cut == 0 {
      assert acts[..cut] == [];
    } else if mode.Batched? && !NeedsNewPart(cfg, f, m) {
      TwoActions(f, Append(n, rows), Persist(m), cut);
      assert acts == [Append(n, rows), Persist(m)];
    } else {
      assert acts[..cut] == [HandOff(n)] + acts[1..cut];
      ApplyAppend(f, [HandOff(n)], acts[1..cut]);
      ApplyOne(f, HandOff(n));
      var c := Apply(f, HandOff(n));
      ShippedGrows(c, acts[1..cut]);
      var i :| 0 <= i < |f.shipped| && f.shipped[i].number == n;
      var g := ApplyAll(f, acts[..cut]);
      assert g.shipped[i].number == n && g.shipped[|f.shipped|].number == n;
    }
  }

  lemma ReusedStays(cfg: PartConfig, f: Files, n: nat, e: WriteEvent)
    requires Reused(f, n) && ValidEvent(cfg, f, e)
    ensures Reused(Step(cfg, f, e), n)
  {
    var acts := WriteActions(cfg, f, Load(f), e.mode, e.rows)[..e.cut];
    WovenReduces(f, acts, e.eats);
    if Reopened(f, n) {
      ReopenedWrite(cfg, f, n, e.mode, e.rows, e.cut);
    } else {
      ShippedGrows(f, acts);
      var i, j :| 0 <= i < j < |f.shipped| && f.shipped[i].number >= f.shipped[j].number;
      var g := ApplyAll(f, acts);
      assert g.shipped[i] == f.shipped[i] && g.shipped[j] == f.shipped[j];
    }
  }

  lemma {:induction false} ReusedForever(cfg: PartConfig, f: Files, n: nat, events: seq<WriteEvent>)
    requires Reused(f, n) && ValidRun(cfg, f, events)
    ensures Reused(Run(cfg, f, events), n)
    decreases |events|
  {
    hide Reused, Step, ValidEvent;
    if events != [] {
      ReusedStays(cfg, f, n, events[0]);
      ReusedForever(cfg, Step(cfg, f, events[0]), n, events[1..]);
    }
  }

  /** After a kill in the rename window an atomic write repairs the counter, even
      if it is killed in turn. */
  lemma AtomicRepairs(cfg: PartConfig, f: Files, n: nat, rows: seq<Row>, cut: nat)
    requires Consistent(f) && f.counter == Some(Counter(n, true)) && n in f.open
    requires var h := Apply(f, HandOff(n)); 0 < cut <= |WriteActions(cfg, h, Counter(n, true), Atomic, rows)|
    ensures var h := Apply(f, HandOff(n));
            Consistent(ApplyAll(h, WriteActions(cfg, h, Counter(n, true), Atomic, rows)[..cut]))
  {
    hide Consistent, Grows, Held;
    OpenIsPositive(f);
    var h := Apply(f, HandOff(n));
    var closed := Persist(Counter(n, false));
    var acts := WriteActions(cfg, h, Counter(n, true), Atomic, rows);
    var tail := Tail(Counter(n, false), Atomic, false, rows);
    assert acts == [closed] + tail;
    CutOfSum(h, [closed], tail, cut);
    ApplyOne(h, closed);
    assert [closed][..1] == [closed];
    assert CloseActions(f, Load(f)) == [HandOff(n), closed];
    TwoActions(f, HandOff(n), closed, 2);
    assert [HandOff(n), closed][..2] == [HandOff(n), closed];
    CloseStep(f);
    TailStep(Apply(h, closed), Counter(n, false), Atomic, false, rows, cut - 1);
  }

  /** A batched one makes the part the open one again. */
  lemma BatchedReopens(cfg: PartConfig, f: Files, n: nat, rows: seq<Row>, cut: nat)
    requires Consistent(f) && f.counter == Some(Counter(n, true)) && n in f.open
    requires var h := Apply(f, HandOff(n)); 0 < cut <= |WriteActions(cfg, h, Counter(n, true), Batched, rows)|
    ensures var h := Apply(f, HandOff(n));
            Reopened(ApplyAll(h, WriteActions(cfg, h, Counter(n, true), Batched, rows)[..cut]), n)
  {
    OpenIsPositive(f);
    var h, m := Apply(f, HandOff(n)), Counter(n, true);
    assert WriteActions(cfg, h, m, Batched, rows) == [Append(n, rows), Persist(m)];
    TwoActions(h, Append(n, rows), Persist(m), cut);
    assert h.shipped[|f.shipped|].number == n;
  }

  /** Exactly when a kill in the rename window of part `n` ends in an exported
      part being overwritten, over every later run of writes, kills, restarts and
      deletions: numbering is write-once if and only if the first write that gets
      anything done after the restart is an atomic one; otherwise, as soon as the
      counter has moved on, a number has been exported twice. */
  lemma RenameWindow(cfg: PartConfig, f: Files, n: nat, events: seq<WriteEvent>)
    requires Consistent(f) && f.counter == Some(Counter(n, true)) && n in f.open
    requires events != [] && events[0].cut > 0 && ValidRun(cfg, Apply(f, HandOff(n)), events)
    ensures var g := Run(cfg, Apply(f, HandOff(n)), events);
            && (Consistent(g) <==> events[0].mode.Atomic?)
            && (events[0].mode.Atomic? ==>
                  && Increasing(g.shipped) && Apply(f, HandOff(n)).shipped <= g.shipped
                  && forall k :: k in g.exported ==> Part(k, g.exported[k]) in g.shipped)
            && (events[0].mode.Batched? && g.counter != Some(Counter(n, true)) ==> !Increasing(g.shipped))
  {
    hide Consistent, Reopened, ApplyAll, Increasing, ApplyWoven;
    var h, e := Apply(f, HandOff(n)), events[0];
    var acts := WriteActions(cfg, h, Load(h), e.mode, e.rows)[..e.cut];
    var mid, next := ApplyAll(h, acts), Step(cfg, h, e);
    WovenReduces(h, acts, e.eats);
    ShippedGrows(h, acts);
    if e.mode.Atomic? {
      AtomicRepairs(cfg, f, n, e.rows, e.cut);
      ReducedConsistent(next, mid);
      ExportedPartsAreWriteOnce(cfg, next, events[1..]);
    } else {
      BatchedReopens(cfg, f, n, e.rows, e.cut);
      ReducedReopened(next, mid, n);
      ReusedForever(cfg, next, n, events[1..]);
      ReusedIsInconsistent(Run(cfg, next, events[1..]), n);
    }
  }

  lemma ReducedReopened(g: Files, f: Files, n: nat)
    requires Reopened(f, n) && Reduced(g, f)
    ensures Reopened(g, n)
  {
  }

  // --- A lost counter file ----------------------------------------------------

  predicate Persists(acts: seq<PartAction>) {
    exists i :: 0 <= i < |acts| && acts[i].Persist?
  }

  /** Once the counter is written, the one that was there plays no part. */
  lemma {:induction false} CounterOverwritten(f: Files, g: Files, acts: seq<PartAction>)
    requires g == f.(counter := g.counter)
    ensures ApplyAll(g, acts) == ApplyAll(f, acts).(counter := ApplyAll(g, acts).counter)
    ensures Persists(acts) ==> ApplyAll(g, acts) == ApplyAll(f, acts)
    decreases |acts|
  {
    if acts != [] {
      var n := |acts| - 1;
      CounterOverwritten(f, g, acts[..n]);
      if Persists(acts) && !acts[n].Persist? {
        var i :| 0 <= i < |acts| && acts[i].Persist?;
        assert acts[..n][i].Persist?;
      }
    }
  }

  /** The number loaded is above every number ever exported, or equal to the last
      one if no part is open. */
  ghost predicate ResumesAbove(f: Files) {
    var m := Load(f);
    forall i :: 0 <= i < |f.shipped| ==>
      if m.isOpen then f.shipped[i].number < m.part else f.shipped[i].number <= m.part
  }

  lemma LoadedIsConsistent(f: Files)
    requires Consistent(f)
    ensures var g := f.(counter := None);
            Consistent(g.(counter := Some(Load(g)))) <==> ResumesAbove(g)
  {
    var g := f.(counter := None);
    var h := g.(counter := Some(Load(g)));
    forall n | n in f.exported
      ensures Shipped(h, n, h.exported[n])
    {
      assert Shipped(f, n, f.exported[n]);
    }
  }

  /** What a write leaves in the counter file, whatever it finds there. */
  lemma WritePersists(cfg: PartConfig, f: Files, m: Counter, mode: Mode, rows: seq<Row>)
    requires rows != []
    ensures var acts := WriteActions(cfg, f, m, mode, rows);
            && Persists(acts)
            && ApplyAll(f, acts).counter == Some(NextCounter(cfg, f, m, mode, rows))
            && f.shipped <= ApplyAll(f, acts).shipped
  {
    var acts := WriteActions(cfg, f, m, mode, rows);
    var opens := NeedsNewPart(cfg, f, m);
    var close := if mode.Atomic? || opens then CloseActions(f, m) else [];
    var tail := Tail(m, mode, opens, rows);
    assert acts == close + tail;
    ApplyAppend(f, close, tail);
    TwoActions(ApplyAll(f, close), tail[0], tail[1], 2);
    assert tail[..2] == tail;
    assert if mode.Atomic? then acts[|close|].Persist? else acts[|close| + 1].Persist?;
    ShippedGrows(f, acts);
  }

  /** Two reasons for a numbering to be inconsistent. */
  lemma Inconsistent(g: Files, i: nat)
    requires i < |g.shipped|
    ensures (exists j :: i < j < |g.shipped| && g.shipped[j].number <= g.shipped[i].number) ==> !Consistent(g)
    ensures (if Load(g).isOpen then g.shipped[i].number >= Load(g).part else g.shipped[i].number > Load(g).part) ==>
              !Consistent(g)
  {
  }

  lemma ClosesAgain(cfg: PartConfig, f: Files, mode: Mode, rows: seq<Row>)
    requires rows != [] && Load(f).isOpen && Load(f).part >= 1 && Load(f).part in f.open
    requires mode.Atomic? || NeedsNewPart(cfg, f, Load(f))
    ensures var g := ApplyAll(f, WriteActions(cfg, f, Load(f), mode, rows));
            |g.shipped| > |f.shipped| && g.shipped[|f.shipped|].number == Load(f).part
  {
    hide Load, ApplyAll;
    var m := Load(f);
    var acts := WriteActions(cfg, f, m, mode, rows);
    assert acts == [HandOff(m.part)] + acts[1..];
    ApplyAppend(f, [HandOff(m.part)], acts[1..]);
    ApplyOne(f, HandOff(m.part));
    ShippedGrows(Apply(f, HandOff(m.part)), acts[1..]);
  }

  lemma PublishesNext(cfg: PartConfig, f: Files, rows: seq<Row>)
    requires rows != [] && !Load(f).isOpen
    ensures var g := ApplyAll(f, WriteActions(cfg, f, Load(f), Atomic, rows));
            |g.shipped| > |f.shipped| && g.shipped[|f.shipped|].number == Load(f).part + 1
  {
    hide Load, ApplyAll;
    var m := Load(f);
    var acts := WriteActions(cfg, f, m, Atomic, rows);
    assert acts == [Persist(Counter(m.part + 1, false)), Publish(PathNumber(m.part + 1), rows)];
    TwoActions(f, acts[0], acts[1], 2);
    assert acts[..2] == acts;
  }

  /** A write from a number that was exported before exports it again, or makes
      it the open one. */
  lemma NumberReused(cfg: PartConfig, f: Files, mode: Mode, rows: seq<Row>)
    requires rows != [] && f.counter == Some(Load(f)) && !ResumesAbove(f)
    requires Load(f).isOpen ==> Load(f).part >= 1 && Load(f).part in f.open
    ensures !Consistent(ApplyAll(f, WriteActions(cfg, f, Load(f), mode, rows)))
  {
    hide Consistent, ApplyAll, WriteActions;
    var m := Load(f);
    var g := ApplyAll(f, WriteActions(cfg, f, m, mode, rows));
    WritePersists(cfg, f, m, mode, rows);
    var i :| 0 <= i < |f.shipped| && if m.isOpen then f.shipped[i].number >= m.part else f.shipped[i].number > m.part;
    assert g.shipped[i] == f.shipped[i];
    Inconsistent(g, i);
    if m.isOpen && (mode.Atomic? || NeedsNewPart(cfg, f, m)) {
      ClosesAgain(cfg, f, mode, rows);
    } else if mode.Atomic? {
      PublishesNext(cfg, f, rows);
    }
  }

  lemma LoadedOpen(f: Files)
    ensures var g := f.(counter := None); Load(g).isOpen ==> Load(g).part >= 1 && Load(g).part in f.open
  {
  }

  /** The counter file is lost, and the restarted process seeds the counter from
      the parts on disk.  Its first write leaves a consistent numbering if and
      only if the number seeded is not below one that was exported. */
  lemma LostCounterIff(cfg: PartConfig, f: Files, mode: Mode, rows: seq<Row>)
    requires Consistent(f) && rows != []
    ensures var g := f.(counter := None);
            Consistent(ApplyAll(g, WriteActions(cfg, g, Load(g), mode, rows))) <==> ResumesAbove(g)
  {
    var g := f.(counter := None);
    var m := Load(g);
    var h := g.(counter := Some(m));
    var acts := WriteActions(cfg, g, m, mode, rows);
    assert acts == WriteActions(cfg, h, m, mode, rows) && Load(h) == m;
    WritePersists(cfg, g, m, mode, rows);
    CounterOverwritten(g, h, acts);
    LoadedIsConsistent(f);
    LoadedOpen(f);
    if ResumesAbove(g) {
      CompleteWrite(cfg, h, mode, rows);
    } else {
      NumberReused(cfg, h, mode, rows);
    }
  }

  /** For the files of an uninterrupted run the condition is that a part is open,
      that nothing was exported, or that the consumer has not yet deleted the
      part exported last. */
  lemma SeedingIsSafeIff(f: Files)
    requires Orderly(f)
    ensures ResumesAbove(f.(counter := None)) <==> Load(f).isOpen || f.shipped == [] || |f.shipped| in f.exported
  {
    var g, n := f.(counter := None), |f.shipped|;
    forall k | k in f.exported
      ensures 1 <= k <= n
    {
      assert Shipped(f, k, f.exported[k]);
    }
    if !Load(f).isOpen {
      assert f.open.Keys == {};
      if n > 0 {
        assert f.shipped[n - 1].number == n;
      }
    }
  }

  /** Write-once numbering after a lost counter file, over every later run of
      writes, kills, restarts and deletions: kept if the condition holds when
      the file is lost; otherwise the next part gets a number that was exported
      before. */
  lemma LostCounter(cfg: PartConfig, f: Files, mode: Mode, rows: seq<Row>, events: seq<WriteEvent>)
    requires Orderly(f) && rows != []
    requires var g := f.(counter := None);
             ValidRun(cfg, ApplyAll(g, WriteActions(cfg, g, Load(g), mode, rows)), events)
    ensures var g := f.(counter := None);
            var h := Run(cfg, ApplyAll(g, WriteActions(cfg, g, Load(g), mode, rows)), events);
            if Load(f).isOpen || f.shipped == [] || |f.shipped| in f.exported
            then Increasing(h.shipped) && f.shipped <= h.shipped && forall n :: n in h.exported ==>
              Part(n, h.exported[n]) in h.shipped
            else !Load(g).isOpen && HasPart(f.shipped, Load(g).part + 1)
  {
    var g := f.(counter := None);
    var first := ApplyAll(g, WriteActions(cfg, g, Load(g), mode, rows));
    SeedingIsSafeIff(f);
    LostCounterIff(cfg, f, mode, rows);
    if ResumesAbove(g) {
      WritePersists(cfg, g, Load(g), mode, rows);
      ExportedPartsAreWriteOnce(cfg, first, events);
    } else {
      SeededNumberUsed(f);
    }
  }

  lemma SeededNumberUsed(f: Files)
    requires Orderly(f) && !Load(f).isOpen && f.shipped != [] && |f.shipped| !in f.exported
    ensures var m := Load(f.(counter := None)); !m.isOpen && HasPart(f.shipped, m.part + 1)
  {
    var g := f.(counter := None);
    forall k | k in f.exported
      ensures 1 <= k < |f.shipped|
    {
      assert Shipped(f, k, f.exported[k]);
    }
    assert f.open.Keys == {};
    assert f.shipped[Load(g).part].number == Load(g).part + 1;
  }
}
