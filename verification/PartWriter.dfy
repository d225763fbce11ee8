/** PartSequencer: writes the parts of one logical CSV, in place. */
module PartWriter {
  import opened Chain
  import opened DiskModel
  import opened DiskIO
  import PF = PartFiles

  /** The highest part number on disk, 0 if there is none. */
  method HighestPart(keys: set<nat>) returns (n: nat)
    ensures n == PF.Highest(keys)
  {
    n := 0;
    var rest := keys;
    while rest != {}
      invariant rest <= keys
      invariant forall k :: k in keys && k !in rest ==> k <= n
      invariant n == 0 || n in keys
      invariant rest == keys ==> n == 0
      decreases |rest|
    {
      var k :| k in rest;
      if k > n {
        n := k;
      }
      rest := rest - {k};
    }
    if keys != {} {
      var top := PF.Highest(keys);
      assert top in keys && top <= n;
    }
  }

  class PartSequencer {
    const disk: Disk
    const kind: Kind
    const cfg: PF.PartConfig
    var currentPart: nat
    var partIsOpen: bool

    function Files(): PF.Files
      reads disk
    {
      disk.state.parts.At(kind)
    }

    function Memory(): PF.Counter
      reads this
    {
      PF.Counter(currentPart, partIsOpen)
    }

    constructor (disk: Disk, kind: Kind, cfg: PF.PartConfig)
      ensures this.disk == disk && this.kind == kind && this.cfg == cfg
      ensures Memory() == PF.Load(Files())
    {
      this.disk, this.kind, this.cfg := disk, kind, cfg;
      var files := disk.state.parts.At(kind);
      if files.counter.Some? {
        currentPart, partIsOpen := files.counter.value.part, files.counter.value.isOpen;
      } else {
        var stateHighest := HighestPart(files.open.Keys);
        var exportHighest := HighestPart(files.exported.Keys);
        currentPart := if stateHighest > 0 then stateHighest else exportHighest;
        partIsOpen := stateHighest > 0;
      }
    }

    /** What the calls do, from `before` on: the durable actions `acts`. */
    ghost predicate Wrote(before: DiskState, history: seq<Action>, acts: seq<PF.PartAction>)
      reads disk
    {
      && disk.Performed(before, history, Tag(kind, acts))
      && disk.state == before.(parts := before.parts.With(kind, PF.ApplyAll(before.parts.At(kind), acts)))
    }

    method Act(a: PF.PartAction)
      modifies disk
      ensures Wrote(old(disk.state), old(disk.done), [a])
      ensures Files() == PF.Apply(old(Files()), a)
    {
      disk.Perform(OnPart(kind, a));
      PF.ApplyOne(old(Files()), a);
      assert Tag(kind, [a]) == [OnPart(kind, a)];
    }

    lemma WroteNothing()
      ensures Wrote(disk.state, disk.done, [])
      ensures DoAll(disk.state, Tag(kind, [])) == disk.state && disk.done + Tag(kind, []) == disk.done
    {
      DoTagged(disk.state, kind, []);
      assert Tag(kind, []) == [];
    }

    lemma WroteThen(before: DiskState, history: seq<Action>, xs: seq<PF.PartAction>, ys: seq<PF.PartAction>)
      requires Wrote(DoAll(before, Tag(kind, xs)), history + Tag(kind, xs), ys)
      ensures Wrote(before, history, xs + ys)
      ensures Files() == PF.ApplyAll(before.parts.At(kind), xs + ys)
    {
      assert Tag(kind, xs + ys) == Tag(kind, xs) + Tag(kind, ys);
      PerformedThen(before, history, Tag(kind, xs), DoAll(before, Tag(kind, xs)), Tag(kind, ys), disk);
      DoTagged(before, kind, xs + ys);
    }

    method Persist()
      modifies disk
      ensures Wrote(old(disk.state), old(disk.done), [PF.Persist(Memory())])
      ensures Files() == PF.Apply(old(Files()), PF.Persist(Memory()))
    {
      Act(PF.Persist(Memory()));
    }

    /** Hands the open part over to the consumer. */
    method CloseIfOpen()
      modifies this, disk
      ensures Wrote(old(disk.state), old(disk.done), PF.CloseActions(old(Files()), old(Memory())))
      ensures Memory() == PF.Counter(old(currentPart), false)
    {
      ghost var before, history := disk.state, disk.done;
      if !partIsOpen {
        WroteNothing();
        return;
      }
      ghost var handOff := [];
      if PF.PathNumber(currentPart) in Files().open {
        handOff := [PF.HandOff(PF.PathNumber(currentPart))];
        Act(PF.HandOff(PF.PathNumber(currentPart)));
      } else {
        WroteNothing();
      }
      partIsOpen := false;
      Persist();
      WroteThen(before, history, handOff, [PF.Persist(Memory())]);
    }

    /** Appends to the current part, rotating first if it is full or closed. */
    method WriteBatched(rows: seq<Row>)
      modifies this, disk
      ensures Wrote(old(disk.state), old(disk.done), PF.BatchedActions(cfg, old(Files()), old(Memory()), rows))
      ensures Memory() == PF.NextCounter(cfg, old(Files()), old(Memory()), PF.Batched, rows)
    {
      hide PF.Apply, PF.ApplyAll, DoAll, Do;
      ghost var before, history := disk.state, disk.done;
      if rows == [] {
        WroteNothing();
        return;
      }
      var target := PF.PathNumber(currentPart);
      var needsNewPart := !partIsOpen || (target in Files().open
                                          && cfg.bytes(Files().open[target]) >= cfg.maxPartBytes);
      ghost var close := [];
      if needsNewPart {
        close := PF.CloseActions(Files(), Memory());
        CloseIfOpen();
        currentPart := currentPart + 1;
        partIsOpen := true;
        target := PF.PathNumber(currentPart);
      } else {
        WroteNothing();
      }
      Act(PF.Append(target, rows));
      WroteThen(before, history, close, [PF.Append(target, rows)]);
      Persist();
      WroteThen(before, history, close + [PF.Append(target, rows)], [PF.Persist(Memory())]);
      assert close + [PF.Append(target, rows)] + [PF.Persist(Memory())]
          == PF.BatchedActions(cfg, before.parts.At(kind), old(Memory()), rows);
    }

    /** Exports the rows as a part of their own. */
    method WriteAtomic(rows: seq<Row>)
      modifies this, disk
      ensures Wrote(old(disk.state), old(disk.done), PF.AtomicActions(old(Files()), old(Memory()), rows))
      ensures Memory() == PF.NextCounter(cfg, old(Files()), old(Memory()), PF.Atomic, rows)
    {
      hide PF.Apply, PF.ApplyAll, DoAll, Do;
      ghost var before, history := disk.state, disk.done;
      if rows == [] {
        WroteNothing();
        return;
      }
      ghost var close := PF.CloseActions(Files(), Memory());
      CloseIfOpen();
      currentPart := currentPart + 1;
      partIsOpen := false;
      Persist();
      WroteThen(before, history, close, [PF.Persist(Memory())]);
      var target := PF.PathNumber(currentPart);
      Act(PF.Publish(target, rows));
      WroteThen(before, history, close + [PF.Persist(Memory())], [PF.Publish(target, rows)]);
      assert close + [PF.Persist(Memory())] + [PF.Publish(target, rows)]
          == close + [PF.Persist(Memory()), PF.Publish(target, rows)];
    }

    method Write(mode: PF.Mode, rows: seq<Row>)
      modifies this, disk
      ensures Wrote(old(disk.state), old(disk.done), PF.WriteActions(cfg, old(Files()), old(Memory()), mode, rows))
      ensures Memory() == PF.NextCounter(cfg, old(Files()), old(Memory()), mode, rows)
    {
      match mode
      case Batched => WriteBatched(rows);
      case Atomic => WriteAtomic(rows);
    }
  }
}
