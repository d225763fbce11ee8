/** IndexStore and BlockStatusStore: the in-memory views of index.csv and
    block_status.csv. */
module ReorgState {
  import opened Basics
  import opened Chain
  import opened IndexFile
  import opened DiskModel
  import opened DiskIO

  /** Registers rows one after the other; later ones win. */
  method Register(view: ByHash, rows: seq<IndexRow>) returns (r: ByHash)
    ensures r == view + LoadIndex(rows)
  {
    r := view;
    for i := 0 to |rows|
      invariant r == view + LoadIndex(rows[..i])
    {
      r := r[rows[i].hash := rows[i]];
      assert rows[..i + 1][..i] == rows[..i];
    }
    assert rows[..|rows|] == rows;
  }

  class IndexStore {
    const disk: Disk
    var byHash: ByHash
    var pending: seq<IndexRow>
    var allCurrent: bool

    /** The view is that of the file, the staged rows have distinct hashes. */
    ghost predicate Valid()
      reads this, disk
    {
      byHash == LoadIndex(disk.state.index) && DistinctHashes(pending)
    }

    /** The cached answer that nothing is stale is right. */
    ghost predicate CacheSound()
      reads this
    {
      allCurrent ==> forall h :: h in byHash ==> byHash[h].version >= CURRENT_SCHEMA
    }

    constructor (disk: Disk)
      ensures this.disk == disk && Valid() && CacheSound() && pending == [] && !allCurrent
    {
      this.disk := disk;
      pending := [];
      allCurrent := false;
      var loaded := Register(map[], disk.state.index);
      byHash := loaded;
    }

    predicate NeedsExportOf(h: Hash)
      reads this
    {
      NeedsExport(byHash, pending, h)
    }

    /** The lowest row of an older schema, from the cache if nothing is stale. */
    method EarliestStale() returns (r: Option<IndexRow>)
      requires Valid() && CacheSound()
      modifies `allCurrent
      ensures IsEarliestStale(byHash, r)
      ensures CacheSound() && (r.None? ==> allCurrent) && (old(allCurrent) ==> allCurrent)
    {
      r := None;
      if allCurrent {
        return;
      }
      var rest := byHash.Keys;
      while rest != {}
        invariant rest <= byHash.Keys && !allCurrent
        invariant r.Some? ==>
                    r.value.hash in byHash && byHash[r.value.hash] == r.value && r.value.version < CURRENT_SCHEMA
        invariant forall h :: h in byHash && h !in rest && byHash[h].version < CURRENT_SCHEMA ==>
                    r.Some? && r.value.height <= byHash[h].height
        decreases |rest|
      {
        var h :| h in rest;
        LoadIndexKeys(disk.state.index);
        if byHash[h].version < CURRENT_SCHEMA && (r.None? || byHash[h].height < r.value.height) {
          r := Some(byHash[h]);
        }
        rest := rest - {h};
      }
      if r.None? {
        allCurrent := true;
      }
    }

    /** Stages a row unless one of its schema or a newer one is known. */
    method Add(row: IndexRow)
      requires Valid()
      modifies `pending
      ensures Valid() && pending == AddRow(byHash, old(pending), row)
    {
      var existing := Lookup(byHash, pending, row.hash);
      if existing.Some? && existing.value.version >= row.version {
        return;
      }
      PutStagedDistinct(pending, row);
      pending := PutStaged(pending, row);
    }

    /** Forgets what was staged since the last flush. */
    method DiscardPending()
      requires Valid()
      modifies `pending
      ensures Valid() && pending == []
    {
      pending := [];
    }

    /** Appends the staged rows to the file and makes them visible. */
    method Flush()
      requires Valid()
      modifies this, disk
      ensures Valid() && pending == [] && allCurrent == old(allCurrent)
      ensures byHash == old(byHash) + LoadIndex(old(pending))
      ensures disk.Performed(old(disk.state), old(disk.done),
                             if old(pending) == [] then [] else [IndexAppend(old(pending))])
      ensures disk.state == old(disk.state).(index := old(disk.state).index + old(pending))
      ensures (&& old(CacheSound())
               && (old(allCurrent) ==> forall r :: r in old(pending) ==> r.version >= CURRENT_SCHEMA)) ==>
                CacheSound()
    {
      hide DistinctHashes, LoadIndex, DoAll;
      if pending == [] {
        assert disk.state.index + [] == disk.state.index;
        NothingPerformed(disk);
        NoRowsLoaded();
        return;
      }
      LoadIndexAppend(disk.state.index, pending);
      FlushKeepsCurrent(byHash, pending);
      NoneIsDistinct();
      disk.Perform(IndexAppend(pending));
      byHash := Register(byHash, pending);
      pending := [];
    }
  }

  lemma NoRowsLoaded()
    ensures LoadIndex([]) == map[]
  {
  }

  lemma NoneIsDistinct()
    ensures DistinctHashes([])
  {
  }

  /** What the cache says is still right after rows of the current schema. */
  lemma FlushKeepsCurrent(view: ByHash, rows: seq<IndexRow>)
    ensures (forall r :: r in rows ==> r.version >= CURRENT_SCHEMA)
            && (forall h :: h in view ==> view[h].version >= CURRENT_SCHEMA) ==>
              forall h :: h in view + LoadIndex(rows) ==> (view + LoadIndex(rows))[h].version >= CURRENT_SCHEMA
  {
    LoadIndexKeys(rows);
  }

  lemma {:induction false} PutStagedDistinct(pending: seq<IndexRow>, row: IndexRow)
    requires DistinctHashes(pending)
    ensures DistinctHashes(PutStaged(pending, row))
    ensures forall r :: r in PutStaged(pending, row) ==> r == row || r in pending
  {
    if pending != [] && pending[0].hash != row.hash {
      PutStagedDistinct(pending[1..], row);
      var rest := PutStaged(pending[1..], row);
      forall j | 0 <= j < |rest|
        ensures rest[j].hash != pending[0].hash
      {
        assert rest[j] in rest;
        if rest[j] != row {
          var m :| 0 <= m < |pending[1..]| && pending[1..][m] == rest[j];
          assert pending[m + 1] == rest[j];
        }
      }
    }
  }

  class BlockStatusStore {
    const disk: Disk
    var entries: Status
    var dirty: bool

    function Memory(): Flags
      reads this
    {
      Flags(entries, dirty)
    }

    constructor (disk: Disk)
      ensures this.disk == disk && Memory() == Flags(disk.state.status, false)
    {
      this.disk := disk;
      entries := disk.state.status;
      dirty := false;
    }

    /** Creates or updates the row. */
    method SetCanonicalFlag(h: nat, x: Hash, canonical: bool)
      modifies this
      ensures Memory() == SetCanonical(old(Memory()), h, x, canonical)
    {
      if (h, x) !in entries || entries[(h, x)] != canonical {
        entries := entries[(h, x) := canonical];
        dirty := true;
      }
    }

    /** Updates the row if there is one. */
    method SetCanonicalFlagIfPresent(h: nat, x: Hash, canonical: bool)
      modifies this
      ensures Memory() == SetCanonicalIfPresent(old(Memory()), h, x, canonical)
    {
      if (h, x) in entries && entries[(h, x)] != canonical {
        entries := entries[(h, x) := canonical];
        dirty := true;
      }
    }

    method Flush()
      modifies this, disk
      ensures Memory() == Flags(old(entries), false)
      ensures disk.Performed(old(disk.state), old(disk.done), if old(dirty) then [StatusReplace(old(entries))] else [])
      ensures disk.state == old(disk.state).(status := if old(dirty) then old(entries) else old(disk.state).status)
    {
      if !dirty {
        assert disk.done + [] == disk.done;
        return;
      }
      disk.Perform(StatusReplace(entries));
      dirty := false;
    }
  }
}
