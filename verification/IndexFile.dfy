/** index.csv and block_status.csv as values: the append-only record of
    exported blocks keyed by blockhash, and the canonical flags. */
module IndexFile {
  import opened Basics
  import opened Chain

  const CURRENT_SCHEMA: nat := 2

  datatype IndexRow = IndexRow(height: nat, hash: Hash, prev: Hash, version: nat)

  type ByHash = map<Hash, IndexRow>

  /** The view IndexStore loads: the last row of a blockhash wins. */
  function LoadIndex(rows: seq<IndexRow>): ByHash
    decreases |rows|
  {
    if rows == [] then map[]
    else LoadIndex(rows[..|rows| - 1])[rows[|rows| - 1].hash := rows[|rows| - 1]]
  }

  lemma {:induction false} LoadIndexAppend(xs: seq<IndexRow>, ys: seq<IndexRow>)
    ensures LoadIndex(xs + ys) == LoadIndex(xs) + LoadIndex(ys)
    decreases |ys|
  {
    if ys == [] {
      assert xs + ys == xs;
    } else {
      var n := |ys| - 1;
      assert (xs + ys)[..|xs + ys| - 1] == xs + ys[..n];
      LoadIndexAppend(xs, ys[..n]);
    }
  }

  lemma {:induction false} LoadIndexKeys(rows: seq<IndexRow>)
    ensures forall h :: h in LoadIndex(rows) ==> LoadIndex(rows)[h] in rows && LoadIndex(rows)[h].hash == h
    ensures forall r :: r in rows ==> r.hash in LoadIndex(rows)
    decreases |rows|
  {
    if rows != [] {
      LoadIndexKeys(rows[..|rows| - 1]);
    }
  }

  ghost predicate DistinctHashes(rows: seq<IndexRow>) {
    forall i, j :: 0 <= i < j < |rows| ==> rows[i].hash != rows[j].hash
  }

  lemma {:induction false} LoadIndexDistinct(rows: seq<IndexRow>)
    requires DistinctHashes(rows)
    ensures forall r :: r in rows ==> r.hash in LoadIndex(rows) && LoadIndex(rows)[r.hash] == r
    decreases |rows|
  {
    if rows != [] {
      LoadIndexDistinct(rows[..|rows| - 1]);
    }
  }

  predicate HasStaged(pending: seq<IndexRow>, h: Hash) {
    exists i :: 0 <= i < |pending| && pending[i].hash == h
  }

  /** The row staged for `h`: `_pending.get(h)`. */
  function FindStaged(pending: seq<IndexRow>, h: Hash): (r: Option<IndexRow>)
    ensures r.None? <==> !HasStaged(pending, h)
    ensures r.Some? ==> r.value in pending && r.value.hash == h
  {
    if pending == [] then None
    else if pending[0].hash == h then Some(pending[0])
    else
      assert forall i :: 0 <= i < |pending[1..]| ==> pending[1..][i] == pending[i + 1];
      assert HasStaged(pending, h) ==> HasStaged(pending[1..], h) by {
        if HasStaged(pending, h) {
          var i :| 0 <= i < |pending| && pending[i].hash == h;
          assert pending[1..][i - 1].hash == h;
        }
      }
      FindStaged(pending[1..], h)
  }

  /** A flushed row comes before a staged one. */
  function Lookup(byHash: ByHash, pending: seq<IndexRow>, h: Hash): Option<IndexRow> {
    if h in byHash then Some(byHash[h]) else FindStaged(pending, h)
  }

  /** The hash is indexed or staged. */
  ghost predicate Covered(byHash: ByHash, pending: seq<IndexRow>, h: Hash) {
    h in byHash || HasStaged(pending, h)
  }

  predicate NeedsExport(byHash: ByHash, pending: seq<IndexRow>, h: Hash) {
    match Lookup(byHash, pending, h)
    case None => true
    case Some(row) => row.version < CURRENT_SCHEMA
  }

  /** `_pending[row.hash] = row`: in place, or at the end. */
  function PutStaged(pending: seq<IndexRow>, row: IndexRow): seq<IndexRow> {
    if pending == [] then [row]
    else if pending[0].hash == row.hash then [row] + pending[1..]
    else [pending[0]] + PutStaged(pending[1..], row)
  }

  lemma {:induction false} PutStagedNew(pending: seq<IndexRow>, row: IndexRow)
    requires !HasStaged(pending, row.hash)
    ensures PutStaged(pending, row) == pending + [row]
  {
    if pending != [] {
      assert pending[0].hash != row.hash;
      forall i | 0 <= i < |pending[1..]|
        ensures pending[1..][i].hash != row.hash
      {
        assert pending[i + 1].hash != row.hash;
      }
      PutStagedNew(pending[1..], row);
    }
  }

  /** IndexStore.add. */
  function AddRow(byHash: ByHash, pending: seq<IndexRow>, row: IndexRow): seq<IndexRow> {
    var existing := Lookup(byHash, pending, row.hash);
    if existing.Some? && existing.value.version >= row.version then pending else PutStaged(pending, row)
  }

  /** A stale row of least height; any of them if several are as low. */
  ghost predicate IsEarliestStale(byHash: ByHash, pick: Option<IndexRow>) {
    match pick
    case None => forall h :: h in byHash ==> byHash[h].version >= CURRENT_SCHEMA
    case Some(row) =>
      && row.hash in byHash && byHash[row.hash] == row && row.version < CURRENT_SCHEMA
      && forall h :: h in byHash && byHash[h].version < CURRENT_SCHEMA ==> row.height <= byHash[h].height
  }

  // --- block_status.csv ----------------------------------------------------

  type Status = map<(nat, Hash), bool>

  /** In-memory flags, and whether they differ from the file. */
  datatype Flags = Flags(entries: Status, dirty: bool)

  function SetCanonical(f: Flags, h: nat, x: Hash, canonical: bool): Flags {
    if (h, x) in f.entries && f.entries[(h, x)] == canonical then f
    else Flags(f.entries[(h, x) := canonical], true)
  }

  function SetCanonicalIfPresent(f: Flags, h: nat, x: Hash, canonical: bool): Flags {
    if (h, x) in f.entries && f.entries[(h, x)] != canonical
    then Flags(f.entries[(h, x) := canonical], true)
    else f
  }

  /** A block without a row is canonical. */
  predicate Canonical(s: Status, h: nat, x: Hash) {
    (h, x) in s ==> s[(h, x)]
  }

  /** Setting a flag creates its row and leaves the others alone; setting it if
      present creates none.  Either is dirty afterwards exactly if it was or a row
      has changed. */
  lemma SettingFlags(f: Flags, h: nat, x: Hash, canonical: bool)
    ensures var g := SetCanonical(f, h, x, canonical);
            && g.entries.Keys == f.entries.Keys + {(h, x)} && g.entries[(h, x)] == canonical
            && (forall k :: k in f.entries && k != (h, x) ==> g.entries[k] == f.entries[k])
            && (g.dirty <==> f.dirty || g.entries != f.entries)
    ensures var g := SetCanonicalIfPresent(f, h, x, canonical);
            && g.entries.Keys == f.entries.Keys && ((h, x) in f.entries ==> g.entries[(h, x)] == canonical)
            && (forall k :: k in f.entries && k != (h, x) ==> g.entries[k] == f.entries[k])
            && (g.dirty <==> f.dirty || g.entries != f.entries)
  {
    if (h, x) !in f.entries {
      assert (h, x) in SetCanonical(f, h, x, canonical).entries;
    } else if f.entries[(h, x)] != canonical {
      assert SetCanonical(f, h, x, canonical).entries[(h, x)] != f.entries[(h, x)];
      assert SetCanonicalIfPresent(f, h, x, canonical).entries[(h, x)] != f.entries[(h, x)];
    }
  }
}
