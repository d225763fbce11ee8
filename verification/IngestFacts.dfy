/** The bookkeeping that ties the loops of the ingest code to the functions
    that specify them. */
module IngestFacts {
  import opened Basics
  import opened Chain
  import opened IndexFile
  import opened DiskModel
  import opened Pass
  import PF = PartFiles
  import PassFacts

  // --- Seeding -------------------------------------------------------------

  lemma {:induction false} PutStagedCovers(pending: seq<IndexRow>, row: IndexRow, h: Hash)
    ensures HasStaged(PutStaged(pending, row), h) <==> h == row.hash || HasStaged(pending, h)
  {
    var next := PutStaged(pending, row);
    if pending == [] {
      assert next[0] == row;
    } else if pending[0].hash == row.hash {
      assert next[0] == row && forall i :: 1 <= i < |pending| ==> next[i] == pending[i];
    } else {
      PutStagedCovers(pending[1..], row, h);
      var rest := PutStaged(pending[1..], row);
      assert next[0] == pending[0];
      assert forall i :: 0 <= i < |rest| ==> next[i + 1] == rest[i];
      assert forall i :: 0 <= i < |pending[1..]| ==> pending[1..][i] == pending[i + 1];
      if HasStaged(rest, h) {
        var i :| 0 <= i < |rest| && rest[i].hash == h;
        assert next[i + 1].hash == h;
      }
      if HasStaged(pending, h) && pending[0].hash != h {
        var i :| 0 <= i < |pending| && pending[i].hash == h;
        assert pending[1..][i - 1].hash == h;
      }
    }
  }

  /** Every block found on disk is indexed or staged. */
  lemma {:induction false} SeedCovers(byHash: ByHash, pending: seq<IndexRow>, rows: seq<Row>)
    ensures var s := SeedPending(byHash, pending, rows);
            && (forall h :: Covered(byHash, pending, h) ==> Covered(byHash, s, h))
            && (forall r :: r in rows ==> Covered(byHash, s, r.block))
    decreases |rows|
  {
    if rows != [] {
      var row := IndexRow(rows[0].height, rows[0].block, rows[0].prev, 1);
      var next := AddRow(byHash, pending, row);
      forall h {
        PutStagedCovers(pending, row, h);
      }
      SeedCovers(byHash, next, rows[1..]);
      assert Covered(byHash, next, rows[0].block);
    }
  }

  /** Seeding an index that has all the blocks does nothing. */
  lemma {:induction false} SeedNothing(byHash: ByHash, rows: seq<Row>)
    requires forall r :: r in rows ==> r.block in byHash
    requires forall h :: h in byHash ==> byHash[h].version >= 1
    ensures SeedPending(byHash, [], rows) == []
    decreases |rows|
  {
    if rows != [] {
      SeedNothing(byHash, rows[1..]);
    }
  }

  // --- The stale row -------------------------------------------------------

  ghost function Restrict(byHash: ByHash, keys: set<Hash>): ByHash
    requires keys <= byHash.Keys
  {
    map h | h in keys :: byHash[h]
  }

  lemma {:induction false} StaleExists(byHash: ByHash, keys: set<Hash>)
    requires forall h :: h in byHash ==> byHash[h].hash == h
    requires keys <= byHash.Keys
    ensures exists pick: Option<IndexRow> :: IsEarliestStale(Restrict(byHash, keys), pick)
    decreases |keys|
  {
    var view := Restrict(byHash, keys);
    if keys == {} {
      assert IsEarliestStale(view, None);
    } else {
      var h :| h in keys;
      var rest := keys - {h};
      StaleExists(byHash, rest);
      var without := Restrict(byHash, rest);
      var pick: Option<IndexRow> :| IsEarliestStale(without, pick);
      var better := if byHash[h].version < CURRENT_SCHEMA && (pick.None? || byHash[h].height < pick.value.height)
                    then Some(byHash[h]) else pick;
      assert forall x :: x in view ==> x == h || x in without;
      assert IsEarliestStale(view, better);
    }
  }

  /** Whatever the highest row, there is a lowest stale one. */
  lemma StaleFor(d: DiskState, top: Row) returns (stale: Option<IndexRow>)
    ensures IsEarliestStale(LoadIndex(DoAll(d, Locate(d, top).acts).index), stale)
  {
    var index := DoAll(d, Locate(d, top).acts).index;
    var byHash := LoadIndex(index);
    LoadIndexKeys(index);
    StaleExists(byHash, byHash.Keys);
    assert Restrict(byHash, byHash.Keys) == byHash;
    stale :| IsEarliestStale(byHash, stale);
  }

  /** Some choice of the scans is always possible. */
  lemma PicksExist(d: DiskState) returns (picks: Picks)
    ensures ValidPicks(picks, d)
  {
    var rows := FoundRows(d.parts.blocks);
    var top := Row("", 0, "", 0, None);
    if rows != [] {
      top := TopRow(rows);
    }
    var stale := StaleFor(d, top);
    picks := Picks(top, stale);
  }

  lemma {:induction false} TopRow(rows: seq<Row>) returns (top: Row)
    requires rows != []
    ensures IsTop(rows, top)
    decreases |rows|
  {
    top := rows[0];
    if |rows| > 1 {
      var rest := TopRow(rows[1..]);
      assert rows == [rows[0]] + rows[1..];
      if rest.height > top.height {
        top := rest;
      }
    }
  }

  // --- The preparation -----------------------------------------------------

  lemma EnterAfter(cfg: Config, node: Node, stale: Option<IndexRow>, p: Prep)
    requires p.Ready?
    ensures Enter(cfg, node, stale, p) == Prefix(p.acts, Enter(cfg, node, stale, Ready([], p.flags, p.at)))
  {
    var from := Rewind(p.at, stale);
    var save, flush := SavePointer(from), FlushFlags(p.flags);
    assert p.acts + ([] + save + flush) == p.acts + save + flush;
    assert p.acts + [] == p.acts;
  }

  /** latest.csv plays no part in finding the position. */
  lemma LatestIsIrrelevant(d: DiskState, latest: Pointer, top: Row)
    ensures var e := DoAll(d, [LatestReplace(latest)]);
            && e == d.(latest := Some(latest)) && Locate(e, top) == Locate(d, top)
            && DoAll(d, [LatestReplace(latest)] + Locate(d, top).acts).index == DoAll(d, Locate(d, top).acts).index
  {
    DoOne(d, LatestReplace(latest));
    DoAppend(d, [LatestReplace(latest)], Locate(d, top).acts);
    var e := DoAll(d, [LatestReplace(latest)]);
    if Locate(d, top).acts != [] {
      var a := Locate(d, top).acts[0];
      assert Locate(d, top).acts == [a];
      DoOne(d, a);
      DoOne(e, a);
    }
  }

  // --- The loop ------------------------------------------------------------

  /** A block is served at its own height, and a hash identifies a block. */
  ghost predicate Faithful(node: Node) {
    && (forall i: nat :: node.ok(Fetch(i)) ==> node.served(i).height == i)
    && (forall i: nat, j: nat ::
          node.ok(Fetch(i)) && node.ok(Fetch(j)) && node.served(i).hash == node.served(j).hash ==>
          node.served(i) == node.served(j))
  }

  lemma StableIsFaithful(t: Tree, node: Node)
    requires Stable(t, node)
    ensures Faithful(node)
  {
    forall i: nat | node.ok(Fetch(i))
      ensures i < |node.chain| && node.served(i) == node.chain[i] && InTree(t, node.chain[i])
      ensures node.chain[i].height == i
    {
    }
  }

  ghost predicate ServedBelow(node: Node, b: Block, h: nat) {
    exists j: nat :: j < h && node.ok(Fetch(j)) && b == node.served(j)
  }

  /** The staged blocks were served at heights below `h`. */
  ghost predicate StagedBelow(node: Node, batch: seq<Staged>, h: nat) {
    forall i :: 0 <= i < |batch| ==> ServedBelow(node, batch[i].block, h)
  }

  lemma ServedOnce(node: Node, batch: seq<Staged>, h: nat)
    requires Faithful(node) && StagedBelow(node, batch, h) && node.ok(Fetch(h))
    ensures !HasStaged(IndexRows(batch), node.served(h).hash) && node.served(h).height == h
  {
    forall i | 0 <= i < |batch|
      ensures IndexRows(batch)[i].hash != node.served(h).hash
    {
      assert ServedBelow(node, batch[i].block, h);
      var j: nat :| j < h && node.ok(Fetch(j)) && batch[i].block == node.served(j);
    }
  }

  lemma VisitStages(node: Node, w: Walk, h: nat)
    requires StagedBelow(node, w.batch, h) && node.ok(Fetch(h))
    ensures StagedBelow(node, Visit(w, node.served(h)).batch, h + 1) && StagedBelow(node, [], h + 1)
  {
    var next := Visit(w, node.served(h)).batch;
    hide NeedsExport, SetCanonicalIfPresent, LoadIndex;
    forall i | 0 <= i < |next|
      ensures ServedBelow(node, next[i].block, h + 1)
    {
      if i < |w.batch| {
        assert next[i] == w.batch[i] && ServedBelow(node, w.batch[i].block, h);
        var j: nat :| j < h && node.ok(Fetch(j)) && w.batch[i].block == node.served(j);
        assert j < h + 1 && node.ok(Fetch(j)) && next[i].block == node.served(j);
      } else {
        assert h < h + 1 && node.ok(Fetch(h)) && next[i].block == node.served(h);
      }
    }
  }

  lemma VisitMoves(w: Walk, b: Block)
    ensures var v := Visit(w, b);
            v.at == Cursor(b.height, Some(b.hash)) && v.prevTime == Some(b.time) && v.processed == w.processed + 1
  {
  }

  lemma VisitNothing(cfg: Config, mode: PF.Mode, w: Walk)
    ensures VisitAll(cfg, mode, w, []) == w
  {
  }

  lemma CheckpointKeeps(cfg: Config, mode: PF.Mode, w: Walk)
    ensures var v := Checkpoint(cfg, mode, w);
            && v.acts == w.acts + CheckpointActs(cfg, mode, w)
            && v == w.(d := v.d, acts := v.acts, flags := v.flags, batch := [])
  {
  }

  lemma VisitOneMore(cfg: Config, mode: PF.Mode, w: Walk, blocks: seq<Block>, b: Block)
    ensures VisitAll(cfg, mode, w, blocks + [b]) == VisitAndCheckpoint(cfg, mode, VisitAll(cfg, mode, w, blocks), b)
  {
    assert (blocks + [b])[..|blocks|] == blocks;
  }

  /** What the loop still has to visit, after `blocks`. */
  ghost predicate Remaining(all: Visits, blocks: seq<Block>, rest: Visits) {
    all == Visits(blocks + rest.blocks, rest.ending)
  }

  /** What is left once the next height is visited. */
  lemma RemainingStep(node: Node, stopAt: nat, end: int, latest: int, h: nat, last: Option<Hash>, all: Visits,
                      blocks: seq<Block>)
    requires Remaining(all, blocks, VisitsFrom(node, stopAt, end, latest, h, last))
    requires h <= latest && h < stopAt && node.ok(Fetch(h))
    requires h > end || last.None? || node.served(h).prev == last.value
    ensures var b := node.served(h);
            Remaining(all, blocks + [b], VisitsFrom(node, stopAt, end, latest, h + 1, Some(b.hash)))
  {
    var b := node.served(h);
    var rest := VisitsFrom(node, stopAt, end, latest, h + 1, Some(b.hash));
    assert blocks + ([b] + rest.blocks) == blocks + [b] + rest.blocks;
  }

  /** How the loop ends at height `h`, if it does. */
  function EndsAt(node: Node, stopAt: nat, end: int, latest: int, h: nat, last: Option<Hash>): Option<Ending> {
    if h > latest then Some(Done)
    else if h >= stopAt then Some(Stopped)
    else if !node.ok(Fetch(h)) then Some(Failed)
    else if h <= end && last.Some? && node.served(h).prev != last.value then Some(Mismatch)
    else None
  }

  lemma NothingRemains(node: Node, stopAt: nat, end: int, latest: int, h: nat, last: Option<Hash>, all: Visits,
                       blocks: seq<Block>)
    requires Remaining(all, blocks, VisitsFrom(node, stopAt, end, latest, h, last))
    requires EndsAt(node, stopAt, end, latest, h, last).Some?
    ensures all == Visits(blocks, EndsAt(node, stopAt, end, latest, h, last).value)
  {
    assert blocks + [] == blocks;
  }

  /** The loop is at height `h`, having visited `visited` of `all`. */
  ghost predicate LoopAt(cfg: Config, mode: PF.Mode, node: Node, stopAt: nat, end: int, latest: int, w0: Walk,
                         all: Visits, visited: seq<Block>, h: nat, w: Walk) {
    && w == VisitAll(cfg, mode, w0, visited)
    && Remaining(all, visited, VisitsFrom(node, stopAt, end, latest, h, w.at.hash))
    && StagedBelow(node, w.batch, h)
    && w.at.height == h - 1
    && (w.batch == [] || (w.at.hash.Some? && w.at.height >= 0))
  }

  lemma LoopBegins(cfg: Config, mode: PF.Mode, node: Node, stopAt: nat, end: int, latest: int, w: Walk)
    requires w.batch == []
    ensures LoopAt(cfg, mode, node, stopAt, end, latest, w,
                   VisitsFrom(node, stopAt, end, latest, w.at.height + 1, w.at.hash),
                   [], w.at.height + 1, w)
  {
    VisitNothing(cfg, mode, w);
  }

  /** The block served next was not staged before. */
  lemma LoopServes(cfg: Config, mode: PF.Mode, node: Node, stopAt: nat, end: int, latest: int, w0: Walk, all: Visits,
                   visited: seq<Block>, h: nat, w: Walk)
    requires Faithful(node) && LoopAt(cfg, mode, node, stopAt, end, latest, w0, all, visited, h, w) && node.ok(Fetch(h))
    ensures !HasStaged(IndexRows(w.batch), node.served(h).hash) && node.served(h).height == h
  {
    hide Faithful, StagedBelow;
    ServedOnce(node, w.batch, h);
  }

  lemma LoopGoesOn(cfg: Config, mode: PF.Mode, node: Node, stopAt: nat, end: int, latest: int, w0: Walk, all: Visits,
                   visited: seq<Block>, h: nat, w: Walk, v: Walk)
    requires LoopAt(cfg, mode, node, stopAt, end, latest, w0, all, visited, h, w)
    requires EndsAt(node, stopAt, end, latest, h, w.at.hash).None? && node.served(h).height == h
    requires v == VisitAndCheckpoint(cfg, mode, w, node.served(h))
    requires v.batch == [] || v.batch == Visit(w, node.served(h)).batch
    requires v.at == Cursor(h, Some(node.served(h).hash))
    ensures LoopAt(cfg, mode, node, stopAt, end, latest, w0, all, visited + [node.served(h)], h + 1, v)
  {
    hide StagedBelow, VisitAll, VisitAndCheckpoint, Visit, VisitsFrom, Remaining;
    VisitStages(node, w, h);
    VisitOneMore(cfg, mode, w0, visited, node.served(h));
    RemainingStep(node, stopAt, end, latest, h, w.at.hash, all, visited);
  }

  lemma LoopEnds(cfg: Config, mode: PF.Mode, node: Node, stopAt: nat, end: int, latest: int, w0: Walk, all: Visits,
                 visited: seq<Block>, h: nat, w: Walk)
    requires LoopAt(cfg, mode, node, stopAt, end, latest, w0, all, visited, h, w)
    requires EndsAt(node, stopAt, end, latest, h, w.at.hash).Some?
    ensures w == VisitAll(cfg, mode, w0, all.blocks)
    ensures all.ending == EndsAt(node, stopAt, end, latest, h, w.at.hash).value
    ensures w.batch == [] || (w.at.hash.Some? && w.at.height >= 0)
  {
    NothingRemains(node, stopAt, end, latest, h, w.at.hash, all, visited);
  }

  /** As long as there is no stored position, nothing was drained. */
  ghost predicate Untouched(d: DiskState, e: DiskState) {
    e.current.None? ==> d.current.None? && e.parts == d.parts && e.index == d.index
  }

  lemma UntouchedSelf(d: DiskState)
    ensures Untouched(d, d)
  {
  }

  lemma CheckpointUntouched(cfg: Config, mode: PF.Mode, d: DiskState, w: Walk)
    requires Untouched(d, w.d)
    requires w.batch == [] || (w.at.hash.Some? && w.at.height >= 0)
    ensures Untouched(d, Checkpoint(cfg, mode, w).d)
  {
    PassFacts.CheckpointFacts(cfg, mode, w);
    var e := DoAll(w.d, CheckpointActs(cfg, mode, w));
    assert PassFacts.Checkpointed(w, e);
    if e.current.None? {
      assert IndexRows(w.batch) == [];
    }
  }
}
