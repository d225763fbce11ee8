/** Reorg recovery is exact: when it succeeds, which ancestor it finds and
    which blocks it detaches. */
module Recovery {
  import opened Chain
  import opened IndexFile
  import opened DiskModel
  import opened Pass

  /** The block `n` generations below `x`. */
  function AncestorAt(t: Tree, x: Hash, n: nat): Hash
    requires WellFormedTree(t) && x in t && n <= t[x].height
    decreases n
  {
    if n == 0 then x else AncestorAt(t, t[x].prev, n - 1)
  }

  lemma Parent(t: Tree, x: Hash)
    requires WellFormedTree(t) && x in t
    ensures t[x].height == 0 <==> t[x].prev == NO_HASH
    ensures t[x].height > 0 ==> t[x].prev in t && t[t[x].prev].height == t[x].height - 1
  {
  }

  lemma {:induction false} AncestorAtHeight(t: Tree, x: Hash, n: nat)
    requires WellFormedTree(t) && x in t && n <= t[x].height
    ensures AncestorAt(t, x, n) in t && t[AncestorAt(t, x, n)].height == t[x].height - n
    ensures AncestorOrSelf(t, AncestorAt(t, x, n), x)
    decreases n
  {
    hide WellFormedTree;
    Parent(t, x);
    if n > 0 {
      AncestorAtHeight(t, t[x].prev, n - 1);
    }
  }

  lemma {:induction false} AncestorIsAt(t: Tree, x: Hash, y: Hash)
    requires WellFormedTree(t) && AncestorOrSelf(t, x, y)
    ensures x in t && t[x].height <= t[y].height && x == AncestorAt(t, y, t[y].height - t[x].height)
    decreases t[y].height
  {
    hide WellFormedTree;
    Parent(t, y);
    AncestorHeight(t, x, y);
    if x != y {
      AncestorIsAt(t, x, t[y].prev);
    }
  }

  /** Every row agrees with the block it indexes. */
  ghost predicate IndexAgrees(t: Tree, idx: ByHash) {
    forall h {:trigger idx[h]} :: h in idx ==> h in t && idx[h].height == t[h].height && idx[h].prev == t[h].prev
  }

  /** `n` blocks above the fork: the `n`-th ancestor is on the active chain, the
      ones before it are not, and all of these are indexed. */
  ghost predicate ForkAfter(t: Tree, idx: ByHash, chain: seq<Block>, x: Hash, n: nat)
    requires WellFormedTree(t) && x in t && t[x].height < |chain|
  {
    && 1 <= n <= t[x].height
    && AncestorAt(t, x, n) == chain[t[x].height - n].hash
    && (forall m :: 0 < m < n ==> AncestorAt(t, x, m) != chain[t[x].height - m].hash)
    && (forall m :: 0 <= m < n ==> AncestorAt(t, x, m) in idx)
  }

  ghost predicate WalkAnswered(node: Node) {
    forall h :: node.ok(AncestorHash(h))
  }

  lemma ForkStep(t: Tree, idx: ByHash, chain: seq<Block>, x: Hash, n: nat)
    requires WellFormedTree(t) && x in t && 0 < t[x].height < |chain| && x in idx
    requires t[x].prev != chain[t[x].height - 1].hash
    ensures t[x].prev in t && t[t[x].prev].height < |chain|
    ensures n >= 1 ==> (ForkAfter(t, idx, chain, t[x].prev, n) <==> ForkAfter(t, idx, chain, x, n + 1))
    ensures !ForkAfter(t, idx, chain, x, 1)
  {
    hide WellFormedTree;
    Parent(t, x);
    var prev := t[x].prev;
    assert AncestorAt(t, x, 1) == AncestorAt(t, prev, 0) == prev;
    assert forall m :: 1 <= m <= t[x].height ==> AncestorAt(t, x, m) == AncestorAt(t, prev, m - 1);
    if n >= 1 && n < t[x].height {
      if ForkAfter(t, idx, chain, x, n + 1) {
        forall m | 0 < m < n
          ensures AncestorAt(t, prev, m) != chain[t[prev].height - m].hash
        {
          assert AncestorAt(t, x, m + 1) != chain[t[x].height - (m + 1)].hash;
        }
        forall m | 0 <= m < n
          ensures AncestorAt(t, prev, m) in idx
        {
          assert AncestorAt(t, x, m + 1) in idx;
        }
      }
    }
  }

  /** The fork is at most `k` blocks below `x`, all blocks above it indexed. */
  ghost predicate ForkWithin(t: Tree, idx: ByHash, chain: seq<Block>, x: Hash, k: int)
    requires WellFormedTree(t) && x in t && t[x].height < |chain|
  {
    exists n: nat :: ForkAfter(t, idx, chain, x, n) && n <= k
  }

  lemma ForkWithinStep(t: Tree, idx: ByHash, chain: seq<Block>, x: Hash, k: int)
    requires WellFormedTree(t) && x in t && 0 < t[x].height < |chain| && x in idx
    requires t[x].prev != chain[t[x].height - 1].hash
    ensures t[x].prev in t && t[t[x].prev].height < |chain|
    ensures ForkWithin(t, idx, chain, x, k) <==> ForkWithin(t, idx, chain, t[x].prev, k - 1)
  {
    ForkStep(t, idx, chain, x, 0);
    if ForkWithin(t, idx, chain, x, k) {
      var n: nat :| ForkAfter(t, idx, chain, x, n) && n <= k;
      assert n != 1;
      ForkStep(t, idx, chain, x, n - 1);
      assert ForkAfter(t, idx, chain, t[x].prev, n - 1);
    }
    if ForkWithin(t, idx, chain, t[x].prev, k - 1) {
      var n: nat :| ForkAfter(t, idx, chain, t[x].prev, n) && n <= k - 1;
      ForkStep(t, idx, chain, x, n);
      assert ForkAfter(t, idx, chain, x, n + 1);
    }
  }

  /** `detached` is the path from `at` down to just above the fork. */
  ghost predicate Detaches(t: Tree, idx: ByHash, chain: seq<Block>, at: Pointer, detached: seq<Pointer>, anc: Pointer)
    requires WellFormedTree(t) && at.hash in t && t[at.hash].height == at.height < |chain|
  {
    var n := |detached|;
    && ForkAfter(t, idx, chain, at.hash, n)
    && anc == Pointer(at.height - n, AncestorAt(t, at.hash, n))
    && forall m :: 0 <= m < n ==> detached[m] == Pointer(at.height - m, AncestorAt(t, at.hash, m))
  }

  lemma DetachesStep(t: Tree, idx: ByHash, chain: seq<Block>, at: Pointer, rest: seq<Pointer>, anc: Pointer)
    requires WellFormedTree(t) && at.hash in t && 0 < t[at.hash].height == at.height < |chain| && at.hash in idx
    requires t[at.hash].prev != chain[at.height - 1].hash
    requires t[at.hash].prev in t && t[t[at.hash].prev].height == at.height - 1
    requires Detaches(t, idx, chain, Pointer(at.height - 1, t[at.hash].prev), rest, anc)
    ensures Detaches(t, idx, chain, at, [at] + rest, anc)
  {
    var prev := t[at.hash].prev;
    var n := |rest|;
    ForkStep(t, idx, chain, at.hash, n);
    assert forall m :: 1 <= m <= at.height ==> AncestorAt(t, at.hash, m) == AncestorAt(t, prev, m - 1);
  }

  lemma DetachesOne(t: Tree, idx: ByHash, chain: seq<Block>, at: Pointer)
    requires WellFormedTree(t) && at.hash in t && 0 < t[at.hash].height == at.height < |chain| && at.hash in idx
    requires t[at.hash].prev == chain[at.height - 1].hash
    ensures Detaches(t, idx, chain, at, [at], Pointer(at.height - 1, t[at.hash].prev))
  {
    assert AncestorAt(t, at.hash, 1) == AncestorAt(t, t[at.hash].prev, 0);
  }

  /** A walk that succeeds returns the fork and has detached exactly the blocks
      above it, from the position down. */
  lemma {:induction false} WalkBackDetaches(t: Tree, idx: ByHash, node: Node, maxDepth: nat, at: Pointer,
                                            seen: seq<Pointer>)
    requires WellFormedTree(t) && IndexAgrees(t, idx)
    requires at.hash in t && t[at.hash].height == at.height < |node.chain|
    ensures var r := WalkBackFrom(idx, node, maxDepth, at, seen);
            r.Ancestor? ==> seen <= r.detached && Detaches(t, idx, node.chain, at, r.detached[|seen|..], r.at)
    decreases at.height
  {
    hide WellFormedTree, ForkAfter, Detaches;
    var detached := seen + [at];
    var r := WalkBackFrom(idx, node, maxDepth, at, seen);
    Parent(t, at.hash);
    if r.Ancestor? {
      var prev := t[at.hash].prev;
      if node.chain[at.height - 1].hash == prev {
        assert r.detached[|seen|..] == [at];
        DetachesOne(t, idx, node.chain, at);
      } else {
        WalkBackDetaches(t, idx, node, maxDepth, Pointer(at.height - 1, prev), detached);
        var rest := r.detached[|detached|..];
        DetachesStep(t, idx, node.chain, at, rest, r.at);
        assert r.detached[|seen|] == detached[|seen|];
        assert r.detached[|seen|..] == [at] + rest;
      }
    }
  }

  /** Against a node that answers, the walk succeeds if and only if the fork is
      at most `maxDepth` blocks (counting those already seen) below the position
      and every block above it is indexed. */
  lemma {:induction false} WalkBackIsExact(t: Tree, idx: ByHash, node: Node, maxDepth: nat, at: Pointer,
                                           seen: seq<Pointer>)
    requires WellFormedTree(t) && IndexAgrees(t, idx) && WalkAnswered(node)
    requires at.hash in t && t[at.hash].height == at.height < |node.chain|
    ensures WalkBackFrom(idx, node, maxDepth, at, seen).Ancestor? <==>
            ForkWithin(t, idx, node.chain, at.hash, maxDepth - |seen|)
    decreases at.height
  {
    var chain := node.chain;
    var detached := seen + [at];
    if |detached| > maxDepth || at.hash !in idx || at.height == 0 {
      forall n: nat | ForkAfter(t, idx, chain, at.hash, n)
        ensures n > maxDepth - |seen|
      {
        assert AncestorAt(t, at.hash, 0) in idx;
      }
    } else {
      var prev := t[at.hash].prev;
      if chain[at.height - 1].hash == prev {
        assert AncestorAt(t, at.hash, 1) == AncestorAt(t, prev, 0);
        assert ForkAfter(t, idx, chain, at.hash, 1);
      } else {
        WalkBackIsExact(t, idx, node, maxDepth, Pointer(at.height - 1, prev), detached);
        ForkWithinStep(t, idx, chain, at.hash, maxDepth - |seen|);
      }
    }
  }

  /** Recovery flags exactly the detached blocks non-canonical. */
  lemma {:induction false} FlagDetachedIsExact(f: Flags, detached: seq<Pointer>)
    ensures var g := FlagDetached(f, detached);
            forall h, x :: Canonical(g.entries, h, x) <==> Canonical(f.entries, h, x) && Pointer(h, x) !in detached
    decreases |detached|
  {
    if detached != [] {
      var n := |detached| - 1;
      FlagDetachedIsExact(SetCanonical(f, detached[n].height, detached[n].hash, false), detached[..n]);
    }
  }

  lemma {:induction false} UndirtiedFlags(f: Flags, detached: seq<Pointer>)
    ensures !FlagDetached(f, detached).dirty ==> FlagDetached(f, detached) == f
    decreases |detached|
  {
    if detached != [] {
      var n := |detached| - 1;
      UndirtiedFlags(SetCanonical(f, detached[n].height, detached[n].hash, false), detached[..n]);
    }
  }

  /** The detached blocks are the ancestors of the old position that are no
      ancestors of the fork. */
  lemma DetachedAreAboveFork(t: Tree, idx: ByHash, chain: seq<Block>, at: Pointer, detached: seq<Pointer>,
                             anc: Pointer, x: Hash)
    requires WellFormedTree(t) && at.hash in t && t[at.hash].height == at.height < |chain|
    requires Detaches(t, idx, chain, at, detached, anc) && x in t
    ensures AncestorOrSelf(t, anc.hash, at.hash)
    ensures Pointer(t[x].height, x) in detached <==> AncestorOrSelf(t, x, at.hash) && !AncestorOrSelf(t, x, anc.hash)
  {
    hide WellFormedTree, AncestorOrSelf, AncestorAt;
    var n := |detached|;
    AncestorAtHeight(t, at.hash, n);
    if Pointer(t[x].height, x) in detached {
      var m :| 0 <= m < n && detached[m] == Pointer(t[x].height, x);
      AncestorAtHeight(t, at.hash, m);
      if AncestorOrSelf(t, x, anc.hash) {
        AncestorHeight(t, x, anc.hash);
      }
    }
    if AncestorOrSelf(t, x, at.hash) && !AncestorOrSelf(t, x, anc.hash) {
      AncestorIsAt(t, x, at.hash);
      var m := at.height - t[x].height;
      if m >= n {
        AncestorsAreLinear(t, x, anc.hash, at.hash);
      }
      assert detached[m] == Pointer(at.height - m, AncestorAt(t, at.hash, m));
    }
  }
}
