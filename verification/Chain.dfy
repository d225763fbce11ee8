/** Blocks, the rows a block is exported as, and the chain a node serves.

    A block is identified by its hash.  `Tree` collects every block any node
    may ever serve: one block per hash, each with its parent.  An active chain
    is a path of that tree that starts at height 0. */
module Chain {
  import opened Basics

  type Hash = string

  const NO_HASH: Hash := ""

  /** What ParsedBlock carries; the three counters are the number of rows of
      the transactions, inputs and outputs frames. */
  datatype Block = Block(height: nat, hash: Hash, prev: Hash, time: int, txs: nat, ins: nat, outs: nat)

  /** The four logical CSVs, in the order in which a drain writes them. */
  datatype Kind = Blocks | Transactions | Inputs | Outputs

  /** One exported row.  `sincePrev` is time_since_prev_block_sec, which only
      the blocks row has. */
  datatype Row = Row(block: Hash, height: nat, prev: Hash, index: nat, sincePrev: Option<int>)

  function RowCount(b: Block, k: Kind): nat {
    match k
    case Blocks => 1
    case Transactions => b.txs
    case Inputs => b.ins
    case Outputs => b.outs
  }

  function RowsOf(b: Block, sincePrev: Option<int>, k: Kind): (rows: seq<Row>)
    ensures |rows| == RowCount(b, k)
    ensures forall i :: 0 <= i < |rows| ==> rows[i].block == b.hash && rows[i].index == i
  {
    seq(RowCount(b, k), i requires 0 <= i => Row(b.hash, b.height, b.prev, i, if k.Blocks? then sincePrev else None))
  }

  type Tree = map<Hash, Block>

  ghost predicate WellFormedTree(t: Tree) {
    && (forall h {:trigger t[h]} :: h in t ==> t[h].hash == h && h != NO_HASH)
    && (forall h {:trigger t[h].prev} :: h in t ==>
          && (t[h].height == 0 <==> t[h].prev == NO_HASH)
          && (t[h].height > 0 ==> t[h].prev in t && t[t[h].prev].height == t[h].height - 1))
  }

  ghost predicate InTree(t: Tree, b: Block) {
    b.hash in t && t[b.hash] == b
  }

  /** `chain[h]` is the block at height `h`; consecutive blocks are hash-linked. */
  ghost predicate ActiveChain(t: Tree, chain: seq<Block>) {
    && |chain| > 0
    && (forall i :: 0 <= i < |chain| ==> InTree(t, chain[i]) && chain[i].height == i)
    && (forall i :: 0 < i < |chain| ==> chain[i].prev == chain[i - 1].hash)
  }

  ghost predicate DistinctBlocks(blocks: seq<Block>) {
    forall i, j :: 0 <= i < j < |blocks| ==> blocks[i].hash != blocks[j].hash
  }

  /** `x` is `y` or one of its ancestors. */
  ghost predicate AncestorOrSelf(t: Tree, x: Hash, y: Hash)
    requires WellFormedTree(t)
    decreases if y in t then t[y].height else 0
  {
    y in t && (x == y || (t[y].height > 0 && AncestorOrSelf(t, x, t[y].prev)))
  }

  lemma {:induction false} AncestorHeight(t: Tree, x: Hash, y: Hash)
    requires WellFormedTree(t) && AncestorOrSelf(t, x, y)
    ensures x in t && t[x].height <= t[y].height
    ensures t[x].height == t[y].height ==> x == y
    decreases t[y].height
  {
    if x != y {
      AncestorHeight(t, x, t[y].prev);
    }
  }

  lemma {:induction false} AncestorTransitive(t: Tree, x: Hash, y: Hash, z: Hash)
    requires WellFormedTree(t) && AncestorOrSelf(t, x, y) && AncestorOrSelf(t, y, z)
    ensures AncestorOrSelf(t, x, z)
    decreases t[z].height
  {
    if y != z {
      AncestorTransitive(t, x, y, t[z].prev);
    }
  }

  /** Two ancestors of one block lie on one path. */
  lemma {:induction false} AncestorsAreLinear(t: Tree, x: Hash, y: Hash, z: Hash)
    requires WellFormedTree(t) && AncestorOrSelf(t, x, z) && AncestorOrSelf(t, y, z)
    requires x in t && y in t && t[x].height <= t[y].height
    ensures AncestorOrSelf(t, x, y)
    decreases t[z].height
  {
    if y != z {
      AncestorHeight(t, y, t[z].prev);
      if x == z {
        AncestorHeight(t, y, z);
        assert false;
      }
      AncestorsAreLinear(t, x, y, t[z].prev);
    }
  }

  /** On an active chain the ancestors of the block at height `j` are exactly
      the blocks at and below it. */
  lemma {:induction false} ChainAncestors(t: Tree, chain: seq<Block>, x: Hash, j: nat)
    requires WellFormedTree(t) && ActiveChain(t, chain) && j < |chain|
    ensures AncestorOrSelf(t, x, chain[j].hash) <==> exists i :: 0 <= i <= j && chain[i].hash == x
    decreases j
  {
    if j > 0 {
      ChainAncestors(t, chain, x, j - 1);
    }
  }
}
