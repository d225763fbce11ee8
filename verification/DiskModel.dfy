/** Everything rpc-ingest keeps on disk, and the single durable steps by which
    it changes. */
module DiskModel {
  import opened Basics
  import opened Chain
  import opened IndexFile
  import PF = PartFiles

  /** One value for each logical CSV. */
  datatype Quad<T> = Quad(blocks: T, transactions: T, inputs: T, outputs: T) {
    function At(k: Kind): T {
      match k
      case Blocks => blocks
      case Transactions => transactions
      case Inputs => inputs
      case Outputs => outputs
    }

    function With(k: Kind, v: T): (q: Quad<T>)
      ensures q.At(k) == v
      ensures forall j :: j != k ==> q.At(j) == At(j)
    {
      match k
      case Blocks => this.(blocks := v)
      case Transactions => this.(transactions := v)
      case Inputs => this.(inputs := v)
      case Outputs => this.(outputs := v)
    }
  }

  datatype Pointer = Pointer(height: nat, hash: Hash)

  datatype ReorgLog = ReorgLog(lowest: nat, highest: nat, detached: seq<Pointer>, attached: seq<Pointer>)

  datatype DiskState = DiskState(
    parts: Quad<PF.Files>,
    index: seq<IndexRow>,
    status: Status,
    current: Option<Pointer>,
    latest: Option<Pointer>,
    reorgs: seq<ReorgLog>)

  const EMPTY_DISK :=
    DiskState(Quad(PF.EMPTY_FILES, PF.EMPTY_FILES, PF.EMPTY_FILES, PF.EMPTY_FILES), [], map[], None, None, [])

  datatype Action =
    | OnPart(kind: Kind, act: PF.PartAction)
    | IndexAppend(rows: seq<IndexRow>)
    | StatusReplace(status: Status)
    | CurrentReplace(pointer: Pointer)
    | LatestReplace(pointer: Pointer)
    | ReorgLogWrite(log: ReorgLog)

  function Do(d: DiskState, a: Action): DiskState {
    match a
    case OnPart(k, act) => d.(parts := d.parts.With(k, PF.Apply(d.parts.At(k), act)))
    case IndexAppend(rows) => d.(index := d.index + rows)
    case StatusReplace(s) => d.(status := s)
    case CurrentReplace(p) => d.(current := Some(p))
    case LatestReplace(p) => d.(latest := Some(p))
    case ReorgLogWrite(log) => d.(reorgs := d.reorgs + [log])
  }

  function DoAll(d: DiskState, acts: seq<Action>): DiskState
    decreases |acts|
  {
    if acts == [] then d else Do(DoAll(d, acts[..|acts| - 1]), acts[|acts| - 1])
  }

  lemma DoOne(d: DiskState, a: Action)
    ensures DoAll(d, [a]) == Do(d, a)
  {
    assert DoAll(d, [a][..0]) == d;
  }

  lemma {:induction false} DoAppend(d: DiskState, xs: seq<Action>, ys: seq<Action>)
    ensures DoAll(d, xs + ys) == DoAll(DoAll(d, xs), ys)
    decreases |ys|
  {
    if ys == [] {
      assert xs + ys == xs;
    } else {
      var n := |xs + ys| - 1;
      assert (xs + ys)[..n] == xs + ys[..|ys| - 1] && (xs + ys)[n] == ys[|ys| - 1];
      DoAppend(d, xs, ys[..|ys| - 1]);
    }
  }

  /** The actions of one PartSequencer, on the whole disk. */
  function Tag(k: Kind, acts: seq<PF.PartAction>): (tagged: seq<Action>)
    ensures |tagged| == |acts|
    ensures forall i :: 0 <= i < |acts| ==> tagged[i] == OnPart(k, acts[i])
  {
    seq(|acts|, i requires 0 <= i < |acts| => OnPart(k, acts[i]))
  }

  lemma {:induction false} DoTagged(d: DiskState, k: Kind, acts: seq<PF.PartAction>)
    ensures DoAll(d, Tag(k, acts)) == d.(parts := d.parts.With(k, PF.ApplyAll(d.parts.At(k), acts)))
    decreases |acts|
  {
    if acts == [] {
      assert d.parts.With(k, d.parts.At(k)) == d.parts;
    } else {
      var n := |acts| - 1;
      DoTagged(d, k, acts[..n]);
      assert Tag(k, acts)[..n] == Tag(k, acts[..n]);
    }
  }

  /** A kill is allowed between any two durable steps, except between the
      rename and the counter write of a hand-off. */
  predicate SafeKill(acts: seq<Action>, cut: nat) {
    cut <= |acts| && (cut > 0 ==> !(acts[cut - 1].OnPart? && acts[cut - 1].act.HandOff?))
  }
}
