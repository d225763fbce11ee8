/** Aggregation of a block: the totals of the block row and of the transaction
    rows against the exported input and output rows. */
module BlockParser {
  import opened Basics

  // --- Sums ------------------------------------------------------------------

  function Sum<T>(xs: seq<T>, f: T -> int): int
    decreases |xs|
  {
    if xs == [] then 0 else Sum(xs[..|xs| - 1], f) + f(xs[|xs| - 1])
  }

  lemma SumOneMore<T>(xs: seq<T>, x: T, f: T -> int)
    ensures Sum(xs + [x], f) == Sum(xs, f) + f(x)
  {
    assert (xs + [x])[..|xs|] == xs;
  }

  lemma {:induction false} SumConcat<T>(xs: seq<T>, ys: seq<T>, f: T -> int)
    ensures Sum(xs + ys, f) == Sum(xs, f) + Sum(ys, f)
    decreases |ys|
  {
    if ys == [] {
      assert xs + ys == xs;
    } else {
      var n := |ys| - 1;
      assert (xs + ys)[..|xs + ys| - 1] == xs + ys[..n];
      SumConcat(xs, ys[..n], f);
    }
  }

  // --- The decoded block -------------------------------------------------------

  datatype ScriptType = Nonstandard | Pubkey | PubkeyHash | ScriptHash | Multisig | NullData | WitnessV0KeyHash
                      | WitnessV0ScriptHash | WitnessV1Taproot | WitnessUnknown | Anchor | Other

  const SCRIPT_TYPES: seq<ScriptType> :=
    [Nonstandard, Pubkey, PubkeyHash, ScriptHash, Multisig, NullData, WitnessV0KeyHash, WitnessV0ScriptHash,
     WitnessV1Taproot, WitnessUnknown, Anchor, Other]

  /** Unknown and missing types count as Other. */
  function NormalizedScriptType(name: Option<string>): ScriptType {
    match name
    case None => Other
    case Some(n) =>
      if n == "nonstandard" then Nonstandard
      else if n == "pubkey" then Pubkey
      else if n == "pubkeyhash" then PubkeyHash
      else if n == "scripthash" then ScriptHash
      else if n == "multisig" then Multisig
      else if n == "nulldata" then NullData
      else if n == "witness_v0_keyhash" then WitnessV0KeyHash
      else if n == "witness_v0_scripthash" then WitnessV0ScriptHash
      else if n == "witness_v1_taproot" then WitnessV1Taproot
      else if n == "witness_unknown" then WitnessUnknown
      else if n == "anchor" then Anchor
      else Other
  }

  /** Values are in satoshis, scripts and witness items are their lengths. */
  datatype Prevout = Prevout(value: Option<int>, scriptType: Option<string>)

  datatype Vin = Vin(coinbase: Option<string>, prevout: Option<Prevout>, items: seq<nat>, scriptSigBytes: nat)

  datatype Vout = Vout(value: Option<int>, scriptType: Option<string>, scriptBytes: nat)

  datatype Tx = Tx(txid: string, vins: seq<Vin>, vouts: seq<Vout>, fee: Option<int>)

  predicate IsCoinbase(tx: Tx) {
    tx.vins != [] && tx.vins[0].coinbase.Some?
  }

  // --- The exported rows -------------------------------------------------------

  datatype InputRow = InputRow(txIndex: nat, txid: string, isCoinbase: bool, inputIndex: nat, value: Option<int>,
                               prevoutType: Option<ScriptType>, scriptSigBytes: nat, witnessItems: nat,
                               witnessBytes: nat)

  datatype OutputRow = OutputRow(txIndex: nat, txid: string, isCoinbase: bool, outputIndex: nat, value: Option<int>,
                                 scriptType: ScriptType, scriptBytes: nat, isOpReturn: bool)

  datatype FeeSource = FromCoinbase | FromRpc | Derived | Unavailable

  type Counts = map<ScriptType, int>

  datatype TxRow = TxRow(txIndex: nat, isCoinbase: bool, fee: Option<int>, feeSource: FeeSource,
                         inputValue: Option<int>, outputValue: int, vinCount: int, voutCount: int,
                         prevoutsKnown: int, witnessInputs: int, witnessItems: int, witnessBytes: int,
                         scriptSigBytes: int, scriptPubKeyBytes: int, opReturns: int, opReturnBytes: int,
                         vinTypes: Counts, voutTypes: Counts)

  datatype Totals = Totals(vinCount: int, voutCount: int, opReturns: int, opReturnBytes: int, witnessInputs: int,
                           witnessItems: int, witnessBytes: int, scriptSigBytes: int, scriptPubKeyBytes: int)

  datatype Fees = Fees(totalFees: int, feeKnown: int, regularTxs: int, regularInput: int, inputComplete: int,
                       regularOutput: int)

  datatype BlockRow = BlockRow(totals: Totals, fees: Fees, vinTypes: Counts, voutTypes: Counts)

  datatype BlockAggregate = BlockAggregate(row: BlockRow, txs: seq<TxRow>, inputs: seq<InputRow>,
                                           outputs: seq<OutputRow>)

  // What one exported row contributes.

  function Flag(b: bool): int {
    if b then 1 else 0
  }

  function OrZero(v: Option<int>): int {
    if v.Some? then v.value else 0
  }

  function InputsOfType(t: ScriptType): InputRow -> int {
    (r: InputRow) => Flag(r.prevoutType == Some(t))
  }

  function OutputsOfType(t: ScriptType): OutputRow -> int {
    (r: OutputRow) => Flag(r.scriptType == t)
  }

  const IN_VALUE: InputRow -> int := (r: InputRow) => OrZero(r.value)
  const KNOWN_VALUE: InputRow -> int := (r: InputRow) => Flag(r.value.Some?)
  const HAS_WITNESS: InputRow -> int := (r: InputRow) => Flag(r.witnessItems > 0)
  const IN_WITNESS_ITEMS: InputRow -> int := (r: InputRow) => r.witnessItems
  const IN_WITNESS_BYTES: InputRow -> int := (r: InputRow) => r.witnessBytes
  const IN_SCRIPT_BYTES: InputRow -> int := (r: InputRow) => r.scriptSigBytes
  const REGULAR_IN_VALUE: InputRow -> int := (r: InputRow) => if r.isCoinbase then 0 else OrZero(r.value)
  const OUT_VALUE: OutputRow -> int := (r: OutputRow) => OrZero(r.value)
  const OUT_SCRIPT_BYTES: OutputRow -> int := (r: OutputRow) => r.scriptBytes
  const OP_RETURN: OutputRow -> int := (r: OutputRow) => Flag(r.isOpReturn)
  const OP_RETURN_BYTES: OutputRow -> int := (r: OutputRow) => if r.isOpReturn then r.scriptBytes else 0
  const REGULAR_OUT_VALUE: OutputRow -> int := (r: OutputRow) => if r.isCoinbase then 0 else OrZero(r.value)

  // --- One transaction ---------------------------------------------------------

  function InputRowOf(tx: Tx, txIndex: nat, i: nat): InputRow
    requires i < |tx.vins|
  {
    var v := tx.vins[i];
    InputRow(txIndex, tx.txid, IsCoinbase(tx), i,
             if v.prevout.Some? then v.prevout.value.value else None,
             if v.prevout.Some? then Some(NormalizedScriptType(v.prevout.value.scriptType)) else None,
             v.scriptSigBytes, |v.items|, WitnessBytes(v.items))
  }

  function WitnessBytes(items: seq<nat>): nat
    decreases |items|
  {
    if items == [] then 0 else WitnessBytes(items[..|items| - 1]) + items[|items| - 1]
  }

  function OutputRowOf(tx: Tx, txIndex: nat, i: nat): OutputRow
    requires i < |tx.vouts|
  {
    var v := tx.vouts[i];
    var t := NormalizedScriptType(v.scriptType);
    OutputRow(txIndex, tx.txid, IsCoinbase(tx), i, v.value, t, v.scriptBytes, t == NullData)
  }

  ghost predicate InputsAgree(e: TxRow, ins: seq<InputRow>) {
    && e.vinCount == |ins|
    && e.prevoutsKnown == Sum(ins, KNOWN_VALUE)
    && e.witnessInputs == Sum(ins, HAS_WITNESS)
    && e.witnessItems == Sum(ins, IN_WITNESS_ITEMS)
    && e.witnessBytes == Sum(ins, IN_WITNESS_BYTES)
    && e.scriptSigBytes == Sum(ins, IN_SCRIPT_BYTES)
    && forall t :: t in e.vinTypes && e.vinTypes[t] == Sum(ins, InputsOfType(t))
  }

  ghost predicate OutputsAgree(e: TxRow, outs: seq<OutputRow>) {
    && e.voutCount == |outs|
    && e.outputValue == Sum(outs, OUT_VALUE)
    && e.scriptPubKeyBytes == Sum(outs, OUT_SCRIPT_BYTES)
    && e.opReturns == Sum(outs, OP_RETURN)
    && e.opReturnBytes == Sum(outs, OP_RETURN_BYTES)
    && forall t :: t in e.voutTypes && e.voutTypes[t] == Sum(outs, OutputsOfType(t))
  }

  /** Where the fee comes from, and what it is. */
  ghost predicate FeeAgrees(e: TxRow, rpcFee: Option<int>, ins: seq<InputRow>) {
    if e.isCoinbase then e.feeSource == FromCoinbase && e.fee == Some(0) && e.inputValue == None
    else
      && e.inputValue == Some(Sum(ins, IN_VALUE))
      && (if rpcFee.Some? then e.feeSource == FromRpc && e.fee == rpcFee
          else if forall r :: r in ins ==> r.value.Some? then
            e.feeSource == Derived && e.fee == Some(Sum(ins, IN_VALUE) - e.outputValue)
          else e.feeSource == Unavailable && e.fee == None)
  }

  /** A transaction row against the detail rows of the transaction. */
  ghost predicate TxAgrees(e: TxRow, rpcFee: Option<int>, ins: seq<InputRow>, outs: seq<OutputRow>) {
    && InputsAgree(e, ins) && OutputsAgree(e, outs) && FeeAgrees(e, rpcFee, ins)
    && (forall r :: r in ins ==> r.isCoinbase == e.isCoinbase)
    && (forall r :: r in outs ==> r.isCoinbase == e.isCoinbase)
  }

  function InputRows(tx: Tx, txIndex: nat): seq<InputRow> {
    seq(|tx.vins|, i requires 0 <= i < |tx.vins| => InputRowOf(tx, txIndex, i))
  }

  function OutputRows(tx: Tx, txIndex: nat): seq<OutputRow> {
    seq(|tx.vouts|, i requires 0 <= i < |tx.vouts| => OutputRowOf(tx, txIndex, i))
  }

  /** A transaction row for transaction `tx`, the `n`-th of its block. */
  ghost predicate IsRowOf(e: TxRow, tx: Tx, n: nat) {
    e.isCoinbase == IsCoinbase(tx) && TxAgrees(e, tx.fee, InputRows(tx, n), OutputRows(tx, n))
  }

  lemma {:induction false} KnownCount(ins: seq<InputRow>)
    ensures 0 <= Sum(ins, KNOWN_VALUE) <= |ins|
    ensures Sum(ins, KNOWN_VALUE) == |ins| <==> forall r :: r in ins ==> r.value.Some?
    decreases |ins|
  {
    if ins != [] {
      var n := |ins| - 1;
      KnownCount(ins[..n]);
      assert ins == ins[..n] + [ins[n]];
    }
  }

  method NoCounts() returns (counts: Counts)
    ensures forall t: ScriptType :: t in counts && counts[t] == 0
  {
    counts := map[];
    for i := 0 to |SCRIPT_TYPES|
      invariant forall j :: 0 <= j < i ==> SCRIPT_TYPES[j] in counts
      invariant forall t :: t in counts ==> counts[t] == 0
    {
      counts := counts[SCRIPT_TYPES[i] := 0];
    }
    forall t: ScriptType
      ensures t in counts
    {
      AllScriptTypes(t);
      var j :| 0 <= j < |SCRIPT_TYPES| && SCRIPT_TYPES[j] == t;
    }
  }

  lemma AllScriptTypes(t: ScriptType)
    ensures exists j :: 0 <= j < |SCRIPT_TYPES| && SCRIPT_TYPES[j] == t
  {
    assert SCRIPT_TYPES[0] == Nonstandard && SCRIPT_TYPES[1] == Pubkey && SCRIPT_TYPES[2] == PubkeyHash
        && SCRIPT_TYPES[3] == ScriptHash && SCRIPT_TYPES[4] == Multisig && SCRIPT_TYPES[5] == NullData;
    assert SCRIPT_TYPES[6] == WitnessV0KeyHash && SCRIPT_TYPES[7] == WitnessV0ScriptHash
        && SCRIPT_TYPES[8] == WitnessV1Taproot && SCRIPT_TYPES[9] == WitnessUnknown && SCRIPT_TYPES[10] == Anchor
        && SCRIPT_TYPES[11] == Other;
  }

  datatype InputTotals = InputTotals(known: int, value: int, witnessInputs: int, witnessItems: int, witnessBytes: int,
                                     scriptSigBytes: int, types: Counts)

  ghost predicate InputTotalsOf(s: InputTotals, ins: seq<InputRow>) {
    && s.known == Sum(ins, KNOWN_VALUE) && s.value == Sum(ins, IN_VALUE)
    && s.witnessInputs == Sum(ins, HAS_WITNESS) && s.witnessItems == Sum(ins, IN_WITNESS_ITEMS)
    && s.witnessBytes == Sum(ins, IN_WITNESS_BYTES) && s.scriptSigBytes == Sum(ins, IN_SCRIPT_BYTES)
    && forall t :: t in s.types && s.types[t] == Sum(ins, InputsOfType(t))
  }

  lemma InputTotalsOneMore(s: InputTotals, ins: seq<InputRow>, r: InputRow, next: InputTotals)
    requires InputTotalsOf(s, ins)
    requires next == InputTotals(
      s.known + Flag(r.value.Some?), s.value + OrZero(r.value), s.witnessInputs + Flag(r.witnessItems > 0),
      s.witnessItems + r.witnessItems, s.witnessBytes + r.witnessBytes, s.scriptSigBytes + r.scriptSigBytes,
      if r.prevoutType.Some? then s.types[r.prevoutType.value := s.types[r.prevoutType.value] + 1] else s.types)
    ensures InputTotalsOf(next, ins + [r])
  {
    hide Sum;
    SumOneMore(ins, r, KNOWN_VALUE);
    SumOneMore(ins, r, IN_VALUE);
    SumOneMore(ins, r, HAS_WITNESS);
    SumOneMore(ins, r, IN_WITNESS_ITEMS);
    SumOneMore(ins, r, IN_WITNESS_BYTES);
    SumOneMore(ins, r, IN_SCRIPT_BYTES);
    forall t
      ensures t in next.types && next.types[t] == Sum(ins + [r], InputsOfType(t))
    {
      SumOneMore(ins, r, InputsOfType(t));
    }
  }

  /** One pass over the inputs. */
  method AggregateInputs(tx: Tx, txIndex: nat) returns (s: InputTotals, ins: seq<InputRow>)
    ensures ins == seq(|tx.vins|, i requires 0 <= i < |tx.vins| => InputRowOf(tx, txIndex, i))
    ensures InputTotalsOf(s, ins)
  {
    hide InputTotalsOf;
    var types := NoCounts();
    s, ins := InputTotals(0, 0, 0, 0, 0, 0, types), [];
    NoInputs(s);
    for i := 0 to |tx.vins|
      invariant |ins| == i && forall j :: 0 <= j < i ==> ins[j] == InputRowOf(tx, txIndex, j)
      invariant InputTotalsOf(s, ins) && forall t: ScriptType :: t in s.types
    {
      var v := tx.vins[i];
      var items, bytes := |v.items|, WitnessBytes(v.items);
      var value, kind: Option<ScriptType> := None, None;
      var known, amount, types := s.known, s.value, s.types;
      var witnessInputs, witnessItems, witnessBytes := s.witnessInputs, s.witnessItems, s.witnessBytes;
      if v.items != [] {
        witnessInputs, witnessItems, witnessBytes := witnessInputs + 1, witnessItems + items, witnessBytes + bytes;
      }
      if v.prevout.Some? {
        var p := v.prevout.value;
        value := p.value;
        if value.Some? {
          known, amount := known + 1, amount + value.value;
        }
        var t := NormalizedScriptType(p.scriptType);
        kind := Some(t);
        types := types[t := types[t] + 1];
      }
      var row := InputRow(txIndex, tx.txid, IsCoinbase(tx), i, value, kind, v.scriptSigBytes, items, bytes);
      ghost var before := s;
      s := InputTotals(known, amount, witnessInputs, witnessItems, witnessBytes, s.scriptSigBytes + v.scriptSigBytes,
                       types);
      InputTotalsOneMore(before, ins, row, s);
      ins := ins + [row];
    }
  }

  lemma NoInputs(s: InputTotals)
    requires forall t: ScriptType :: t in s.types && s.types[t] == 0
    ensures s == InputTotals(0, 0, 0, 0, 0, 0, s.types) ==> InputTotalsOf(s, [])
  {
  }

  datatype OutputTotals = OutputTotals(value: int, scriptBytes: int, opReturns: int, opReturnBytes: int, types: Counts)

  ghost predicate OutputTotalsOf(s: OutputTotals, outs: seq<OutputRow>) {
    && s.value == Sum(outs, OUT_VALUE) && s.scriptBytes == Sum(outs, OUT_SCRIPT_BYTES)
    && s.opReturns == Sum(outs, OP_RETURN) && s.opReturnBytes == Sum(outs, OP_RETURN_BYTES)
    && forall t :: t in s.types && s.types[t] == Sum(outs, OutputsOfType(t))
  }

  lemma OutputTotalsOneMore(s: OutputTotals, outs: seq<OutputRow>, r: OutputRow, next: OutputTotals)
    requires OutputTotalsOf(s, outs)
    requires next == OutputTotals(
      s.value + OrZero(r.value), s.scriptBytes + r.scriptBytes, s.opReturns + Flag(r.isOpReturn),
      s.opReturnBytes + (if r.isOpReturn then r.scriptBytes else 0), s.types[r.scriptType := s.types[r.scriptType] + 1])
    ensures OutputTotalsOf(next, outs + [r])
  {
    hide Sum;
    SumOneMore(outs, r, OUT_VALUE);
    SumOneMore(outs, r, OUT_SCRIPT_BYTES);
    SumOneMore(outs, r, OP_RETURN);
    SumOneMore(outs, r, OP_RETURN_BYTES);
    forall t
      ensures t in next.types && next.types[t] == Sum(outs + [r], OutputsOfType(t))
    {
      SumOneMore(outs, r, OutputsOfType(t));
    }
  }

  /** One pass over the outputs. */
  method AggregateOutputs(tx: Tx, txIndex: nat) returns (s: OutputTotals, outs: seq<OutputRow>)
    ensures outs == seq(|tx.vouts|, i requires 0 <= i < |tx.vouts| => OutputRowOf(tx, txIndex, i))
    ensures OutputTotalsOf(s, outs)
  {
    hide OutputTotalsOf;
    var types := NoCounts();
    s, outs := OutputTotals(0, 0, 0, 0, types), [];
    NoOutputs(s);
    for i := 0 to |tx.vouts|
      invariant |outs| == i && forall j :: 0 <= j < i ==> outs[j] == OutputRowOf(tx, txIndex, j)
      invariant OutputTotalsOf(s, outs) && forall t: ScriptType :: t in s.types
    {
      var v := tx.vouts[i];
      var amount, opReturns, opReturnBytes := s.value, s.opReturns, s.opReturnBytes;
      if v.value.Some? {
        amount := amount + v.value.value;
      }
      var t := NormalizedScriptType(v.scriptType);
      var isOpReturn := t == NullData;
      if isOpReturn {
        opReturns, opReturnBytes := opReturns + 1, opReturnBytes + v.scriptBytes;
      }
      var row := OutputRow(txIndex, tx.txid, IsCoinbase(tx), i, v.value, t, v.scriptBytes, isOpReturn);
      ghost var before := s;
      s := OutputTotals(amount, s.scriptBytes + v.scriptBytes, opReturns, opReturnBytes, s.types[t := s.types[t] + 1]);
      OutputTotalsOneMore(before, outs, row, s);
      outs := outs + [row];
    }
  }

  lemma NoOutputs(s: OutputTotals)
    requires forall t: ScriptType :: t in s.types && s.types[t] == 0
    ensures s == OutputTotals(0, 0, 0, 0, s.types) ==> OutputTotalsOf(s, [])
  {
  }

  /** A transaction row, and a detail row for every input and output. */
  method AggregateTransaction(tx: Tx, txIndex: nat) returns (e: TxRow, ins: seq<InputRow>, outs: seq<OutputRow>)
    ensures ins == seq(|tx.vins|, i requires 0 <= i < |tx.vins| => InputRowOf(tx, txIndex, i))
    ensures outs == seq(|tx.vouts|, i requires 0 <= i < |tx.vouts| => OutputRowOf(tx, txIndex, i))
    ensures TxAgrees(e, tx.fee, ins, outs)
    ensures IsRowOf(e, tx, txIndex)
    ensures e.txIndex == txIndex && (e.isCoinbase <==> |tx.vins| > 0 && tx.vins[0].coinbase != None)
  {
    hide Sum, KNOWN_VALUE;
    var i, o;
    i, ins := AggregateInputs(tx, txIndex);
    o, outs := AggregateOutputs(tx, txIndex);
    KnownCount(ins);
    var fee, source := None, Unavailable;
    if IsCoinbase(tx) {
      fee, source := Some(0), FromCoinbase;
    } else if tx.fee.Some? {
      fee, source := tx.fee, FromRpc;
    } else if i.known == |tx.vins| {
      fee, source := Some(i.value - o.value), Derived;
    }
    e := TxRow(txIndex, IsCoinbase(tx), fee, source, if IsCoinbase(tx) then None else Some(i.value), o.value, |tx.vins|,
               |tx.vouts|, i.known, i.witnessInputs, i.witnessItems, i.witnessBytes, i.scriptSigBytes, o.scriptBytes,
               o.opReturns, o.opReturnBytes, i.types, o.types);
  }

  // --- The block -----------------------------------------------------------------

  ghost predicate TotalsAgree(s: Totals, ins: seq<InputRow>, outs: seq<OutputRow>) {
    && s.vinCount == |ins| && s.voutCount == |outs|
    && s.opReturns == Sum(outs, OP_RETURN) && s.opReturnBytes == Sum(outs, OP_RETURN_BYTES)
    && s.witnessInputs == Sum(ins, HAS_WITNESS) && s.witnessItems == Sum(ins, IN_WITNESS_ITEMS)
    && s.witnessBytes == Sum(ins, IN_WITNESS_BYTES) && s.scriptSigBytes == Sum(ins, IN_SCRIPT_BYTES)
    && s.scriptPubKeyBytes == Sum(outs, OUT_SCRIPT_BYTES)
  }

  ghost predicate TypesAgree(vins: Counts, vouts: Counts, ins: seq<InputRow>, outs: seq<OutputRow>) {
    forall t ::
      && t in vins && vins[t] == Sum(ins, InputsOfType(t))
      && t in vouts && vouts[t] == Sum(outs, OutputsOfType(t))
  }

  /** Each transaction row with its detail rows and the fee the node gave. */
  ghost predicate Parts(txs: seq<TxRow>, fees: seq<Option<int>>, ins: seq<seq<InputRow>>, outs: seq<seq<OutputRow>>) {
    && |txs| == |fees| == |ins| == |outs|
    && forall i :: 0 <= i < |txs| ==> TxAgrees(txs[i], fees[i], ins[i], outs[i])
  }

  lemma FlattenOneMore<T>(xss: seq<seq<T>>, n: nat)
    requires n < |xss|
    ensures Flatten(xss[..n + 1]) == Flatten(xss[..n]) + xss[n]
  {
    assert xss[..n + 1] == xss[..n] + [xss[n]];
    FlattenAppend(xss[..n], [xss[n]]);
    FlattenOne(xss[n]);
  }

  lemma TotalsOneMore(s: Totals, ins: seq<InputRow>, outs: seq<OutputRow>, e: TxRow, fee: Option<int>,
                      moreIns: seq<InputRow>, moreOuts: seq<OutputRow>)
    requires TotalsAgree(s, ins, outs) && TxAgrees(e, fee, moreIns, moreOuts)
    ensures TotalsAgree(PlusTx(s, e), ins + moreIns, outs + moreOuts)
  {
    hide Sum;
    SumConcat(outs, moreOuts, OP_RETURN);
    SumConcat(outs, moreOuts, OP_RETURN_BYTES);
    SumConcat(outs, moreOuts, OUT_SCRIPT_BYTES);
    SumConcat(ins, moreIns, HAS_WITNESS);
    SumConcat(ins, moreIns, IN_WITNESS_ITEMS);
    SumConcat(ins, moreIns, IN_WITNESS_BYTES);
    SumConcat(ins, moreIns, IN_SCRIPT_BYTES);
  }

  function PlusTx(s: Totals, e: TxRow): Totals {
    Totals(s.vinCount + e.vinCount, s.voutCount + e.voutCount, s.opReturns + e.opReturns,
           s.opReturnBytes + e.opReturnBytes,
           s.witnessInputs + e.witnessInputs, s.witnessItems + e.witnessItems, s.witnessBytes + e.witnessBytes,
           s.scriptSigBytes + e.scriptSigBytes, s.scriptPubKeyBytes + e.scriptPubKeyBytes)
  }

  /** The totals over all transactions, in one pass. */
  method TotalUp(txs: seq<TxRow>, ghost fees: seq<Option<int>>, ghost ins: seq<seq<InputRow>>,
                 ghost outs: seq<seq<OutputRow>>)
    returns (s: Totals)
    requires Parts(txs, fees, ins, outs)
    ensures TotalsAgree(s, Flatten(ins), Flatten(outs))
  {
    s := Totals(0, 0, 0, 0, 0, 0, 0, 0, 0);
    for i := 0 to |txs|
      invariant TotalsAgree(s, Flatten(ins[..i]), Flatten(outs[..i]))
    {
      FlattenOneMore(ins, i);
      FlattenOneMore(outs, i);
      TotalsOneMore(s, Flatten(ins[..i]), Flatten(outs[..i]), txs[i], fees[i], ins[i], outs[i]);
      s := PlusTx(s, txs[i]);
    }
    assert ins[..|txs|] == ins && outs[..|txs|] == outs;
  }

  /** Adds one transaction's counts to the totals, type by type. */
  method AddCounts(totals: Counts, more: Counts) returns (r: Counts)
    requires forall t: ScriptType :: t in totals && t in more
    ensures forall t: ScriptType :: t in r && r[t] == totals[t] + more[t]
  {
    r := totals;
    for i := 0 to |SCRIPT_TYPES|
      invariant forall t: ScriptType :: t in r
      invariant forall j :: 0 <= j < i ==> r[SCRIPT_TYPES[j]] == totals[SCRIPT_TYPES[j]] + more[SCRIPT_TYPES[j]]
      invariant forall j :: i <= j < |SCRIPT_TYPES| ==> r[SCRIPT_TYPES[j]] == totals[SCRIPT_TYPES[j]]
    {
      var t := SCRIPT_TYPES[i];
      ScriptTypesDiffer();
      r := r[t := r[t] + more[t]];
    }
    forall t: ScriptType
      ensures r[t] == totals[t] + more[t]
    {
      AllScriptTypes(t);
      var j :| 0 <= j < |SCRIPT_TYPES| && SCRIPT_TYPES[j] == t;
    }
  }

  function Position(t: ScriptType): nat {
    match t
    case Nonstandard => 0 case Pubkey => 1 case PubkeyHash => 2 case ScriptHash => 3 case Multisig => 4
    case NullData => 5 case WitnessV0KeyHash => 6 case WitnessV0ScriptHash => 7 case WitnessV1Taproot => 8
    case WitnessUnknown => 9 case Anchor => 10 case Other => 11
  }

  lemma ScriptTypesDiffer()
    ensures forall i, j :: 0 <= i < j < |SCRIPT_TYPES| ==> SCRIPT_TYPES[i] != SCRIPT_TYPES[j]
  {
    assert forall i :: 0 <= i < |SCRIPT_TYPES| ==> Position(SCRIPT_TYPES[i]) == i;
  }

  lemma NoTypes(vins: Counts, vouts: Counts)
    requires forall t: ScriptType :: t in vins && t in vouts && vins[t] == 0 && vouts[t] == 0
    ensures TypesAgree(vins, vouts, Flatten([]), Flatten([]))
  {
  }

  lemma AllTypes(vins: Counts, vouts: Counts, ins: seq<InputRow>, outs: seq<OutputRow>, e: TxRow, fee: Option<int>,
                 moreIns: seq<InputRow>, moreOuts: seq<OutputRow>)
    requires TypesAgree(vins, vouts, ins, outs) && TxAgrees(e, fee, moreIns, moreOuts)
    ensures forall t: ScriptType :: t in vins && t in vouts && t in e.vinTypes && t in e.voutTypes
  {
  }

  lemma TypesOneMore(vins: Counts, vouts: Counts, ins: seq<InputRow>, outs: seq<OutputRow>, e: TxRow, fee: Option<int>,
                     moreIns: seq<InputRow>, moreOuts: seq<OutputRow>, nextVins: Counts, nextVouts: Counts)
    requires TypesAgree(vins, vouts, ins, outs) && TxAgrees(e, fee, moreIns, moreOuts)
    requires forall t: ScriptType :: t in vins && t in vouts && t in e.vinTypes && t in e.voutTypes
    requires forall t: ScriptType :: t in nextVins && nextVins[t] == vins[t] + e.vinTypes[t]
    requires forall t: ScriptType :: t in nextVouts && nextVouts[t] == vouts[t] + e.voutTypes[t]
    ensures TypesAgree(nextVins, nextVouts, ins + moreIns, outs + moreOuts)
  {
    hide Sum;
    forall t
      ensures nextVins[t] == Sum(ins + moreIns, InputsOfType(t))
      ensures nextVouts[t] == Sum(outs + moreOuts, OutputsOfType(t))
    {
      SumConcat(ins, moreIns, InputsOfType(t));
      SumConcat(outs, moreOuts, OutputsOfType(t));
    }
  }

  /** The script type totals, in one pass over all transactions. */
  method TypeTotals(txs: seq<TxRow>, ghost fees: seq<Option<int>>, ghost ins: seq<seq<InputRow>>,
                    ghost outs: seq<seq<OutputRow>>)
    returns (vins: Counts, vouts: Counts)
    requires Parts(txs, fees, ins, outs)
    ensures TypesAgree(vins, vouts, Flatten(ins), Flatten(outs))
  {
    hide TypesAgree, TxAgrees;
    vins := NoCounts();
    vouts := NoCounts();
    NoTypes(vins, vouts);
    for i := 0 to |txs|
      invariant TypesAgree(vins, vouts, Flatten(ins[..i]), Flatten(outs[..i]))
    {
      ghost var beforeIns, beforeOuts := vins, vouts;
      AllTypes(beforeIns, beforeOuts, Flatten(ins[..i]), Flatten(outs[..i]), txs[i], fees[i], ins[i], outs[i]);
      vins := AddCounts(vins, txs[i].vinTypes);
      vouts := AddCounts(vouts, txs[i].voutTypes);
      FlattenOneMore(ins, i);
      FlattenOneMore(outs, i);
      TypesOneMore(beforeIns, beforeOuts, Flatten(ins[..i]), Flatten(outs[..i]), txs[i], fees[i], ins[i], outs[i],
                   vins, vouts);
    }
    assert ins[..|txs|] == ins && outs[..|txs|] == outs;
  }

  // --- Fees and values of the regular transactions -------------------------------

  /** The elements of `xs` that belong to transactions other than the coinbase. */
  function RegularOnly<T>(txs: seq<TxRow>, xs: seq<T>): seq<T>
    requires |txs| == |xs|
    decreases |txs|
  {
    if txs == [] then []
    else
      var n := |txs| - 1;
      RegularOnly(txs[..n], xs[..n]) + (if txs[n].isCoinbase then [] else [xs[n]])
  }

  const KNOWN_FEE: TxRow -> int := (e: TxRow) => OrZero(e.fee)
  const HAS_FEE: TxRow -> int := (e: TxRow) => Flag(e.fee.Some?)
  const COMPLETE: TxRow -> int := (e: TxRow) => Flag(e.prevoutsKnown == e.vinCount)
  const COMPLETE_INPUT: TxRow -> int := (e: TxRow) => if e.prevoutsKnown == e.vinCount then OrZero(e.inputValue) else 0

  ghost predicate AllDerived(txs: seq<TxRow>) {
    forall i :: 0 <= i < |txs| && !txs[i].isCoinbase ==> txs[i].feeSource.Derived?
  }

  /** The fee fields of the block row.  If every fee is derived they are what
      the exported inputs are worth more than the exported outputs. */
  ghost predicate FeesAgree(f: Fees, txs: seq<TxRow>, ins: seq<InputRow>, outs: seq<OutputRow>) {
    var regular := RegularOnly(txs, txs);
    && f.regularTxs == |regular|
    && f.totalFees == Sum(regular, KNOWN_FEE) && f.feeKnown == Sum(regular, HAS_FEE)
    && f.regularInput == Sum(regular, COMPLETE_INPUT) && f.inputComplete == Sum(regular, COMPLETE)
    && f.regularOutput == Sum(outs, REGULAR_OUT_VALUE)
    && (AllDerived(txs) ==>
          && f.totalFees == f.regularInput - f.regularOutput
          && f.regularInput == Sum(ins, REGULAR_IN_VALUE)
          && f.inputComplete == f.regularTxs && f.feeKnown == f.regularTxs)
  }

  lemma {:induction false} OneSide(ins: seq<InputRow>, outs: seq<OutputRow>, isCoinbase: bool)
    requires forall r :: r in ins ==> r.isCoinbase == isCoinbase
    requires forall r :: r in outs ==> r.isCoinbase == isCoinbase
    ensures Sum(ins, REGULAR_IN_VALUE) == if isCoinbase then 0 else Sum(ins, IN_VALUE)
    ensures Sum(outs, REGULAR_OUT_VALUE) == if isCoinbase then 0 else Sum(outs, OUT_VALUE)
    decreases |ins| + |outs|
  {
    if ins != [] {
      OneSide(ins[..|ins| - 1], outs, isCoinbase);
    } else if outs != [] {
      OneSide(ins, outs[..|outs| - 1], isCoinbase);
    }
  }

  lemma {:induction false} RegularParts(txs: seq<TxRow>, fees: seq<Option<int>>, ins: seq<seq<InputRow>>,
                                        outs: seq<seq<OutputRow>>)
    requires Parts(txs, fees, ins, outs)
    ensures Parts(RegularOnly(txs, txs), RegularOnly(txs, fees), RegularOnly(txs, ins), RegularOnly(txs, outs))
    ensures forall e :: e in RegularOnly(txs, txs) ==> !e.isCoinbase && e in txs
    decreases |txs|
  {
    hide TxAgrees;
    if txs != [] {
      var n := |txs| - 1;
      RegularParts(txs[..n], fees[..n], ins[..n], outs[..n]);
    }
  }

  /** Leaving the coinbase out, row by row or transaction by transaction. */
  lemma {:induction false} RegularSums(txs: seq<TxRow>, fees: seq<Option<int>>, ins: seq<seq<InputRow>>,
                                       outs: seq<seq<OutputRow>>)
    requires Parts(txs, fees, ins, outs)
    ensures Sum(Flatten(ins), REGULAR_IN_VALUE) == Sum(Flatten(RegularOnly(txs, ins)), IN_VALUE)
    ensures Sum(Flatten(outs), REGULAR_OUT_VALUE) == Sum(Flatten(RegularOnly(txs, outs)), OUT_VALUE)
    decreases |txs|
  {
    hide TxAgrees, Sum, Flatten;
    if txs == [] {
      NoRows();
    } else {
      var n := |txs| - 1;
      RegularSums(txs[..n], fees[..n], ins[..n], outs[..n]);
      assert ins == ins[..n] + [ins[n]] && outs == outs[..n] + [outs[n]];
      SumFlatten(ins[..n], ins[n], REGULAR_IN_VALUE);
      SumFlatten(outs[..n], outs[n], REGULAR_OUT_VALUE);
      SumFlatten(RegularOnly(txs[..n], ins[..n]), ins[n], IN_VALUE);
      SumFlatten(RegularOnly(txs[..n], outs[..n]), outs[n], OUT_VALUE);
      OneKind(txs[n], fees[n], ins[n], outs[n]);
      assert RegularOnly(txs[..n], ins[..n]) + [] == RegularOnly(txs[..n], ins[..n]);
      assert RegularOnly(txs[..n], outs[..n]) + [] == RegularOnly(txs[..n], outs[..n]);
    }
  }

  lemma NoRows()
    ensures Flatten<InputRow>([]) == [] && Flatten<OutputRow>([]) == []
    ensures Sum([], REGULAR_IN_VALUE) == Sum([], IN_VALUE) && Sum([], REGULAR_OUT_VALUE) == Sum([], OUT_VALUE)
  {
  }

  lemma OneKind(e: TxRow, fee: Option<int>, ins: seq<InputRow>, outs: seq<OutputRow>)
    requires TxAgrees(e, fee, ins, outs)
    ensures Sum(ins, REGULAR_IN_VALUE) == if e.isCoinbase then 0 else Sum(ins, IN_VALUE)
    ensures Sum(outs, REGULAR_OUT_VALUE) == if e.isCoinbase then 0 else Sum(outs, OUT_VALUE)
  {
    OneSide(ins, outs, e.isCoinbase);
  }

  lemma SumFlatten<T>(xss: seq<seq<T>>, xs: seq<T>, f: T -> int)
    ensures Sum(Flatten(xss + [xs]), f) == Sum(Flatten(xss), f) + Sum(xs, f)
  {
    FlattenAppend(xss, [xs]);
    FlattenOne(xs);
    SumConcat(Flatten(xss), xs, f);
  }

  /** A derived fee, and what makes it one. */
  lemma DerivedFee(e: TxRow, fee: Option<int>, ins: seq<InputRow>, outs: seq<OutputRow>)
    requires TxAgrees(e, fee, ins, outs) && !e.isCoinbase && e.feeSource.Derived?
    ensures e.prevoutsKnown == e.vinCount
    ensures e.inputValue == Some(Sum(ins, IN_VALUE)) && e.fee == Some(Sum(ins, IN_VALUE) - Sum(outs, OUT_VALUE))
  {
    KnownCount(ins);
  }

  /** The fee loop over the first `i` regular transactions. */
  ghost predicate FeesSoFar(f: Fees, regular: seq<TxRow>, ins: seq<seq<InputRow>>, outs: seq<seq<OutputRow>>) {
    && f.totalFees == Sum(regular, KNOWN_FEE) && f.feeKnown == Sum(regular, HAS_FEE)
    && f.regularInput == Sum(regular, COMPLETE_INPUT) && f.inputComplete == Sum(regular, COMPLETE)
    && f.regularTxs == |regular|
    && f.regularOutput == Sum(Flatten(outs), OUT_VALUE)
    && ((forall e :: e in regular ==> e.feeSource.Derived?) ==>
          && f.totalFees == f.regularInput - f.regularOutput && f.regularInput == Sum(Flatten(ins), IN_VALUE)
          && f.inputComplete == f.regularTxs && f.feeKnown == f.regularTxs)
  }

  function PlusFee(f: Fees, e: TxRow): Fees {
    Fees(f.totalFees + OrZero(e.fee), f.feeKnown + Flag(e.fee.Some?), f.regularTxs + 1,
         f.regularInput + (if e.prevoutsKnown == e.vinCount then OrZero(e.inputValue) else 0),
         f.inputComplete + Flag(e.prevoutsKnown == e.vinCount), f.regularOutput + e.outputValue)
  }

  lemma FeesOneMore(f: Fees, regular: seq<TxRow>, ins: seq<seq<InputRow>>, outs: seq<seq<OutputRow>>,
                    e: TxRow, fee: Option<int>, moreIns: seq<InputRow>, moreOuts: seq<OutputRow>)
    requires FeesSoFar(f, regular, ins, outs) && TxAgrees(e, fee, moreIns, moreOuts) && !e.isCoinbase
    ensures FeesSoFar(PlusFee(f, e), regular + [e], ins + [moreIns], outs + [moreOuts])
  {
    hide Sum;
    SumOneMore(regular, e, KNOWN_FEE);
    SumOneMore(regular, e, HAS_FEE);
    SumOneMore(regular, e, COMPLETE_INPUT);
    SumOneMore(regular, e, COMPLETE);
    SumFlatten(ins, moreIns, IN_VALUE);
    SumFlatten(outs, moreOuts, OUT_VALUE);
    if forall x :: x in regular + [e] ==> x.feeSource.Derived? {
      assert e in regular + [e] && forall x :: x in regular ==> x in regular + [e];
      DerivedFee(e, fee, moreIns, moreOuts);
    }
  }

  method SumUpFees(regular: seq<TxRow>, ghost fees: seq<Option<int>>, ghost ins: seq<seq<InputRow>>,
                   ghost outs: seq<seq<OutputRow>>)
    returns (f: Fees)
    requires Parts(regular, fees, ins, outs) && forall e :: e in regular ==> !e.isCoinbase
    ensures FeesSoFar(f, regular, ins, outs)
  {
    hide FeesSoFar, TxAgrees, PlusFee;
    f := Fees(0, 0, 0, 0, 0, 0);
    NoFees(f);
    for i := 0 to |regular|
      invariant FeesSoFar(f, regular[..i], ins[..i], outs[..i])
    {
      var e := regular[i];
      FeesOneMore(f, regular[..i], ins[..i], outs[..i], e, fees[i], ins[i], outs[i]);
      assert regular[..i + 1] == regular[..i] + [e] && ins[..i + 1] == ins[..i] + [ins[i]]
             && outs[..i + 1] == outs[..i] + [outs[i]];
      f := PlusFee(f, e);
    }
    assert regular[..|regular|] == regular && ins[..|regular|] == ins && outs[..|regular|] == outs;
  }

  lemma NoFees(f: Fees)
    requires f == Fees(0, 0, 0, 0, 0, 0)
    ensures FeesSoFar(f, [], [], [])
  {
  }

  method RegularTxs(txs: seq<TxRow>) returns (regular: seq<TxRow>)
    ensures regular == RegularOnly(txs, txs)
  {
    regular := [];
    for i := 0 to |txs|
      invariant regular == RegularOnly(txs[..i], txs[..i])
    {
      assert txs[..i + 1][..i] == txs[..i];
      if !txs[i].isCoinbase {
        regular := regular + [txs[i]];
      }
    }
    assert txs[..|txs|] == txs;
  }

  lemma FeesOfAll(f: Fees, txs: seq<TxRow>, fees: seq<Option<int>>, ins: seq<seq<InputRow>>, outs: seq<seq<OutputRow>>)
    requires Parts(txs, fees, ins, outs)
    requires FeesSoFar(f, RegularOnly(txs, txs), RegularOnly(txs, ins), RegularOnly(txs, outs))
    ensures FeesAgree(f, txs, Flatten(ins), Flatten(outs))
  {
    hide TxAgrees, Sum;
    RegularParts(txs, fees, ins, outs);
    RegularSums(txs, fees, ins, outs);
    AllRegularDerived(txs);
  }

  lemma {:induction false} AllRegularDerived(txs: seq<TxRow>)
    ensures AllDerived(txs) ==> forall e :: e in RegularOnly(txs, txs) ==> e.feeSource.Derived?
    decreases |txs|
  {
    if txs != [] {
      AllRegularDerived(txs[..|txs| - 1]);
    }
  }

  /** The block row agrees with all exported rows. */
  ghost predicate BlockAgrees(b: BlockAggregate) {
    && TotalsAgree(b.row.totals, b.inputs, b.outputs)
    && TypesAgree(b.row.vinTypes, b.row.voutTypes, b.inputs, b.outputs)
    && FeesAgree(b.row.fees, b.txs, b.inputs, b.outputs)
  }

  function AllInputRows(txs: seq<Tx>): seq<InputRow>
    decreases |txs|
  {
    if txs == [] then []
    else
      var n := |txs| - 1;
      AllInputRows(txs[..n]) + InputRows(txs[n], n)
  }

  function AllOutputRows(txs: seq<Tx>): seq<OutputRow>
    decreases |txs|
  {
    if txs == [] then []
    else
      var n := |txs| - 1;
      AllOutputRows(txs[..n]) + OutputRows(txs[n], n)
  }

  // --- The block row and the block -----------------------------------------------

  /** The names of the script types, in the order of their columns. */
  const TYPE_NAMES: seq<string> :=
    ["nonstandard", "pubkey", "pubkeyhash", "scripthash", "multisig", "nulldata", "witness_v0_keyhash",
     "witness_v0_scripthash", "witness_v1_taproot", "witness_unknown", "anchor", "other"]

  function NameOf(t: ScriptType): string {
    TYPE_NAMES[Position(t)]
  }

  /** The name is that of the type; for Other, it is none of the names or
      missing. */
  predicate Named(name: Option<string>, t: ScriptType) {
    if t.Other? then name.None? || forall i :: 0 <= i < |TYPE_NAMES| - 1 ==> name.value != TYPE_NAMES[i]
    else name == Some(NameOf(t))
  }

  /** Each column has its type and its name. */
  lemma Columns()
    ensures |SCRIPT_TYPES| == |TYPE_NAMES| == 12
    ensures forall t: ScriptType :: SCRIPT_TYPES[Position(t)] == t && (Position(t) == 11 <==> t.Other?)
    ensures forall i: nat :: i < 12 ==> Position(SCRIPT_TYPES[i]) == i && NameOf(SCRIPT_TYPES[i]) == TYPE_NAMES[i]
  {
  }

  lemma TypeOfName(t: ScriptType)
    ensures NormalizedScriptType(Some(NameOf(t))) == t
  {
  }

  lemma OtherNames(n: string)
    requires forall t: ScriptType :: NameOf(t) == n ==> t.Other?
    ensures NormalizedScriptType(Some(n)) == Other
  {
    assert NameOf(Nonstandard) == "nonstandard" && NameOf(Pubkey) == "pubkey" && NameOf(PubkeyHash) == "pubkeyhash";
    assert NameOf(ScriptHash) == "scripthash" && NameOf(Multisig) == "multisig" && NameOf(NullData) == "nulldata";
    assert NameOf(WitnessV0KeyHash) == "witness_v0_keyhash" && NameOf(WitnessV0ScriptHash) == "witness_v0_scripthash";
    assert NameOf(WitnessV1Taproot) == "witness_v1_taproot" && NameOf(WitnessUnknown) == "witness_unknown";
    assert NameOf(Anchor) == "anchor";
  }

  /** A type is what its name says, for every column; every other name and a
      missing one are Other. */
  lemma TypesAreNamed(name: Option<string>, t: ScriptType)
    ensures NormalizedScriptType(name) == t <==> Named(name, t)
    ensures Named(Some(NameOf(t)), t)
  {
    hide NormalizedScriptType, NameOf, Position;
    Columns();
    forall u: ScriptType {
      TypeOfName(u);
    }
    NameAt(t);
    if name == None {
      Missing();
    } else if u :| NameOf(u) == name.value && u != Other {
      NameAt(u);
    } else {
      OtherNames(name.value);
    }
  }

  lemma NameAt(t: ScriptType)
    ensures Position(t) < 12 && NameOf(t) == TYPE_NAMES[Position(t)]
  {
  }

  lemma Missing()
    ensures NormalizedScriptType(None) == Other
  {
  }

  function AllVins(block: seq<Tx>): seq<Vin>
    decreases |block|
  {
    if block == [] then [] else AllVins(block[..|block| - 1]) + block[|block| - 1].vins
  }

  function AllVouts(block: seq<Tx>): seq<Vout>
    decreases |block|
  {
    if block == [] then [] else AllVouts(block[..|block| - 1]) + block[|block| - 1].vouts
  }

  // What one input, output or transaction of the block counts for.

  const LENGTH: nat -> int := (n: nat) => n
  const WITNESSED: Vin -> int := (v: Vin) => Flag(v.items != [])
  const ITEMS: Vin -> int := (v: Vin) => |v.items|
  const ITEM_BYTES: Vin -> int := (v: Vin) => Sum(v.items, LENGTH)
  const SIG_BYTES: Vin -> int := (v: Vin) => v.scriptSigBytes
  const PREVOUT_VALUE: Vin -> int := (v: Vin) => if v.prevout.Some? then OrZero(v.prevout.value.value) else 0
  const VALUE: Vout -> int := (v: Vout) => OrZero(v.value)
  const PUBKEY_BYTES: Vout -> int := (v: Vout) => v.scriptBytes
  const NULLDATA: Vout -> int := (v: Vout) => Flag(v.scriptType == Some("nulldata"))
  const NULLDATA_BYTES: Vout -> int := (v: Vout) => if v.scriptType == Some("nulldata") then v.scriptBytes else 0

  function SpendsNamed(t: ScriptType): Vin -> int {
    (v: Vin) => Flag(v.prevout.Some? && Named(v.prevout.value.scriptType, t))
  }

  function PaysNamed(t: ScriptType): Vout -> int {
    (v: Vout) => Flag(Named(v.scriptType, t))
  }

  predicate AllValuesKnown(tx: Tx) {
    forall v :: v in tx.vins ==> v.prevout.Some? && v.prevout.value.value.Some?
  }

  const REGULAR: Tx -> int := (tx: Tx) => Flag(!IsCoinbase(tx))
  const PAID: Tx -> int := (tx: Tx) => if IsCoinbase(tx) then 0 else Sum(tx.vouts, VALUE)

  /** The fee the node gave, or what is spent more than paid, if that is known. */
  const FEE: Tx -> int := (tx: Tx) =>
    if IsCoinbase(tx) then 0
    else if tx.fee.Some? then tx.fee.value
    else if AllValuesKnown(tx) then Sum(tx.vins, PREVOUT_VALUE) - Sum(tx.vouts, VALUE)
    else 0

  ghost predicate TotalsCount(s: Totals, vins: seq<Vin>, vouts: seq<Vout>) {
    && s.vinCount == |vins| && s.voutCount == |vouts|
    && s.opReturns == Sum(vouts, NULLDATA) && s.opReturnBytes == Sum(vouts, NULLDATA_BYTES)
    && s.witnessInputs == Sum(vins, WITNESSED) && s.witnessItems == Sum(vins, ITEMS)
    && s.witnessBytes == Sum(vins, ITEM_BYTES) && s.scriptSigBytes == Sum(vins, SIG_BYTES)
    && s.scriptPubKeyBytes == Sum(vouts, PUBKEY_BYTES)
  }

  /** The block row against the inputs and outputs of the block. */
  ghost predicate CountsBlock(row: BlockRow, block: seq<Tx>) {
    && TotalsCount(row.totals, AllVins(block), AllVouts(block))
    && (forall t :: t in row.vinTypes && row.vinTypes[t] == Sum(AllVins(block), SpendsNamed(t)))
    && (forall t :: t in row.voutTypes && row.voutTypes[t] == Sum(AllVouts(block), PaysNamed(t)))
    && row.fees.regularTxs == Sum(block, REGULAR) && row.fees.regularOutput == Sum(block, PAID)
    && row.fees.totalFees == Sum(block, FEE)
  }

  lemma {:induction false} SumSame<A, B>(xs: seq<A>, ys: seq<B>, f: A -> int, g: B -> int)
    requires |xs| == |ys| && forall i :: 0 <= i < |xs| ==> f(xs[i]) == g(ys[i])
    ensures Sum(xs, f) == Sum(ys, g)
    decreases |xs|
  {
    if xs != [] {
      SumSame(xs[..|xs| - 1], ys[..|ys| - 1], f, g);
    }
  }

  /** A sum over all input rows is one over the inputs. */
  lemma {:induction false} SumVins(block: seq<Tx>, f: InputRow -> int, g: Vin -> int)
    requires forall tx: Tx, n: nat, i: nat {:trigger InputRowOf(tx, n, i)} ::
               i < |tx.vins| ==> f(InputRowOf(tx, n, i)) == g(tx.vins[i])
    ensures Sum(AllInputRows(block), f) == Sum(AllVins(block), g)
    ensures |AllInputRows(block)| == |AllVins(block)|
    decreases |block|
  {
    hide InputRowOf;
    if block != [] {
      var n := |block| - 1;
      SumVins(block[..n], f, g);
      SumSame(InputRows(block[n], n), block[n].vins, f, g);
      SumConcat(AllInputRows(block[..n]), InputRows(block[n], n), f);
      SumConcat(AllVins(block[..n]), block[n].vins, g);
    }
  }

  lemma {:induction false} SumVouts(block: seq<Tx>, f: OutputRow -> int, g: Vout -> int)
    requires forall tx: Tx, n: nat, i: nat {:trigger OutputRowOf(tx, n, i)} ::
               i < |tx.vouts| ==> f(OutputRowOf(tx, n, i)) == g(tx.vouts[i])
    ensures Sum(AllOutputRows(block), f) == Sum(AllVouts(block), g)
    ensures |AllOutputRows(block)| == |AllVouts(block)|
    decreases |block|
  {
    hide OutputRowOf;
    if block != [] {
      var n := |block| - 1;
      SumVouts(block[..n], f, g);
      SumSame(OutputRows(block[n], n), block[n].vouts, f, g);
      SumConcat(AllOutputRows(block[..n]), OutputRows(block[n], n), f);
      SumConcat(AllVouts(block[..n]), block[n].vouts, g);
    }
  }

  lemma {:induction false} ItemBytes(items: seq<nat>)
    ensures WitnessBytes(items) == Sum(items, LENGTH)
    decreases |items|
  {
    if items != [] {
      ItemBytes(items[..|items| - 1]);
    }
  }

  lemma OutputRowIs(tx: Tx, n: nat, i: nat)
    requires i < |tx.vouts|
    ensures var r, v := OutputRowOf(tx, n, i), tx.vouts[i];
            && OP_RETURN(r) == NULLDATA(v) && OP_RETURN_BYTES(r) == NULLDATA_BYTES(v)
            && OUT_SCRIPT_BYTES(r) == PUBKEY_BYTES(v) && OUT_VALUE(r) == VALUE(v)
            && forall t :: OutputsOfType(t)(r) == PaysNamed(t)(v)
  {
    hide NormalizedScriptType, Named, NameOf;
    var name := tx.vouts[i].scriptType;
    NullDataNamed(name);
    forall t {
      TypesAreNamed(name, t);
    }
  }

  lemma NullDataNamed(name: Option<string>)
    ensures Named(name, NullData) <==> name == Some("nulldata")
  {
  }

  lemma InputRowIs(tx: Tx, n: nat, i: nat)
    requires i < |tx.vins|
    ensures var r, v := InputRowOf(tx, n, i), tx.vins[i];
            && HAS_WITNESS(r) == WITNESSED(v) && IN_WITNESS_ITEMS(r) == ITEMS(v) && IN_WITNESS_BYTES(r) == ITEM_BYTES(v)
            && IN_SCRIPT_BYTES(r) == SIG_BYTES(v) && IN_VALUE(r) == PREVOUT_VALUE(v)
            && forall t :: InputsOfType(t)(r) == SpendsNamed(t)(v)
  {
    hide NormalizedScriptType, Named, WitnessBytes, Sum;
    var v := tx.vins[i];
    ItemBytes(v.items);
    if v.prevout.Some? {
      forall t {
        TypesAreNamed(v.prevout.value.scriptType, t);
      }
    }
  }

  lemma TotalsOfBlock(s: Totals, block: seq<Tx>)
    requires TotalsAgree(s, AllInputRows(block), AllOutputRows(block))
    ensures TotalsCount(s, AllVins(block), AllVouts(block))
  {
    hide Sum, InputRowOf, OutputRowOf;
    forall tx: Tx, n: nat, i: nat {:trigger InputRowOf(tx, n, i)} | i < |tx.vins| {
      InputRowIs(tx, n, i);
    }
    forall tx: Tx, n: nat, i: nat {:trigger OutputRowOf(tx, n, i)} | i < |tx.vouts| {
      OutputRowIs(tx, n, i);
    }
    SumVins(block, HAS_WITNESS, WITNESSED);
    SumVins(block, IN_WITNESS_ITEMS, ITEMS);
    SumVins(block, IN_WITNESS_BYTES, ITEM_BYTES);
    SumVins(block, IN_SCRIPT_BYTES, SIG_BYTES);
    SumVouts(block, OP_RETURN, NULLDATA);
    SumVouts(block, OP_RETURN_BYTES, NULLDATA_BYTES);
    SumVouts(block, OUT_SCRIPT_BYTES, PUBKEY_BYTES);
  }

  lemma TypesOfBlock(vins: Counts, vouts: Counts, block: seq<Tx>)
    requires TypesAgree(vins, vouts, AllInputRows(block), AllOutputRows(block))
    ensures forall t :: t in vins && vins[t] == Sum(AllVins(block), SpendsNamed(t))
    ensures forall t :: t in vouts && vouts[t] == Sum(AllVouts(block), PaysNamed(t))
  {
    hide Sum, InputRowOf, OutputRowOf, InputsOfType, OutputsOfType, SpendsNamed, PaysNamed;
    forall tx: Tx, n: nat, i: nat {:trigger InputRowOf(tx, n, i)} | i < |tx.vins| {
      InputRowIs(tx, n, i);
    }
    forall tx: Tx, n: nat, i: nat {:trigger OutputRowOf(tx, n, i)} | i < |tx.vouts| {
      OutputRowIs(tx, n, i);
    }
    forall t
      ensures Sum(AllInputRows(block), InputsOfType(t)) == Sum(AllVins(block), SpendsNamed(t))
      ensures Sum(AllOutputRows(block), OutputsOfType(t)) == Sum(AllVouts(block), PaysNamed(t))
    {
      SumVins(block, InputsOfType(t), SpendsNamed(t));
      SumVouts(block, OutputsOfType(t), PaysNamed(t));
    }
  }

  lemma FeeOfTx(e: TxRow, tx: Tx, n: nat)
    requires IsRowOf(e, tx, n)
    ensures (if e.isCoinbase then 0 else KNOWN_FEE(e)) == FEE(tx)
    ensures e.outputValue == Sum(tx.vouts, VALUE)
  {
    hide Sum, WitnessBytes, NormalizedScriptType;
    var ins, outs := InputRows(tx, n), OutputRows(tx, n);
    SumSame(ins, tx.vins, IN_VALUE, PREVOUT_VALUE);
    SumSame(outs, tx.vouts, OUT_VALUE, VALUE);
    if AllValuesKnown(tx) {
      assert forall i :: 0 <= i < |tx.vins| ==> tx.vins[i] in tx.vins;
    } else {
      var v :| v in tx.vins && !(v.prevout.Some? && v.prevout.value.value.Some?);
      var i :| 0 <= i < |tx.vins| && tx.vins[i] == v;
      assert ins[i] in ins && ins[i].value.None?;
    }
  }

  lemma {:induction false} SumRegular(txs: seq<TxRow>, block: seq<Tx>, f: TxRow -> int, g: Tx -> int)
    requires |txs| == |block|
    requires forall i :: 0 <= i < |txs| ==> (if txs[i].isCoinbase then 0 else f(txs[i])) == g(block[i])
    ensures Sum(RegularOnly(txs, txs), f) == Sum(block, g)
    decreases |txs|
  {
    if txs != [] {
      var n := |txs| - 1;
      SumRegular(txs[..n], block[..n], f, g);
      assert RegularOnly(txs[..n], txs[..n]) + [] == RegularOnly(txs[..n], txs[..n]);
      SumOneMore(RegularOnly(txs[..n], txs[..n]), txs[n], f);
    }
  }

  lemma {:induction false} CountRegular(txs: seq<TxRow>, block: seq<Tx>)
    requires |txs| == |block| && forall i :: 0 <= i < |txs| ==> txs[i].isCoinbase == IsCoinbase(block[i])
    ensures |RegularOnly(txs, txs)| == Sum(block, REGULAR)
    decreases |txs|
  {
    if txs != [] {
      CountRegular(txs[..|txs| - 1], block[..|txs| - 1]);
    }
  }

  lemma {:induction false} PaidByRegular(block: seq<Tx>)
    ensures Sum(AllOutputRows(block), REGULAR_OUT_VALUE) == Sum(block, PAID)
    decreases |block|
  {
    hide Sum;
    if block == [] {
      NothingPaid();
    } else {
      var n := |block| - 1;
      var tx := block[n];
      PaidByRegular(block[..n]);
      SumConcat(AllOutputRows(block[..n]), OutputRows(tx, n), REGULAR_OUT_VALUE);
      SumOneMore(block[..n], tx, PAID);
      assert block == block[..n] + [tx];
      PaidBy(tx, n);
    }
  }

  lemma NothingPaid()
    ensures Sum([], REGULAR_OUT_VALUE) == Sum([], PAID) == 0
  {
  }

  lemma PaidBy(tx: Tx, n: nat)
    ensures Sum(OutputRows(tx, n), REGULAR_OUT_VALUE) == PAID(tx)
  {
    OneSide([], OutputRows(tx, n), IsCoinbase(tx));
    SumSame(OutputRows(tx, n), tx.vouts, OUT_VALUE, VALUE);
  }

  lemma {:induction false} FeesOfBlock(f: Fees, txs: seq<TxRow>, block: seq<Tx>)
    requires FeesAgree(f, txs, AllInputRows(block), AllOutputRows(block)) && |txs| == |block|
    requires forall i :: 0 <= i < |block| ==> IsRowOf(txs[i], block[i], i)
    ensures f.regularTxs == Sum(block, REGULAR) && f.regularOutput == Sum(block, PAID)
    ensures f.totalFees == Sum(block, FEE)
  {
    hide Sum, KNOWN_FEE, FEE, TxAgrees;
    forall i | 0 <= i < |block|
      ensures (if txs[i].isCoinbase then 0 else KNOWN_FEE(txs[i])) == FEE(block[i])
    {
      FeeOfTx(txs[i], block[i], i);
    }
    SumRegular(txs, block, KNOWN_FEE, FEE);
    CountRegular(txs, block);
    PaidByRegular(block);
  }

  /** One row for the block, each transaction, each input and each output. */
  method AggregateBlock(block: seq<Tx>) returns (b: BlockAggregate)
    ensures b.inputs == AllInputRows(block) && b.outputs == AllOutputRows(block)
    ensures |b.txs| == |block| && forall i :: 0 <= i < |block| ==>
              b.txs[i].txIndex == i && IsRowOf(b.txs[i], block[i], i)
    ensures BlockAgrees(b) && CountsBlock(b.row, block)
  {
    hide TxAgrees, FeesSoFar, TotalsAgree, TypesAgree, FeesAgree, TotalsCount, IsRowOf, IsCoinbase, InputRowOf,
      OutputRowOf;
    var txs: seq<TxRow>, inputs: seq<InputRow>, outputs: seq<OutputRow> := [], [], [];
    ghost var fees: seq<Option<int>>, ins: seq<seq<InputRow>>, outs: seq<seq<OutputRow>> := [], [], [];
    for i := 0 to |block|
      invariant Parts(txs, fees, ins, outs) && |txs| == i
      invariant inputs == AllInputRows(block[..i]) == Flatten(ins)
      invariant outputs == AllOutputRows(block[..i]) == Flatten(outs)
      invariant forall j :: 0 <= j < i ==> txs[j].txIndex == j && IsRowOf(txs[j], block[j], j)
    {
      var e, moreIns, moreOuts := AggregateTransaction(block[i], i);
      assert block[..i + 1][..i] == block[..i];
      FlattenAppend(ins, [moreIns]);
      FlattenOne(moreIns);
      FlattenAppend(outs, [moreOuts]);
      FlattenOne(moreOuts);
      txs, inputs, outputs := txs + [e], inputs + moreIns, outputs + moreOuts;
      fees, ins, outs := fees + [block[i].fee], ins + [moreIns], outs + [moreOuts];
    }
    assert block[..|block|] == block;
    var regular := RegularTxs(txs);
    var totals := TotalUp(txs, fees, ins, outs);
    RegularParts(txs, fees, ins, outs);
    var f := SumUpFees(regular, RegularOnly(txs, fees), RegularOnly(txs, ins), RegularOnly(txs, outs));
    FeesOfAll(f, txs, fees, ins, outs);
    var vinTypes, voutTypes := TypeTotals(txs, fees, ins, outs);
    TotalsOfBlock(totals, block);
    TypesOfBlock(vinTypes, voutTypes, block);
    FeesOfBlock(f, txs, block);
    b := BlockAggregate(BlockRow(totals, f, vinTypes, voutTypes), txs, inputs, outputs);
  }
}
