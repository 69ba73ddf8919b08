/**
 * The index of spent outputs, and the blocks and transactions that change it.
 * Hashing is a field of the transaction, reading transactions back from the
 * block files is a map, signature and coin-age checks are parameters.
 * Source: src/main.h, src/main.cpp.
 */
module Ledger {
  import opened Bytes
  import opened ScriptCodec
  import I = Interpreter
  import S = SigOps

  type Hash = nat

  const COIN := 100000000
  const MAX_MONEY := 21000000 * COIN
  const COINBASE_MATURITY := 100
  const MAX_BLOCK_SIZE := 1000000
  const MAX_BLOCK_SIGOPS := MAX_BLOCK_SIZE / 50
  const BIP30_SWITCH_TIME := 1349049600
  const BIP16_SWITCH_TIME := 1349049600

  predicate MoneyRange(value: int) { 0 <= value <= MAX_MONEY }

  // ----- Data -----

  datatype OutPoint = OutPoint(hash: Hash, n: nat) {
    predicate IsNull() { hash == 0 && n == 0xffffffff }
  }

  datatype TxIn = TxIn(prevout: OutPoint, scriptSig: Script)

  datatype TxOut = TxOut(value: int, scriptPubKey: Script) {
    predicate IsEmpty() { value == 0 && scriptPubKey == [] }
  }

  /** hash is GetHash(), size the serialised size. */
  datatype Tx = Tx(hash: Hash, vin: seq<TxIn>, vout: seq<TxOut>, time: nat, size: nat) {
    predicate IsCoinBase() { |vin| == 1 && vin[0].prevout.IsNull() && |vout| >= 1 }

    predicate IsCoinStake() { |vin| > 0 && !vin[0].prevout.IsNull() && |vout| >= 2 && vout[0].IsEmpty() }

    function Outpoints(): (r: seq<OutPoint>)
      ensures |r| == |vin| && forall i :: 0 <= i < |vin| ==> r[i] == vin[i].prevout
    {
      seq(|vin|, i requires 0 <= i < |vin| => vin[i].prevout)
    }
  }

  datatype DiskPos = NullPos | Pos(file: nat, block: nat, tx: nat)

  /** Where a transaction is stored and, per output, where it is spent. */
  datatype TxIndex = TxIndex(pos: DiskPos, spent: seq<DiskPos>)

  type Index = map<Hash, TxIndex>

  function FreshIndex(pos: DiskPos, outputs: nat): TxIndex { TxIndex(pos, seq(outputs, _ => NullPos)) }

  datatype Block = Block(txs: seq<Tx>, time: nat, file: nat, pos: nat, firstTx: nat) {
    predicate IsProofOfStake() { |txs| > 1 && txs[1].IsCoinStake() }
  }

  /** Everything a connect reads but never changes. */
  datatype Env = Env(
    disk: map<DiskPos, Tx>,
    mempool: map<Hash, Tx>,
    crypto: (Tx, nat) -> I.Crypto,
    coinAgeKnown: Tx -> bool,
    headerOk: Block -> bool)

  /** The chain position a transaction is connected at; ancestors starts with the block itself. */
  datatype Context = Context(ancestors: seq<(nat, nat)>, strict: bool, checkSigs: bool)

  const MEMPOOL_POS := Pos(1, 1, 1)

  // ----- Amounts -----

  function SumOut(vout: seq<TxOut>): int {
    if vout == [] then 0 else vout[0].value + SumOut(vout[1..])
  }

  function ValueOut(tx: Tx): int { SumOut(tx.vout) }

  /** 50 coins, halved every 210000 blocks, plus the fees. */
  function GetBlockValue(height: nat, fees: int): int
    requires height / 210000 < 64
  {
    50 * COIN / Pow2(height / 210000) + fees
  }

  // ----- Finding previous transactions -----

  /** The transaction an index entry stands for. */
  function ReadPrev(env: Env, h: Hash, entry: TxIndex): Option<Tx> {
    if entry.pos == MEMPOOL_POS then
      if h in env.mempool then Some(env.mempool[h]) else None
    else if entry.pos in env.disk then Some(env.disk[entry.pos]) else None
  }

  /** The output is indexed, readable and in range on both sides. */
  predicate Fetched(env: Env, cur: Index, o: OutPoint) {
    o.hash in cur &&
    var prev := ReadPrev(env, o.hash, cur[o.hash]);
    prev.Some? && o.n < |prev.value.vout| && o.n < |cur[o.hash].spent|
  }

  function PrevTx(env: Env, cur: Index, o: OutPoint): Tx
    requires Fetched(env, cur, o)
  {
    ReadPrev(env, o.hash, cur[o.hash]).value
  }

  /** Value of the output, zero when it cannot be found. */
  function ValueAt(env: Env, cur: Index, o: OutPoint): int {
    if Fetched(env, cur, o) then PrevTx(env, cur, o).vout[o.n].value else 0
  }

  function SumIn(env: Env, cur: Index, ops: seq<OutPoint>): int {
    if ops == [] then 0 else ValueAt(env, cur, ops[0]) + SumIn(env, cur, ops[1..])
  }

  function ValueIn(env: Env, cur: Index, tx: Tx): int { SumIn(env, cur, tx.Outpoints()) }

  /** Every value and every running total is a valid amount. */
  predicate InputsInRange(env: Env, cur: Index, ops: seq<OutPoint>, total: int) {
    ops == [] ||
    var v := ValueAt(env, cur, ops[0]);
    MoneyRange(v) && MoneyRange(total + v) && InputsInRange(env, cur, ops[1..], total + v)
  }

  // ----- Spending and unspending -----

  function Mark(e: TxIndex, n: nat, pos: DiskPos): TxIndex
    requires n < |e.spent|
  {
    e.(spent := e.spent[n := pos])
  }

  predicate Unspent(cur: Index, o: OutPoint) {
    o.hash in cur && o.n < |cur[o.hash].spent| && cur[o.hash].spent[o.n] == NullPos
  }

  function Spend(cur: Index, ops: seq<OutPoint>, pos: DiskPos): Option<Index>
    decreases |ops|
  {
    if ops == [] then Some(cur)
    else if !Unspent(cur, ops[0]) then None
    else Spend(cur[ops[0].hash := Mark(cur[ops[0].hash], ops[0].n, pos)], ops[1..], pos)
  }

  function Unspend(cur: Index, ops: seq<OutPoint>): Option<Index>
    decreases |ops|
  {
    if ops == [] then Some(cur)
    else if ops[0].hash !in cur || ops[0].n >= |cur[ops[0].hash].spent| then None
    else Unspend(cur[ops[0].hash := Mark(cur[ops[0].hash], ops[0].n, NullPos)], ops[1..])
  }

  // ----- Checks of one transaction -----

  function LegacySigOps(tx: Tx): nat { SigOpsIn(tx.vin) + SigOpsOut(tx.vout) }

  function SigOpsIn(vin: seq<TxIn>): nat {
    if vin == [] then 0 else S.SigOpCount(vin[0].scriptSig, false) + SigOpsIn(vin[1..])
  }

  function SigOpsOut(vout: seq<TxOut>): nat {
    if vout == [] then 0 else S.SigOpCount(vout[0].scriptPubKey, false) + SigOpsOut(vout[1..])
  }

  function P2shSigOps(env: Env, cur: Index, vin: seq<TxIn>): nat {
    if vin == [] then 0
    else
      (if Fetched(env, cur, vin[0].prevout) then
         var spk := PrevTx(env, cur, vin[0].prevout).vout[vin[0].prevout.n].scriptPubKey;
         if S.IsPayToScriptHash(spk) then S.P2shSigOpCount(spk, vin[0].scriptSig) else 0
       else 0)
      + P2shSigOps(env, cur, vin[1..])
  }

  /** Created in one of the last hundred blocks of the context. */
  predicate Immature(ctx: Context, pos: DiskPos) {
    pos.Pos? &&
    exists k :: 0 <= k < |ctx.ancestors| && k < COINBASE_MATURITY && ctx.ancestors[k] == (pos.file, pos.block)
  }

  predicate Mature(env: Env, ctx: Context, cur: Index, o: OutPoint)
    requires Fetched(env, cur, o)
  {
    var prev := PrevTx(env, cur, o);
    prev.IsCoinBase() || prev.IsCoinStake() ==> !Immature(ctx, cur[o.hash].pos)
  }

  predicate VerifySignature(env: Env, prev: Tx, tx: Tx, i: nat, strict: bool)
    requires i < |tx.vin|
  {
    var txin := tx.vin[i];
    && txin.prevout.n < |prev.vout|
    && txin.prevout.hash == prev.hash
    && S.VerifyScript(env.crypto(tx, i), txin.scriptSig, prev.vout[txin.prevout.n].scriptPubKey, strict).ok
  }

  /** FetchInputs finds every input and its output number is in range. */
  predicate InputsFetched(env: Env, cur: Index, tx: Tx) {
    forall i :: 0 <= i < |tx.vin| ==> Fetched(env, cur, tx.vin[i].prevout)
  }

  /** The value rule: a coinstake may at most double its input, others may not create value. */
  predicate ValueRule(env: Env, cur: Index, tx: Tx) {
    var valueIn, valueOut := ValueIn(env, cur, tx), ValueOut(tx);
    if tx.IsCoinStake() then env.coinAgeKnown(tx) && valueOut - valueIn <= valueIn
    else valueIn >= valueOut && MoneyRange(valueIn - valueOut)
  }

  /** ConnectInputs for a transaction that is not a coinbase: None, or the index with its inputs spent. */
  function ConnectInputs(env: Env, ctx: Context, cur: Index, tx: Tx, pos: DiskPos): Option<Index> {
    if && InputsFetched(env, cur, tx)
       && (forall i :: 0 <= i < |tx.vin| ==> Mature(env, ctx, cur, tx.vin[i].prevout))
       && InputsInRange(env, cur, tx.Outpoints(), 0)
       && (ctx.checkSigs ==> forall i :: 0 <= i < |tx.vin| ==>
             VerifySignature(env, PrevTx(env, cur, tx.vin[i].prevout), tx, i, ctx.strict))
       && ValueRule(env, cur, tx)
    then Spend(cur, tx.Outpoints(), pos)
    else None
  }

  // ----- Blocks -----

  predicate CheckTransaction(tx: Tx) {
    && tx.vin != [] && tx.vout != []
    && tx.size <= MAX_BLOCK_SIZE
    && (forall i :: 0 <= i < |tx.vout| ==>
          (tx.vout[i].IsEmpty() ==> tx.IsCoinBase() || tx.IsCoinStake()) && MoneyRange(tx.vout[i].value))
    && OutputsInRange(tx.vout, 0)
    && (forall i, j :: 0 <= i < j < |tx.vin| ==> tx.vin[i].prevout != tx.vin[j].prevout)
    && (if tx.IsCoinBase() then 2 <= |tx.vin[0].scriptSig| <= 100
        else forall i :: 0 <= i < |tx.vin| ==> !tx.vin[i].prevout.IsNull())
  }

  predicate OutputsInRange(vout: seq<TxOut>, total: int) {
    vout == [] || (MoneyRange(total + vout[0].value) && OutputsInRange(vout[1..], total + vout[0].value))
  }

  function LegacySigOpsOf(txs: seq<Tx>): nat {
    if txs == [] then 0 else LegacySigOps(txs[0]) + LegacySigOpsOf(txs[1..])
  }

  function SizeOf(txs: seq<Tx>): nat {
    if txs == [] then 0 else txs[0].size + SizeOf(txs[1..])
  }

  /** Header, transaction count and transactions. */
  function BlockSize(txs: seq<Tx>): nat {
    80 + (if |txs| < 253 then 1 else if |txs| <= 0xffff then 3 else 5) + SizeOf(txs)
  }

  /** The context-free rules; proof of work, timestamps and the Merkle root are headerOk. */
  predicate CheckBlock(env: Env, block: Block) {
    && block.txs != [] && |block.txs| <= MAX_BLOCK_SIZE && BlockSize(block.txs) <= MAX_BLOCK_SIZE
    && env.headerOk(block)
    && block.txs[0].IsCoinBase()
    && (forall i :: 1 <= i < |block.txs| ==> !block.txs[i].IsCoinBase())
    && (forall i :: 2 <= i < |block.txs| ==> !block.txs[i].IsCoinStake())
    && (block.IsProofOfStake() ==> |block.txs[0].vout| == 1 && block.txs[0].vout[0].IsEmpty())
    && (forall i :: 0 <= i < |block.txs| ==> CheckTransaction(block.txs[i]))
    && DistinctHashes(block.txs)
    && LegacySigOpsOf(block.txs) <= MAX_BLOCK_SIGOPS
  }

  predicate DistinctHashes(txs: seq<Tx>) {
    forall i, j :: 0 <= i < j < |txs| ==> txs[i].hash != txs[j].hash
  }

  predicate FullySpent(e: TxIndex) { NullPos !in e.spent }

  /** The rule of BIP 30, read against the index as it was before the block. */
  predicate MayOverwrite(index: Index, h: Hash) { h in index ==> FullySpent(index[h]) }

  /** Totals of the loop over a block's transactions. */
  datatype Totals = Totals(cur: Index, sigOps: nat, fees: int, valueIn: int, valueOut: int)

  datatype Rules = Rules(bip30: bool, bip16: bool)

  function RulesOf(block: Block): Rules {
    Rules(block.time > BIP30_SWITCH_TIME, block.time >= BIP16_SWITCH_TIME)
  }

  /** One turn of ConnectBlock's loop. */
  function ConnectTx(env: Env, ctx: Context, rules: Rules, index: Index, t: Totals, tx: Tx,
                     pos: DiskPos): Option<Totals> {
    if rules.bip30 && !MayOverwrite(index, tx.hash) then None
    else
      var sigOps := t.sigOps + LegacySigOps(tx);
      if sigOps > MAX_BLOCK_SIGOPS then None
      else if tx.IsCoinBase() then
        Some(t.(cur := t.cur[tx.hash := FreshIndex(pos, |tx.vout|)], sigOps := sigOps,
                valueOut := t.valueOut + ValueOut(tx)))
      else ConnectSpending(env, ctx, rules, t, sigOps, tx, pos)
  }

  /** The part for a transaction that spends; sigOps includes its legacy count. */
  function ConnectSpending(env: Env, ctx: Context, rules: Rules, t: Totals, sigOps: nat, tx: Tx,
                           pos: DiskPos): Option<Totals> {
    var allSigOps := if rules.bip16 then sigOps + P2shSigOps(env, t.cur, tx.vin) else sigOps;
    if allSigOps > MAX_BLOCK_SIGOPS then None
    else
      var spent := ConnectInputs(env, ctx, t.cur, tx, pos);
      if spent.None? then None
      else
        var valueIn, valueOut := ValueIn(env, t.cur, tx), ValueOut(tx);
        Some(Totals(spent.value[tx.hash := FreshIndex(pos, |tx.vout|)], allSigOps,
                    if tx.IsCoinStake() then t.fees else t.fees + valueIn - valueOut,
                    t.valueIn + valueIn, t.valueOut + valueOut))
  }

  function ConnectTxs(env: Env, ctx: Context, rules: Rules, index: Index, t: Totals, txs: seq<Tx>, file: nat,
                      block: nat, txPos: nat): Option<Totals>
    decreases |txs|
  {
    if txs == [] then Some(t)
    else
      var t' := ConnectTx(env, ctx, rules, index, t, txs[0], Pos(file, block, txPos));
      if t'.None? then None
      else ConnectTxs(env, ctx, rules, index, t'.value, txs[1..], file, block, txPos + txs[0].size)
  }

  function Begin(index: Index): Totals { Totals(index, 0, 0, 0, 0) }

  /** ConnectBlock: None, or the loop totals; the new index is their cur. */
  function ConnectBlock(env: Env, ctx: Context, height: nat, index: Index, block: Block): Option<Totals>
    requires height / 210000 < 64
  {
    if !CheckBlock(env, block) then None
    else
      var t := ConnectTxs(env, ctx, RulesOf(block), index, Begin(index), block.txs, block.file, block.pos,
                          block.firstTx);
      if t.None? || ValueOut(block.txs[0]) > GetBlockValue(height, t.value.fees) then None else t
  }

  /** DisconnectInputs: give back the inputs, then forget the transaction. */
  function DisconnectTx(cur: Index, tx: Tx): Option<Index> {
    var r := if tx.IsCoinBase() then Some(cur) else Unspend(cur, tx.Outpoints());
    if r.None? then None else Some(r.value - {tx.hash})
  }

  /** DisconnectBlock works from the last transaction to the first. */
  function DisconnectTxs(cur: Index, txs: seq<Tx>): Option<Index>
    decreases |txs|
  {
    if txs == [] then Some(cur)
    else
      var r := DisconnectTxs(cur, txs[1..]);
      if r.None? then None else DisconnectTx(r.value, txs[0])
  }
}
