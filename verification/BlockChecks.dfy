/**
 * The context-free checks of transactions and blocks as the code's loops.
 * Source: src/main.cpp, CTransaction::CheckTransaction, CBlock::CheckBlock, GetLegacySigOpCount.
 */
module BlockChecks {
  import opened Ledger
  import S = SigOps

  ghost predicate OutputsUpTo(tx: Tx, n: nat)
    requires n <= |tx.vout|
  {
    forall i :: 0 <= i < n ==>
      (tx.vout[i].IsEmpty() ==> tx.IsCoinBase() || tx.IsCoinStake()) && MoneyRange(tx.vout[i].value)
  }

  ghost predicate DistinctUpTo(tx: Tx, n: nat)
    requires n <= |tx.vin|
  {
    forall i, j :: 0 <= i < j < n ==> tx.vin[i].prevout != tx.vin[j].prevout
  }

  method CheckOutputs(tx: Tx) returns (ok: bool)
    ensures ok <==> OutputsUpTo(tx, |tx.vout|) && OutputsInRange(tx.vout, 0)
  {
    var total := 0;
    assert tx.vout[0..] == tx.vout;
    for i := 0 to |tx.vout|
      invariant OutputsUpTo(tx, i) && OutputsInRange(tx.vout, 0) == OutputsInRange(tx.vout[i..], total)
    {
      var txout := tx.vout[i];
      assert tx.vout[i..][1..] == tx.vout[i + 1..];
      if txout.IsEmpty() && !tx.IsCoinBase() && !tx.IsCoinStake() { return false; }
      if txout.value < 0 || txout.value > MAX_MONEY { return false; }
      total := total + txout.value;
      if !MoneyRange(total) { return false; }
    }
    ok := true;
  }

  method CheckInputs(tx: Tx) returns (ok: bool)
    ensures ok <==> DistinctUpTo(tx, |tx.vin|)
  {
    var seen: set<OutPoint> := {};
    for i := 0 to |tx.vin|
      invariant DistinctUpTo(tx, i) && forall o :: o in seen <==> exists j :: 0 <= j < i && tx.vin[j].prevout == o
    {
      if tx.vin[i].prevout in seen {
        var j :| 0 <= j < i && tx.vin[j].prevout == tx.vin[i].prevout;
        return false;
      }
      seen := seen + {tx.vin[i].prevout};
    }
    ok := true;
  }

  /** CTransaction::CheckTransaction accepts exactly the transactions that meet the context-free rules. */
  method CheckTx(tx: Tx) returns (ok: bool)
    ensures ok == CheckTransaction(tx)
  {
    if tx.vin == [] || tx.vout == [] || tx.size > MAX_BLOCK_SIZE { return false; }
    var outputs := CheckOutputs(tx);
    if !outputs { return false; }
    var inputs := CheckInputs(tx);
    if !inputs { return false; }
    if tx.IsCoinBase() {
      return 2 <= |tx.vin[0].scriptSig| <= 100;
    }
    for i := 0 to |tx.vin|
      invariant forall j :: 0 <= j < i ==> !tx.vin[j].prevout.IsNull()
    {
      if tx.vin[i].prevout.IsNull() { return false; }
    }
    ok := true;
  }

  /** Both loops of GetLegacySigOpCount. */
  method GetLegacySigOpCount(tx: Tx) returns (n: nat)
    ensures n == LegacySigOps(tx)
  {
    n := 0;
    assert tx.vin[0..] == tx.vin;
    for i := 0 to |tx.vin|
      invariant SigOpsIn(tx.vin) == n + SigOpsIn(tx.vin[i..])
    {
      assert tx.vin[i..][1..] == tx.vin[i + 1..];
      var k := S.GetSigOpCount(tx.vin[i].scriptSig, false);
      n := n + k;
    }
    assert tx.vout[0..] == tx.vout;
    for i := 0 to |tx.vout|
      invariant LegacySigOps(tx) == n + SigOpsOut(tx.vout[i..])
    {
      assert tx.vout[i..][1..] == tx.vout[i + 1..];
      var k := S.GetSigOpCount(tx.vout[i].scriptPubKey, false);
      n := n + k;
    }
  }

  function HashSet(txs: seq<Tx>): set<Hash> { set i | 0 <= i < |txs| :: txs[i].hash }

  ghost predicate UniqueUpTo(txs: seq<Tx>, n: nat)
    requires n <= |txs|
  {
    forall i, j :: 0 <= i < j < n ==> txs[i].hash != txs[j].hash
  }

  lemma HashSetGrows(txs: seq<Tx>, n: nat)
    requires n < |txs|
    ensures HashSet(txs[..n + 1]) == HashSet(txs[..n]) + {txs[n].hash}
    ensures UniqueUpTo(txs, n + 1) <==> UniqueUpTo(txs, n) && txs[n].hash !in HashSet(txs[..n])
  {
    var a, b := txs[..n], txs[..n + 1];
    assert forall i :: 0 <= i < n ==> b[i] == a[i] == txs[i];
    assert b[n] == txs[n];
    if txs[n].hash in HashSet(a) {
      var i :| 0 <= i < n && a[i].hash == txs[n].hash;
      assert txs[i].hash == txs[n].hash;
    } else {
      assert forall i :: 0 <= i < n ==> a[i].hash in HashSet(a);
    }
  }

  /** As many different hashes as transactions, exactly when no hash repeats. */
  lemma {:induction false} DistinctIffCount(txs: seq<Tx>, n: nat)
    requires n <= |txs|
    ensures |HashSet(txs[..n])| <= n
    ensures |HashSet(txs[..n])| == n <==> UniqueUpTo(txs, n)
  {
    if n > 0 {
      DistinctIffCount(txs, n - 1);
      HashSetGrows(txs, n - 1);
      hide HashSet, UniqueUpTo;
      var last := txs[n - 1].hash;
      if last in HashSet(txs[..n - 1]) {
        assert HashSet(txs[..n]) == HashSet(txs[..n - 1]);
      }
    }
  }

  method UniqueHashes(txs: seq<Tx>) returns (ok: bool)
    ensures ok == DistinctHashes(txs)
  {
    var unique: set<Hash> := {};
    for i := 0 to |txs|
      invariant unique == HashSet(txs[..i])
    {
      HashSetGrows(txs, i);
      unique := unique + {txs[i].hash};
    }
    DistinctIffCount(txs, |txs|);
    ok := |unique| == |txs|;
  }

  method CountSigOps(txs: seq<Tx>) returns (n: nat)
    ensures n == LegacySigOpsOf(txs)
  {
    n := 0;
    assert txs[0..] == txs;
    for i := 0 to |txs|
      invariant LegacySigOpsOf(txs) == n + LegacySigOpsOf(txs[i..])
    {
      assert txs[i..][1..] == txs[i + 1..];
      var k := GetLegacySigOpCount(txs[i]);
      n := n + k;
    }
  }

  /** CBlock::CheckBlock accepts exactly the well-formed blocks, with the header's own checks as one answer. */
  method CheckBlockRules(env: Env, block: Block) returns (ok: bool)
    ensures ok == CheckBlock(env, block)
  {
    hide CheckTransaction, LegacySigOpsOf, DistinctHashes, BlockSize;
    var vtx := block.txs;
    if vtx == [] || |vtx| > MAX_BLOCK_SIZE || BlockSize(vtx) > MAX_BLOCK_SIZE { return false; }
    if !env.headerOk(block) || !vtx[0].IsCoinBase() { return false; }
    for i := 1 to |vtx|
      invariant forall j :: 1 <= j < i ==> !vtx[j].IsCoinBase()
    {
      if vtx[i].IsCoinBase() { return false; }
    }
    var i := 2;
    while i < |vtx|
      invariant 2 <= i && forall j :: 2 <= j < i && j < |vtx| ==> !vtx[j].IsCoinStake()
    {
      if vtx[i].IsCoinStake() { return false; }
      i := i + 1;
    }
    if block.IsProofOfStake() && (|vtx[0].vout| != 1 || !vtx[0].vout[0].IsEmpty()) { return false; }
    for i := 0 to |vtx|
      invariant forall j :: 0 <= j < i ==> CheckTransaction(vtx[j])
    {
      var txOk := CheckTx(vtx[i]);
      if !txOk { return false; }
    }
    var unique := UniqueHashes(vtx);
    if !unique { return false; }
    var sigOps := CountSigOps(vtx);
    ok := sigOps <= MAX_BLOCK_SIGOPS;
  }
}
