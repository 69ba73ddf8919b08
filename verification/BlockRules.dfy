/**
 * The rules a block must meet, stated by the transactions its inputs spend:
 * a block connects if and only if it meets them.
 * Source: src/main.cpp, FetchInputs, ConnectInputs, ConnectBlock; src/script.cpp, VerifySignature.
 */
module BlockRules {
  import opened Bytes
  import opened Ledger
  import opened Undo
  import T = Template
  import S = SigOps

  // ----- The transactions an input list spends -----

  /** prev is the transaction stored where the index entry of h says. */
  ghost predicate StoredAt(env: Env, h: Hash, entry: TxIndex, prev: Tx) {
    if entry.pos == Pos(1, 1, 1) then h in env.mempool && env.mempool[h] == prev
    else entry.pos in env.disk && env.disk[entry.pos] == prev
  }

  /** Input number i spends output number prevout.n of prev, which is indexed, unspent and old enough. */
  ghost predicate SpendsOutput(env: Env, ctx: Context, cur: Index, tx: Tx, i: nat, prev: Tx)
    requires i < |tx.vin|
  {
    var o := tx.vin[i].prevout;
    && o.hash in cur && StoredAt(env, o.hash, cur[o.hash], prev)
    && o.n < |prev.vout| && o.n < |cur[o.hash].spent| && cur[o.hash].spent[o.n] == NullPos
    && (prev.IsCoinBase() || prev.IsCoinStake() ==> !AmongLast(ctx, cur[o.hash].pos, 100))
  }

  /** The position lies in one of the last `count` blocks of the context. */
  ghost predicate AmongLast(ctx: Context, pos: DiskPos, count: nat) {
    pos.Pos? && exists k :: 0 <= k < count && k < |ctx.ancestors| && ctx.ancestors[k] == (pos.file, pos.block)
  }

  /** The script of input i is accepted by the script of the output it spends. */
  ghost predicate Signed(env: Env, strict: bool, tx: Tx, i: nat, prev: Tx)
    requires i < |tx.vin| && tx.vin[i].prevout.n < |prev.vout|
  {
    && prev.hash == tx.vin[i].prevout.hash
    && S.VerifyScript(env.crypto(tx, i), tx.vin[i].scriptSig,
                      prev.vout[tx.vin[i].prevout.n].scriptPubKey, strict).ok
  }

  /** The values of the inputs, taken from the outputs they spend. */
  function Amounts(tx: Tx, prevs: seq<Tx>): (v: seq<int>)
    requires |tx.vin| == |prevs| && forall i :: 0 <= i < |prevs| ==> tx.vin[i].prevout.n < |prevs[i].vout|
    ensures |v| == |prevs|
    ensures forall i :: 0 <= i < |v| ==> v[i] == prevs[i].vout[tx.vin[i].prevout.n].value
  {
    seq(|prevs|, i requires 0 <= i < |prevs| => prevs[i].vout[tx.vin[i].prevout.n].value)
  }

  /** The sum of the first n. */
  function Total(v: seq<int>, n: nat): int
    requires n <= |v|
  {
    if n == 0 then 0 else Total(v, n - 1) + v[n - 1]
  }

  /** Every amount from number i on, and every running total after that, is a valid amount. */
  ghost predicate AmountsInRange(v: seq<int>, i: nat) {
    && (forall j :: i <= j < |v| ==> 0 <= v[j] <= MAX_MONEY)
    && (forall n :: i < n <= |v| ==> 0 <= Total(v, n) <= MAX_MONEY)
  }

  /** A coinstake pays out at most twice what it spends, any other transaction at most what it spends. */
  ghost predicate Affordable(env: Env, tx: Tx, paid: int) {
    if tx.IsCoinStake() then env.coinAgeKnown(tx) && ValueOut(tx) <= 2 * paid
    else 0 <= paid - ValueOut(tx) <= MAX_MONEY
  }

  ghost predicate Distinct(tx: Tx) {
    forall i, j :: 0 <= i < j < |tx.vin| ==> tx.vin[i].prevout != tx.vin[j].prevout
  }

  /** All inputs of tx spend outputs of prevs, by the rules. */
  ghost predicate Spends(env: Env, ctx: Context, cur: Index, tx: Tx, prevs: seq<Tx>) {
    && |prevs| == |tx.vin|
    && (forall i :: 0 <= i < |prevs| ==> SpendsOutput(env, ctx, cur, tx, i, prevs[i]))
    && Distinct(tx)
    && AmountsInRange(Amounts(tx, prevs), 0)
    && (ctx.checkSigs ==> forall i :: 0 <= i < |prevs| ==> Signed(env, ctx.strict, tx, i, prevs[i]))
    && Affordable(env, tx, Total(Amounts(tx, prevs), |prevs|))
  }

  lemma {:induction false} TotalIs(env: Env, cur: Index, ops: seq<OutPoint>, v: seq<int>, i: nat)
    requires |v| == |ops| && i <= |v| && forall j :: 0 <= j < |v| ==> v[j] == ValueAt(env, cur, ops[j])
    ensures Total(v, i) + SumIn(env, cur, ops[i..]) == Total(v, |v|)
    ensures InputsInRange(env, cur, ops[i..], Total(v, i)) <==> AmountsInRange(v, i)
    decreases |v| - i
  {
    hide ValueAt;
    if i < |v| {
      assert ops[i..][0] == ops[i] && ops[i..][1..] == ops[i + 1..];
      assert Total(v, i + 1) == Total(v, i) + v[i];
      TotalIs(env, cur, ops, v, i + 1);
    }
  }

  lemma AmountsAre(env: Env, cur: Index, tx: Tx, prevs: seq<Tx>)
    requires InputsFetched(env, cur, tx) && prevs == Previous(env, cur, tx)
    ensures forall i :: 0 <= i < |prevs| ==> tx.vin[i].prevout.n < |prevs[i].vout|
    ensures ValueIn(env, cur, tx) == Total(Amounts(tx, prevs), |prevs|)
    ensures InputsInRange(env, cur, tx.Outpoints(), 0) <==> AmountsInRange(Amounts(tx, prevs), 0)
  {
    forall i | 0 <= i < |prevs| ensures tx.vin[i].prevout.n < |prevs[i].vout| {
      assert Fetched(env, cur, tx.vin[i].prevout);
    }
    var v, ops := Amounts(tx, prevs), tx.Outpoints();
    forall i | 0 <= i < |v| ensures v[i] == ValueAt(env, cur, ops[i]) {
      assert Fetched(env, cur, tx.vin[i].prevout);
    }
    assert ops[0..] == ops;
    TotalIs(env, cur, ops, v, 0);
    assert Total(v, 0) == 0;
    hide AmountsInRange, Total, Fetched;
  }

  /** The transactions the index leads to, which are the only ones an input list can spend. */
  function Previous(env: Env, cur: Index, tx: Tx): (prevs: seq<Tx>)
    requires InputsFetched(env, cur, tx)
    ensures |prevs| == |tx.vin|
    ensures forall i :: 0 <= i < |prevs| ==> prevs[i] == PrevTx(env, cur, tx.vin[i].prevout)
  {
    seq(|tx.vin|, i requires 0 <= i < |tx.vin| => PrevTx(env, cur, tx.vin[i].prevout))
  }

  lemma SpentTransactions(env: Env, ctx: Context, cur: Index, tx: Tx, prevs: seq<Tx>)
    requires |prevs| == |tx.vin|
    requires forall i :: 0 <= i < |prevs| ==> SpendsOutput(env, ctx, cur, tx, i, prevs[i])
    ensures InputsFetched(env, cur, tx) && prevs == Previous(env, cur, tx)
    ensures forall i :: 0 <= i < |prevs| ==> Mature(env, ctx, cur, tx.vin[i].prevout)
    ensures forall i :: 0 <= i < |prevs| ==> Unspent(cur, tx.vin[i].prevout)
  {
    forall i | 0 <= i < |prevs|
      ensures Fetched(env, cur, tx.vin[i].prevout) && prevs[i] == PrevTx(env, cur, tx.vin[i].prevout)
    {
      assert SpendsOutput(env, ctx, cur, tx, i, prevs[i]);
    }
    forall i | 0 <= i < |prevs|
      ensures Mature(env, ctx, cur, tx.vin[i].prevout) && Unspent(cur, tx.vin[i].prevout)
    {
      assert SpendsOutput(env, ctx, cur, tx, i, prevs[i]);
    }
  }

  lemma OutputsAre(tx: Tx)
    ensures forall o :: o in tx.Outpoints() <==> exists i :: 0 <= i < |tx.vin| && tx.vin[i].prevout == o
  {
    var ops := tx.Outpoints();
    forall o | o in ops ensures exists i :: 0 <= i < |tx.vin| && tx.vin[i].prevout == o {
      var i :| 0 <= i < |ops| && ops[i] == o;
    }
    forall i | 0 <= i < |tx.vin| ensures tx.vin[i].prevout in ops {
      assert ops[i] == tx.vin[i].prevout;
    }
  }

  // ----- The conditions of ConnectInputs, one by one -----

  ghost predicate AllMature(env: Env, ctx: Context, cur: Index, tx: Tx)
    requires InputsFetched(env, cur, tx)
  {
    forall i :: 0 <= i < |tx.vin| ==> Mature(env, ctx, cur, tx.vin[i].prevout)
  }

  ghost predicate AllVerified(env: Env, ctx: Context, cur: Index, tx: Tx)
    requires InputsFetched(env, cur, tx)
  {
    ctx.checkSigs ==>
      forall i :: 0 <= i < |tx.vin| ==> VerifySignature(env, PrevTx(env, cur, tx.vin[i].prevout), tx, i, ctx.strict)
  }

  lemma ConditionsOf(env: Env, ctx: Context, cur: Index, tx: Tx, pos: DiskPos)
    ensures ConnectInputs(env, ctx, cur, tx, pos).Some?
       <==> InputsFetched(env, cur, tx) && AllMature(env, ctx, cur, tx) && InputsInRange(env, cur, tx.Outpoints(), 0)
            && AllVerified(env, ctx, cur, tx) && ValueRule(env, cur, tx) && Spend(cur, tx.Outpoints(), pos).Some?
  {
    hide Mature, VerifySignature, InputsInRange, Spend, ValueRule, Fetched, PrevTx;
  }

  lemma VerifiedIsSigned(env: Env, ctx: Context, cur: Index, tx: Tx)
    requires InputsFetched(env, cur, tx)
    ensures var prevs := Previous(env, cur, tx);
            && (forall i :: 0 <= i < |prevs| ==> tx.vin[i].prevout.n < |prevs[i].vout|)
            && (AllVerified(env, ctx, cur, tx) <==>
                (ctx.checkSigs ==> forall i :: 0 <= i < |prevs| ==> Signed(env, ctx.strict, tx, i, prevs[i])))
  {
    hide S.VerifyScript;
    var prevs := Previous(env, cur, tx);
    forall i | 0 <= i < |prevs|
      ensures tx.vin[i].prevout.n < |prevs[i].vout|
      ensures Signed(env, ctx.strict, tx, i, prevs[i]) <==> VerifySignature(env, prevs[i], tx, i, ctx.strict)
    {
      assert Fetched(env, cur, tx.vin[i].prevout);
    }
    hide Signed, VerifySignature, Fetched, PrevTx;
  }

  lemma MatureIsOldEnough(env: Env, ctx: Context, cur: Index, tx: Tx, pos: DiskPos)
    requires InputsFetched(env, cur, tx) && AllMature(env, ctx, cur, tx)
    requires pos != NullPos && Spend(cur, tx.Outpoints(), pos).Some?
    ensures var prevs := Previous(env, cur, tx);
            forall i :: 0 <= i < |prevs| ==> SpendsOutput(env, ctx, cur, tx, i, prevs[i])
    ensures Distinct(tx)
  {
    var prevs, ops := Previous(env, cur, tx), tx.Outpoints();
    SpendMarks(cur, ops, pos);
    forall i | 0 <= i < |prevs| ensures SpendsOutput(env, ctx, cur, tx, i, prevs[i]) {
      assert ops[i] in ops && Unspent(cur, ops[i]);
      assert Mature(env, ctx, cur, tx.vin[i].prevout);
    }
    forall i, j | 0 <= i < j < |tx.vin| ensures tx.vin[i].prevout != tx.vin[j].prevout {
      assert ops[i] != ops[j];
    }
  }

  lemma SpendsUnspent(env: Env, ctx: Context, cur: Index, tx: Tx, prevs: seq<Tx>, pos: DiskPos)
    requires pos != NullPos && |prevs| == |tx.vin| && Distinct(tx)
    requires forall i :: 0 <= i < |prevs| ==> SpendsOutput(env, ctx, cur, tx, i, prevs[i])
    ensures InputsFetched(env, cur, tx) && prevs == Previous(env, cur, tx) && AllMature(env, ctx, cur, tx)
    ensures Spend(cur, tx.Outpoints(), pos).Some?
  {
    SpentTransactions(env, ctx, cur, tx, prevs);
    hide SpendsOutput, Unspent, Fetched, Spend;
    OutputsAre(tx);
    SpendSucceeds(cur, tx.Outpoints(), pos);
  }

  lemma SpendsConnects(env: Env, ctx: Context, cur: Index, tx: Tx, prevs: seq<Tx>, pos: DiskPos)
    requires pos != NullPos && Spends(env, ctx, cur, tx, prevs)
    ensures ConnectInputs(env, ctx, cur, tx, pos).Some?
    ensures InputsFetched(env, cur, tx) && prevs == Previous(env, cur, tx)
    ensures ValueIn(env, cur, tx) == Total(Amounts(tx, prevs), |prevs|)
  {
    hide ConnectInputs, SpendsOutput, Signed, AllMature, AllVerified, AmountsInRange, InputsInRange;
    hide Spend, Total, ValueIn, ValueOut, InputsFetched, Distinct;
    SpendsUnspent(env, ctx, cur, tx, prevs, pos);
    AmountsAre(env, cur, tx, prevs);
    VerifiedIsSigned(env, ctx, cur, tx);
    ConditionsOf(env, ctx, cur, tx, pos);
  }

  lemma ConnectsSpends(env: Env, ctx: Context, cur: Index, tx: Tx, pos: DiskPos)
    requires pos != NullPos && ConnectInputs(env, ctx, cur, tx, pos).Some?
    ensures InputsFetched(env, cur, tx) && Spends(env, ctx, cur, tx, Previous(env, cur, tx))
    ensures ValueIn(env, cur, tx) == Total(Amounts(tx, Previous(env, cur, tx)), |tx.vin|)
  {
    hide ConnectInputs, SpendsOutput, Signed, AllMature, AllVerified, AmountsInRange, InputsInRange;
    hide Spend, Total, ValueIn, ValueOut, InputsFetched, Distinct;
    ConditionsOf(env, ctx, cur, tx, pos);
    AmountsAre(env, cur, tx, Previous(env, cur, tx));
    VerifiedIsSigned(env, ctx, cur, tx);
    MatureIsOldEnough(env, ctx, cur, tx, pos);
  }

  /** ConnectInputs accepts exactly the transactions that spend by the rules, and spends what they name. */
  lemma ConnectsIffSpends(env: Env, ctx: Context, cur: Index, tx: Tx, pos: DiskPos)
    requires pos != NullPos
    ensures ConnectInputs(env, ctx, cur, tx, pos).Some? <==> exists prevs: seq<Tx> :: Spends(env, ctx, cur, tx, prevs)
  {
    if prevs: seq<Tx> :| Spends(env, ctx, cur, tx, prevs) {
      SpendsConnects(env, ctx, cur, tx, prevs, pos);
    }
    if ConnectInputs(env, ctx, cur, tx, pos).Some? {
      ConnectsSpends(env, ctx, cur, tx, pos);
    }
  }

  // ----- One turn of ConnectBlock's loop -----

  /** The signature operations of the redeem scripts of the first n inputs. */
  function RedeemSigOps(tx: Tx, prevs: seq<Tx>, n: nat): nat
    requires n <= |prevs| == |tx.vin| && forall i :: 0 <= i < |prevs| ==> tx.vin[i].prevout.n < |prevs[i].vout|
  {
    if n == 0 then 0
    else
      var output := prevs[n - 1].vout[tx.vin[n - 1].prevout.n].scriptPubKey;
      RedeemSigOps(tx, prevs, n - 1)
      + (if S.IsPayToScriptHash(output) then S.P2shSigOpCount(output, tx.vin[n - 1].scriptSig) else 0)
  }

  lemma {:induction false} RedeemSigOpsAre(env: Env, cur: Index, tx: Tx, prevs: seq<Tx>, n: nat)
    requires InputsFetched(env, cur, tx) && prevs == Previous(env, cur, tx) && n <= |prevs|
    requires forall i :: 0 <= i < |prevs| ==> tx.vin[i].prevout.n < |prevs[i].vout|
    ensures RedeemSigOps(tx, prevs, n) + P2shSigOps(env, cur, tx.vin[n..]) == P2shSigOps(env, cur, tx.vin)
    decreases n
  {
    hide Fetched, PrevTx;
    hide S.P2shSigOpCount, S.IsPayToScriptHash;
    if n == 0 {
      assert tx.vin[0..] == tx.vin;
    } else {
      RedeemSigOpsAre(env, cur, tx, prevs, n - 1);
      assert tx.vin[n - 1..][0] == tx.vin[n - 1] && tx.vin[n - 1..][1..] == tx.vin[n..];
      assert Fetched(env, cur, tx.vin[n - 1].prevout);
    }
  }

  /** No entry of that hash with an unspent output, unless the rule is not yet in force. */
  ghost predicate NotRepeated(rules: Rules, index: Index, h: Hash) {
    rules.bip30 && h in index ==> forall n :: 0 <= n < |index[h].spent| ==> index[h].spent[n] != NullPos
  }

  /** b is a with the inputs of tx spent at pos, and then tx itself with every output free. */
  ghost predicate Moves(a: Index, b: Index, tx: Tx, pos: DiskPos) {
    && b.Keys == a.Keys + {tx.hash}
    && b[tx.hash].pos == pos && |b[tx.hash].spent| == |tx.vout|
    && (forall n :: 0 <= n < |tx.vout| ==> b[tx.hash].spent[n] == NullPos)
    && forall h :: h in a && h != tx.hash ==>
         b[h].pos == a[h].pos && |b[h].spent| == |a[h].spent|
         && forall n :: 0 <= n < |a[h].spent| ==>
              b[h].spent[n] == if !tx.IsCoinBase() && OutPoint(h, n) in tx.Outpoints() then pos else a[h].spent[n]
  }

  /** tx spends prevs by the rules, and their redeem scripts stay within the limit on signature operations. */
  ghost predicate SpendsWithin(env: Env, ctx: Context, rules: Rules, cur: Index, tx: Tx, prevs: seq<Tx>, sigOps: nat) {
    && Spends(env, ctx, cur, tx, prevs)
    && (rules.bip16 ==> sigOps + RedeemSigOps(tx, prevs, |prevs|) <= MAX_BLOCK_SIGOPS)
  }

  /** A transaction connects exactly when the limits hold and it is a coinbase or spends by the rules. */
  ghost predicate TxFollows(env: Env, ctx: Context, rules: Rules, index: Index, t: Totals, tx: Tx) {
    var legacy := t.sigOps + LegacySigOps(tx);
    && NotRepeated(rules, index, tx.hash) && legacy <= MAX_BLOCK_SIGOPS
    && (tx.IsCoinBase() ||
        exists prevs: seq<Tx> :: SpendsWithin(env, ctx, rules, t.cur, tx, prevs, legacy))
  }

  lemma SpendingConnectsIff(env: Env, ctx: Context, rules: Rules, t: Totals, sigOps: nat, tx: Tx, pos: DiskPos)
    requires pos != NullPos && sigOps <= MAX_BLOCK_SIGOPS
    ensures ConnectSpending(env, ctx, rules, t, sigOps, tx, pos).Some?
       <==> exists prevs: seq<Tx> :: SpendsWithin(env, ctx, rules, t.cur, tx, prevs, sigOps)
  {
    hide ConnectInputs, P2shSigOps, InputsFetched, AmountsInRange, Distinct, SpendsOutput, Signed, Affordable;
    if prevs: seq<Tx> :| SpendsWithin(env, ctx, rules, t.cur, tx, prevs, sigOps) {
      SpendsConnects(env, ctx, t.cur, tx, prevs, pos);
      RedeemCounted(env, ctx, t.cur, tx, prevs);
    }
    if ConnectSpending(env, ctx, rules, t, sigOps, tx, pos).Some? {
      ConnectsSpends(env, ctx, t.cur, tx, pos);
      var prevs := Previous(env, t.cur, tx);
      RedeemCounted(env, ctx, t.cur, tx, prevs);
      assert SpendsWithin(env, ctx, rules, t.cur, tx, prevs, sigOps);
    }
  }

  /** One turn of the loop accepts exactly the transactions that follow the rules. */
  lemma TxConnectsIff(env: Env, ctx: Context, rules: Rules, index: Index, t: Totals, tx: Tx, pos: DiskPos)
    requires pos != NullPos
    ensures ConnectTx(env, ctx, rules, index, t, tx, pos).Some? <==> TxFollows(env, ctx, rules, index, t, tx)
  {
    hide ConnectSpending, LegacySigOps, SpendsWithin;
    if !tx.IsCoinBase() && t.sigOps + LegacySigOps(tx) <= MAX_BLOCK_SIGOPS {
      SpendingConnectsIff(env, ctx, rules, t, t.sigOps + LegacySigOps(tx), tx, pos);
    }
  }

  lemma RedeemCounted(env: Env, ctx: Context, cur: Index, tx: Tx, prevs: seq<Tx>)
    requires InputsFetched(env, cur, tx) && prevs == Previous(env, cur, tx) && Spends(env, ctx, cur, tx, prevs)
    ensures RedeemSigOps(tx, prevs, |prevs|) == P2shSigOps(env, cur, tx.vin)
  {
    RedeemSigOpsAre(env, cur, tx, prevs, |prevs|);
  }

  /** The fees and signature operations added: a coinbase and a coinstake leave no fee. */
  ghost predicate Tallied(env: Env, ctx: Context, rules: Rules, t: Totals, after: Totals, tx: Tx) {
    if tx.IsCoinBase() then after.fees == t.fees && after.sigOps == t.sigOps + LegacySigOps(tx)
    else exists prevs: seq<Tx> :: TalliedFrom(env, ctx, rules, t, after, tx, prevs)
  }

  ghost predicate TalliedFrom(env: Env, ctx: Context, rules: Rules, t: Totals, after: Totals, tx: Tx, prevs: seq<Tx>) {
    && Spends(env, ctx, t.cur, tx, prevs)
    && after.fees - t.fees
       == (if tx.IsCoinStake() then 0 else Total(Amounts(tx, prevs), |prevs|) - ValueOut(tx))
    && after.sigOps - t.sigOps
       == LegacySigOps(tx) + (if rules.bip16 then RedeemSigOps(tx, prevs, |prevs|) else 0)
  }

  lemma CreatedEntry(a: Index, b: Index, tx: Tx, pos: DiskPos)
    requires Connected(a, b, tx, pos) && pos != NullPos
    ensures Moves(a, b, tx, pos)
  {
    var ops := tx.Outpoints();
    if !tx.IsCoinBase() {
      SpendMarks(a, ops, pos);
      var s := Spend(a, ops, pos).value;
      hide Spend;
      assert s.Keys == a.Keys;
      assert forall h :: h in a && h != tx.hash ==> b[h] == s[h];
    }
  }

  lemma SpendingTallies(env: Env, ctx: Context, rules: Rules, index: Index, t: Totals, tx: Tx, pos: DiskPos)
    requires pos != NullPos && !tx.IsCoinBase()
    requires ConnectTx(env, ctx, rules, index, t, tx, pos).Some?
    ensures Tallied(env, ctx, rules, t, ConnectTx(env, ctx, rules, index, t, tx, pos).value, tx)
  {
    hide Spend, LegacySigOps, P2shSigOps, Spends, InputsFetched, Total, ValueOut, ValueIn, ConnectInputs;
    var after := ConnectTx(env, ctx, rules, index, t, tx, pos).value;
    ConnectsSpends(env, ctx, t.cur, tx, pos);
    var prevs := Previous(env, t.cur, tx);
    RedeemCounted(env, ctx, t.cur, tx, prevs);
    assert TalliedFrom(env, ctx, rules, t, after, tx, prevs);
  }

  /** What one turn of the loop changes. */
  lemma TxMoves(env: Env, ctx: Context, rules: Rules, index: Index, t: Totals, tx: Tx, pos: DiskPos)
    requires pos != NullPos && ConnectTx(env, ctx, rules, index, t, tx, pos).Some?
    ensures var after := ConnectTx(env, ctx, rules, index, t, tx, pos).value;
            Moves(t.cur, after.cur, tx, pos) && Tallied(env, ctx, rules, t, after, tx)
  {
    hide Moves, Connected, LegacySigOps;
    var after := ConnectTx(env, ctx, rules, index, t, tx, pos).value;
    ConnectTxConnects(env, ctx, rules, index, t, tx, pos);
    CreatedEntry(t.cur, after.cur, tx, pos);
    if !tx.IsCoinBase() {
      hide ConnectTx;
      SpendingTallies(env, ctx, rules, index, t, tx, pos);
    }
  }

  // ----- Blocks -----

  /** The totals, and the index, after the first k transactions of the block. */
  function AfterTxs(env: Env, ctx: Context, index: Index, block: Block, k: nat): Option<Totals>
    requires k <= |block.txs|
  {
    ConnectTxs(env, ctx, RulesOf(block), index, Begin(index), block.txs[..k], block.file, block.pos, block.firstTx)
  }

  function PosOf(block: Block, k: nat): DiskPos
    requires k <= |block.txs|
  {
    Pos(block.file, block.pos, block.firstTx + SizeOf(block.txs[..k]))
  }

  /** The turns of the loop, one after the other. */
  lemma AfterNext(env: Env, ctx: Context, index: Index, block: Block, k: nat)
    requires k < |block.txs|
    ensures AfterTxs(env, ctx, index, block, 0) == Some(Begin(index))
    ensures AfterTxs(env, ctx, index, block, k + 1)
         == (var t := AfterTxs(env, ctx, index, block, k);
             if t.None? then None
             else ConnectTx(env, ctx, RulesOf(block), index, t.value, block.txs[k], PosOf(block, k)))
  {
    hide ConnectTx;
    assert block.txs[..k + 1] == block.txs[..k] + [block.txs[k]];
    T.ConnectTxsSnoc(env, ctx, RulesOf(block), index, Begin(index), block.txs[..k], block.txs[k], block.file,
                     block.pos, block.firstTx);
  }

  /** Transaction k follows the rules on what the ones before it left. */
  ghost predicate Follows(env: Env, ctx: Context, index: Index, block: Block, k: nat)
    requires k < |block.txs|
  {
    var t := AfterTxs(env, ctx, index, block, k);
    t.Some? && TxFollows(env, ctx, RulesOf(block), index, t.value, block.txs[k])
  }

  lemma {:induction false} PrefixConnectsIff(env: Env, ctx: Context, index: Index, block: Block, k: nat)
    requires k <= |block.txs|
    ensures AfterTxs(env, ctx, index, block, k).Some?
       <==> forall j :: 0 <= j < k ==> Follows(env, ctx, index, block, j)
  {
    hide AfterTxs, TxFollows;
    if k > 0 {
      var j := k - 1;
      PrefixConnectsIff(env, ctx, index, block, j);
      AfterNext(env, ctx, index, block, j);
      var t := AfterTxs(env, ctx, index, block, j);
      if t.Some? {
        TxConnectsIff(env, ctx, RulesOf(block), index, t.value, block.txs[j], PosOf(block, j));
      }
      hide ConnectTx;
      assert AfterTxs(env, ctx, index, block, k).Some? <==> Follows(env, ctx, index, block, j);
    } else {
      NoTxs(env, ctx, index, block);
    }
  }

  lemma NoTxs(env: Env, ctx: Context, index: Index, block: Block)
    ensures AfterTxs(env, ctx, index, block, 0) == Some(Begin(index))
  {
  }

  /**
   * A block connects if and only if it is well formed, all its transactions follow the rules, and it mints
   * no more than allowed.
   */
  lemma BlockConnectsIff(env: Env, ctx: Context, height: nat, index: Index, block: Block)
    requires height / 210000 < 64
    ensures var n := |block.txs|;
            ConnectBlock(env, ctx, height, index, block).Some?
            <==> CheckBlock(env, block) && (forall k :: 0 <= k < n ==> Follows(env, ctx, index, block, k))
                 && AfterTxs(env, ctx, index, block, n).Some?
                 && ValueOut(block.txs[0])
                    <= 50 * COIN / Pow2(height / 210000) + AfterTxs(env, ctx, index, block, n).value.fees
    ensures var r := ConnectBlock(env, ctx, height, index, block);
            r.Some? ==> r == AfterTxs(env, ctx, index, block, |block.txs|)
  {
    hide ConnectTxs, CheckTransaction, Follows, LegacySigOpsOf, DistinctHashes, BlockSize;
    PrefixConnectsIff(env, ctx, index, block, |block.txs|);
    assert block.txs[..|block.txs|] == block.txs;
  }

  /**
   * In a block that connects, every input of every transaction but the coinbase spends an unspent output
   * by a script that the output accepts, no coinbase or coinstake of the last hundred blocks is spent,
   * and no transaction pays out more than its inputs, or twice that for a coinstake.
   */
  lemma ConnectedBlockSpends(env: Env, ctx: Context, height: nat, index: Index, block: Block, k: nat)
    returns (prevs: seq<Tx>)
    requires height / 210000 < 64 && ConnectBlock(env, ctx, height, index, block).Some?
    requires k < |block.txs| && !block.txs[k].IsCoinBase()
    ensures AfterTxs(env, ctx, index, block, k).Some?
    ensures var tx, cur := block.txs[k], AfterTxs(env, ctx, index, block, k).value.cur;
            && |prevs| == |tx.vin|
            && (forall i :: 0 <= i < |prevs| ==> SpendsOutput(env, ctx, cur, tx, i, prevs[i]))
            && (ctx.checkSigs ==> forall i :: 0 <= i < |prevs| ==>
                  prevs[i].hash == tx.vin[i].prevout.hash
                  && S.VerifyScript(env.crypto(tx, i), tx.vin[i].scriptSig,
                                    prevs[i].vout[tx.vin[i].prevout.n].scriptPubKey, ctx.strict).ok)
            && var paid := Total(Amounts(tx, prevs), |prevs|);
               ValueOut(tx) <= if tx.IsCoinStake() then 2 * paid else paid
  {
    hide ConnectBlock, AfterTxs, S.VerifyScript, CheckBlock, Distinct, AmountsInRange, Total, ValueOut, LegacySigOps;
    BlockConnectsIff(env, ctx, height, index, block);
    assert Follows(env, ctx, index, block, k);
    var t, tx := AfterTxs(env, ctx, index, block, k).value, block.txs[k];
    prevs :| SpendsWithin(env, ctx, RulesOf(block), t.cur, tx, prevs, t.sigOps + LegacySigOps(tx));
    hide SpendsOutput;
  }

  /** The transaction an input of a connected block spends from. */
  lemma ConnectedInput(env: Env, ctx: Context, height: nat, index: Index, block: Block, k: nat, i: nat)
    returns (prev: Tx)
    requires height / 210000 < 64 && ConnectBlock(env, ctx, height, index, block).Some?
    requires k < |block.txs| && !block.txs[k].IsCoinBase() && i < |block.txs[k].vin|
    ensures AfterTxs(env, ctx, index, block, k).Some?
    ensures var cur, tx := AfterTxs(env, ctx, index, block, k).value.cur, block.txs[k];
            SpendsOutput(env, ctx, cur, tx, i, prev) && (ctx.checkSigs ==> Signed(env, ctx.strict, tx, i, prev))
  {
    hide ConnectBlock, AfterTxs, S.VerifyScript, Total, ValueOut;
    var prevs := ConnectedBlockSpends(env, ctx, height, index, block, k);
    prev := prevs[i];
  }

  /** One input that spends nothing by the rules, in any transaction but the coinbase, and the block is refused. */
  lemma BadInputIsRefused(env: Env, ctx: Context, height: nat, index: Index, block: Block, k: nat, i: nat)
    requires height / 210000 < 64 && k < |block.txs| && !block.txs[k].IsCoinBase() && i < |block.txs[k].vin|
    requires var t := AfterTxs(env, ctx, index, block, k);
             t.Some? ==> forall prev: Tx ::
               !(SpendsOutput(env, ctx, t.value.cur, block.txs[k], i, prev)
                 && (ctx.checkSigs ==> Signed(env, ctx.strict, block.txs[k], i, prev)))
    ensures ConnectBlock(env, ctx, height, index, block).None?
  {
    hide ConnectBlock, AfterTxs, SpendsOutput, Signed;
    if ConnectBlock(env, ctx, height, index, block).Some? {
      var prev := ConnectedInput(env, ctx, height, index, block, k, i);
    }
  }

  /** So is a block with a transaction that pays out more than it may. */
  lemma OverspendingIsRefused(env: Env, ctx: Context, height: nat, index: Index, block: Block, k: nat, prevs: seq<Tx>)
    requires height / 210000 < 64 && k < |block.txs| && !block.txs[k].IsCoinBase()
    requires AfterTxs(env, ctx, index, block, k).Some?
    requires var tx, cur := block.txs[k], AfterTxs(env, ctx, index, block, k).value.cur;
             && |prevs| == |tx.vin|
             && (forall i :: 0 <= i < |prevs| ==> SpendsOutput(env, ctx, cur, tx, i, prevs[i]))
             && ValueOut(tx) > Total(Amounts(tx, prevs), |prevs|) * (if tx.IsCoinStake() then 2 else 1)
    ensures ConnectBlock(env, ctx, height, index, block).None?
  {
    hide ConnectBlock, AfterTxs, S.VerifyScript, Total, ValueOut;
    if ConnectBlock(env, ctx, height, index, block).Some? {
      var cur, tx := AfterTxs(env, ctx, index, block, k).value.cur, block.txs[k];
      SpentTransactions(env, ctx, cur, tx, prevs);
      var others := ConnectedBlockSpends(env, ctx, height, index, block, k);
      SpentTransactions(env, ctx, cur, tx, others);
    }
  }

  // ----- No output is spent twice -----

  /** The entry is there and that output of it is spent. */
  predicate IsSpent(cur: Index, o: OutPoint) {
    o.hash in cur && o.n < |cur[o.hash].spent| && cur[o.hash].spent[o.n] != NullPos
  }

  /** No transaction from number i to before number j has that hash. */
  ghost predicate NotAmong(block: Block, h: Hash, i: nat, j: nat) {
    forall m :: i <= m < j && m < |block.txs| ==> block.txs[m].hash != h
  }

  lemma MovesKeepSpent(a: Index, b: Index, tx: Tx, pos: DiskPos, o: OutPoint)
    requires Moves(a, b, tx, pos) && pos != NullPos && tx.hash != o.hash
    ensures IsSpent(a, o) ==> IsSpent(b, o)
        ensures SameLength(a, b, o.hash)
  {
  }

  /** Both or neither have the entry, with as many outputs. */
  predicate SameLength(a: Index, b: Index, h: Hash) {
    (h in b <==> h in a) && (h in a && h in b ==> |b[h].spent| == |a[h].spent|)
  }


  lemma NextIndex(env: Env, ctx: Context, index: Index, block: Block, k: nat)
    requires k < |block.txs| && AfterTxs(env, ctx, index, block, k + 1).Some?
    ensures AfterTxs(env, ctx, index, block, k).Some?
    ensures Moves(AfterTxs(env, ctx, index, block, k).value.cur, AfterTxs(env, ctx, index, block, k + 1).value.cur,
                  block.txs[k], PosOf(block, k))
  {
    hide AfterTxs, ConnectTx, Moves, Tallied;
    AfterNext(env, ctx, index, block, k);
    TxMoves(env, ctx, RulesOf(block), index, AfterTxs(env, ctx, index, block, k).value, block.txs[k], PosOf(block, k));
  }

  /** What is spent stays spent until a transaction of that hash is created again. */
  lemma {:induction false} SpentStays(env: Env, ctx: Context, index: Index, block: Block, i: nat, j: nat, o: OutPoint)
    requires i <= j <= |block.txs| && AfterTxs(env, ctx, index, block, j).Some? && NotAmong(block, o.hash, i, j)
    ensures AfterTxs(env, ctx, index, block, i).Some?
    ensures var a, b := AfterTxs(env, ctx, index, block, i).value.cur, AfterTxs(env, ctx, index, block, j).value.cur;
                        (IsSpent(a, o) ==> IsSpent(b, o)) && SameLength(a, b, o.hash)

    decreases j
  {
    hide AfterTxs, Moves, IsSpent;
    if i < j {
      NextIndex(env, ctx, index, block, j - 1);
      SpentStays(env, ctx, index, block, i, j - 1, o);
      MovesKeepSpent(AfterTxs(env, ctx, index, block, j - 1).value.cur, AfterTxs(env, ctx, index, block, j).value.cur,
                     block.txs[j - 1], PosOf(block, j - 1), o);
    }
  }

  /** With the rule against repeated transactions, an output free before number k is not created again after it. */
  lemma NotCreatedAgain(env: Env, ctx: Context, index: Index, block: Block, k: nat, m: nat, o: OutPoint)
    requires k <= m < |block.txs| && DistinctHashes(block.txs) && RulesOf(block).bip30
    requires AfterTxs(env, ctx, index, block, m + 1).Some? && AfterTxs(env, ctx, index, block, k).Some?
    requires Unspent(AfterTxs(env, ctx, index, block, k).value.cur, o)
    ensures block.txs[m].hash != o.hash
  {
    if block.txs[m].hash == o.hash {
      AfterNext(env, ctx, index, block, m);
      AfterNext(env, ctx, index, block, 0);
      hide AfterTxs;
      var t := AfterTxs(env, ctx, index, block, m).value;
      TxConnectsIff(env, ctx, RulesOf(block), index, t, block.txs[m], PosOf(block, m));
      hide ConnectTx;
      assert NotRepeated(RulesOf(block), index, o.hash);
      SpentStays(env, ctx, index, block, 0, k, o);
    }
  }

  /** A connected block has connected all its first parts. */
  lemma PrefixConnects(env: Env, ctx: Context, height: nat, index: Index, block: Block, k: nat)
    requires height / 210000 < 64 && ConnectBlock(env, ctx, height, index, block).Some? && k <= |block.txs|
    ensures AfterTxs(env, ctx, index, block, k).Some? && DistinctHashes(block.txs)
  {
    hide AfterTxs, Follows, CheckTransaction, LegacySigOpsOf, DistinctHashes, BlockSize;
    BlockConnectsIff(env, ctx, height, index, block);
    PrefixConnectsIff(env, ctx, index, block, k);
  }

  lemma InputsDiffer(env: Env, ctx: Context, height: nat, index: Index, block: Block, k: nat)
    requires height / 210000 < 64 && ConnectBlock(env, ctx, height, index, block).Some?
    requires k < |block.txs| && !block.txs[k].IsCoinBase()
    ensures Distinct(block.txs[k])
  {
    hide ConnectBlock, AfterTxs, S.VerifyScript, CheckBlock, Distinct, AmountsInRange, Total, ValueOut, LegacySigOps;
    BlockConnectsIff(env, ctx, height, index, block);
    assert Follows(env, ctx, index, block, k);
    var t, tx := AfterTxs(env, ctx, index, block, k).value, block.txs[k];
    var prevs: seq<Tx> :| SpendsWithin(env, ctx, RulesOf(block), t.cur, tx, prevs, t.sigOps + LegacySigOps(tx));
  }

  /** The output an input names is free before its transaction and spent after it. */
  lemma InputIsSpent(env: Env, ctx: Context, height: nat, index: Index, block: Block, k: nat, i: nat)
    requires height / 210000 < 64 && ConnectBlock(env, ctx, height, index, block).Some?
    requires k < |block.txs| && !block.txs[k].IsCoinBase() && i < |block.txs[k].vin|
    ensures AfterTxs(env, ctx, index, block, k).Some? && AfterTxs(env, ctx, index, block, k + 1).Some?
    ensures var o := block.txs[k].vin[i].prevout;
            && Unspent(AfterTxs(env, ctx, index, block, k).value.cur, o)
            && (o.hash != block.txs[k].hash ==> IsSpent(AfterTxs(env, ctx, index, block, k + 1).value.cur, o))
  {
    hide ConnectBlock, AfterTxs, Signed;
    var prev := ConnectedInput(env, ctx, height, index, block, k, i);
    PrefixConnects(env, ctx, height, index, block, k + 1);
    NextIndex(env, ctx, index, block, k);
    var tx := block.txs[k];
    assert tx.Outpoints()[i] == tx.vin[i].prevout;
  }

  /**
   * In a connected block to which the rule against repeated transactions applies, no output is spent twice,
   * also not by different transactions.
   */
  lemma NoDoubleSpend(env: Env, ctx: Context, height: nat, index: Index, block: Block, k: nat, i: nat, l: nat, j: nat)
    requires height / 210000 < 64 && ConnectBlock(env, ctx, height, index, block).Some?
    requires block.time > BIP30_SWITCH_TIME
    requires k <= l < |block.txs| && (k, i) != (l, j)
    requires !block.txs[k].IsCoinBase() && !block.txs[l].IsCoinBase()
    requires i < |block.txs[k].vin| && j < |block.txs[l].vin|
    ensures block.txs[k].vin[i].prevout != block.txs[l].vin[j].prevout
  {
    hide ConnectBlock, AfterTxs, DistinctHashes;
    if k == l {
      InputsDiffer(env, ctx, height, index, block, k);
    } else {
      var o := block.txs[k].vin[i].prevout;
      InputIsSpent(env, ctx, height, index, block, k, i);
      InputIsSpent(env, ctx, height, index, block, l, j);
      forall m | k <= m < l ensures block.txs[m].hash != o.hash {
        PrefixConnects(env, ctx, height, index, block, m + 1);
        NotCreatedAgain(env, ctx, index, block, k, m, o);
      }
      SpentStays(env, ctx, index, block, k + 1, l, o);
    }
  }

  /** Outputs of a well-formed transaction are valid amounts, and so is their total. */
  lemma CheckedAmounts(tx: Tx)
    requires CheckTransaction(tx)
    ensures forall i :: 0 <= i < |tx.vout| ==> MoneyRange(tx.vout[i].value)
    ensures 0 <= ValueOut(tx) <= MAX_MONEY
  {
    RunningTotal(tx.vout, 0);
  }

  lemma {:induction false} RunningTotal(vout: seq<TxOut>, total: int)
    requires OutputsInRange(vout, total) && MoneyRange(total)
    ensures MoneyRange(total + SumOut(vout))
    decreases |vout|
  {
    if vout != [] { RunningTotal(vout[1..], total + vout[0].value); }
  }
}
