/**
 * The database object and the loops that connect and disconnect blocks, each
 * proved against the functions of module Ledger.
 * Source: src/main.cpp, FetchInputs, ConnectInputs, DisconnectInputs, ConnectBlock, DisconnectBlock.
 */
module TxDb {
  import opened Bytes
  import opened Ledger

  /** An index entry and the transaction it stands for. */
  datatype Prev = Prev(entry: TxIndex, tx: Tx)

  type Inputs = map<Hash, Prev>

  ghost predicate InputOk(env: Env, cur: Index, h: Hash, p: Prev) {
    h in cur && cur[h] == p.entry && ReadPrev(env, h, p.entry) == Some(p.tx)
  }

  /** inputs holds, for every hash it knows, what the current index says. */
  ghost predicate InputsOk(env: Env, cur: Index, inputs: Inputs) {
    forall h :: h in inputs ==> InputOk(env, cur, h, inputs[h])
  }

  ghost predicate Covers(inputs: Inputs, tx: Tx, upTo: nat)
    requires upTo <= |tx.vin|
  {
    forall i :: 0 <= i < upTo ==> tx.vin[i].prevout.hash in inputs
  }

  /** Reads each previous transaction once, from the pending changes or else from the index. */
  method FetchInputs(env: Env, index: Index, queued: Index, tx: Tx) returns (ok: bool, inputs: Inputs)
    ensures ok == InputsFetched(env, index + queued, tx)
    ensures ok ==> InputsOk(env, index + queued, inputs) && Covers(inputs, tx, |tx.vin|)
  {
    ghost var cur := index + queued;
    ok, inputs := false, map[];
    for i := 0 to |tx.vin|
      invariant InputsOk(env, cur, inputs) && Covers(inputs, tx, i)
    {
      var h := tx.vin[i].prevout.hash;
      if h in inputs { continue; }
      ghost var o := tx.vin[i].prevout;
      var entry;
      if h in queued {
        entry := queued[h];
      } else if h in index {
        entry := index[h];
      } else {
        assert !Fetched(env, cur, o);
        return;
      }
      var prev := ReadPrev(env, h, entry);
      if prev.None? {
        assert !Fetched(env, cur, o);
        return;
      }
      inputs := inputs[h := Prev(entry, prev.value)];
    }
    for i := 0 to |tx.vin|
      invariant forall j :: 0 <= j < i ==> Fetched(env, cur, tx.vin[j].prevout)
    {
      var o := tx.vin[i].prevout;
      assert InputOk(env, cur, o.hash, inputs[o.hash]);
      if o.n >= |inputs[o.hash].tx.vout| || o.n >= |inputs[o.hash].entry.spent| {
        assert !Fetched(env, cur, o);
        return;
      }
    }
    ok := true;
  }

  /** The inexpensive checks: maturity of generated coins, and amounts. */
  method CheckAmounts(env: Env, ctx: Context, ghost cur: Index, inputs: Inputs, tx: Tx) returns (ok: bool, valueIn: int)
    requires InputsOk(env, cur, inputs) && Covers(inputs, tx, |tx.vin|) && InputsFetched(env, cur, tx)
    ensures ok <==> (forall i :: 0 <= i < |tx.vin| ==> Mature(env, ctx, cur, tx.vin[i].prevout))
                    && InputsInRange(env, cur, tx.Outpoints(), 0)
    ensures ok ==> valueIn == ValueIn(env, cur, tx)
  {
    hide Immature;
    ghost var ops := tx.Outpoints();
    ok, valueIn := false, 0;
    assert ops[0..] == ops;
    for i := 0 to |tx.vin|
      invariant forall j :: 0 <= j < i ==> Mature(env, ctx, cur, tx.vin[j].prevout)
      invariant InputsInRange(env, cur, ops, 0) == InputsInRange(env, cur, ops[i..], valueIn)
      invariant SumIn(env, cur, ops) == valueIn + SumIn(env, cur, ops[i..])
    {
      var o := tx.vin[i].prevout;
      assert InputOk(env, cur, o.hash, inputs[o.hash]) && Fetched(env, cur, o);
      var Prev(entry, prev) := inputs[o.hash];
      if (prev.IsCoinBase() || prev.IsCoinStake()) && Immature(ctx, entry.pos) {
        assert !Mature(env, ctx, cur, tx.vin[i].prevout);
        return;
      }
      assert ops[i..][0] == o && ops[i..][1..] == ops[i + 1..];
      var value := prev.vout[o.n].value;
      assert value == ValueAt(env, cur, o);
      valueIn := valueIn + value;
      if !MoneyRange(value) || !MoneyRange(valueIn) { return; }
    }
    ok := true;
  }

  /** Every signature of tx from input `from` on is good. */
  ghost predicate SignaturesOk(env: Env, ctx: Context, cur: Index, tx: Tx, from: nat)
    requires InputsFetched(env, cur, tx)
  {
    ctx.checkSigs ==> forall i :: from <= i < |tx.vin| ==>
      VerifySignature(env, PrevTx(env, cur, tx.vin[i].prevout), tx, i, ctx.strict)
  }

  lemma InputKnown(env: Env, cur: Index, inputs: Inputs, h: Hash)
    requires InputsOk(env, cur, inputs) && h in inputs
    ensures InputOk(env, cur, h, inputs[h])
  {
  }

  lemma QueueSpent(env: Env, index: Index, queued: Index, inputs: Inputs, h: Hash, spent: TxIndex)
    requires InputsOk(env, index + queued, inputs) && h in inputs && spent.pos == inputs[h].entry.pos
    ensures index + queued[h := spent] == (index + queued)[h := spent]
    ensures InputsOk(env, index + queued[h := spent], inputs[h := Prev(spent, inputs[h].tx)])
  {
    assert index + queued[h := spent] == (index + queued)[h := spent];
    assert InputOk(env, index + queued, h, inputs[h]);
  }

  lemma SpendNext(cur: Index, ops: seq<OutPoint>, pos: DiskPos)
    ensures ops == [] ==> Spend(cur, ops, pos) == Some(cur)
    ensures ops != [] && !Unspent(cur, ops[0]) ==> Spend(cur, ops, pos).None?
    ensures ops != [] && Unspent(cur, ops[0]) ==>
              Spend(cur, ops, pos) == Spend(cur[ops[0].hash := Mark(cur[ops[0].hash], ops[0].n, pos)], ops[1..], pos)
  {
  }

  /** The second loop: refuse conflicts, check signatures, mark outputs as spent. */
  method SpendInputs(env: Env, ctx: Context, ghost index: Index, inputs0: Inputs, queued0: Index, tx: Tx, pos: DiskPos)
    returns (ok: bool, queued: Index)
    requires InputsOk(env, index + queued0, inputs0) && Covers(inputs0, tx, |tx.vin|)
    requires InputsFetched(env, index + queued0, tx)
    ensures ok <==> SignaturesOk(env, ctx, index + queued0, tx, 0) && Spend(index + queued0, tx.Outpoints(), pos).Some?
    ensures ok ==> Some(index + queued) == Spend(index + queued0, tx.Outpoints(), pos)
    ensures queued0.Keys <= queued.Keys
  {
    hide VerifySignature, Spend, ReadPrev, InputsOk;
    SpendNext(index + queued0, [], pos);
    ghost var cur0, ops := index + queued0, tx.Outpoints();
    ok, queued := false, queued0;
    var inputs := inputs0;
    assert ops[0..] == ops;
    for i := 0 to |tx.vin|
      invariant InputsOk(env, index + queued, inputs) && inputs.Keys == inputs0.Keys
      invariant forall h :: h in inputs ==>
                inputs[h].tx == inputs0[h].tx && |inputs[h].entry.spent| == |inputs0[h].entry.spent|
      invariant Spend(cur0, ops, pos) == Spend(index + queued, ops[i..], pos)
      invariant ctx.checkSigs ==> forall j :: 0 <= j < i ==>
                  VerifySignature(env, PrevTx(env, cur0, tx.vin[j].prevout), tx, j, ctx.strict)
      invariant queued0.Keys <= queued.Keys
    {
      var o := tx.vin[i].prevout;
      InputKnown(env, index + queued, inputs, o.hash);
      InputKnown(env, cur0, inputs0, o.hash);
      assert Fetched(env, cur0, o);
      var Prev(entry, prev) := inputs[o.hash];
      assert ops[i..][0] == o && ops[i..][1..] == ops[i + 1..];
      SpendNext(index + queued, ops[i..], pos);
      if entry.spent[o.n] != NullPos { return; }
      assert prev == PrevTx(env, cur0, o);
      if ctx.checkSigs && !VerifySignature(env, prev, tx, i, ctx.strict) { return; }
      var spent := Mark(entry, o.n, pos);
      QueueSpent(env, index, queued, inputs, o.hash, spent);
      inputs := inputs[o.hash := Prev(spent, prev)];
      queued := queued[o.hash := spent];
    }
    SpendNext(index + queued, ops[|tx.vin|..], pos);
    ok := true;
  }

  /** ConnectInputs: all checks, then the spent marks added to the pending changes. */
  method ConnectTxInputs(env: Env, ctx: Context, ghost index: Index, inputs: Inputs, queued0: Index, tx: Tx,
                         pos: DiskPos)
    returns (ok: bool, queued: Index)
    requires InputsOk(env, index + queued0, inputs) && Covers(inputs, tx, |tx.vin|)
    requires InputsFetched(env, index + queued0, tx)
    ensures ok == ConnectInputs(env, ctx, index + queued0, tx, pos).Some?
    ensures ok ==> Some(index + queued) == ConnectInputs(env, ctx, index + queued0, tx, pos)
    ensures queued0.Keys <= queued.Keys
  {
    hide Spend, VerifySignature, Immature, ValueOut, SumIn, InputsInRange;
    queued := queued0;
    var valueIn;
    ok, valueIn := CheckAmounts(env, ctx, index + queued0, inputs, tx);
    if !ok { return; }
    ok, queued := SpendInputs(env, ctx, index, inputs, queued0, tx, pos);
    if !ok { return; }
    var valueOut := ValueOut(tx);
    if tx.IsCoinStake() {
      ok := env.coinAgeKnown(tx) && valueOut - valueIn <= valueIn;
    } else {
      ok := valueIn >= valueOut && MoneyRange(valueIn - valueOut);
    }
  }

  // ----- The database object -----

  class CTxDB {
    var index: Index

    constructor ()
      ensures index == map[]
    {
      index := map[];
    }

    /** Gives back the outputs tx spent and removes its entry. */
    method DisconnectInputs(tx: Tx) returns (ok: bool)
      modifies this
      ensures ok == DisconnectTx(old(index), tx).Some?
      ensures ok ==> DisconnectTx(old(index), tx) == Some(index)
    {
      ok := false;
      if !tx.IsCoinBase() {
        ghost var ops := tx.Outpoints();
        assert ops[0..] == ops;
        for i := 0 to |tx.vin|
          invariant Unspend(old(index), ops) == Unspend(index, ops[i..])
        {
          var o := tx.vin[i].prevout;
          assert ops[i..][0] == o && ops[i..][1..] == ops[i + 1..];
          if o.hash !in index { return; }
          var entry := index[o.hash];
          if o.n >= |entry.spent| { return; }
          index := index[o.hash := Mark(entry, o.n, NullPos)];
        }
      }
      index := index - {tx.hash};
      ok := true;
    }

    /** Disconnects from the last transaction to the first. */
    method DisconnectBlock(block: Block) returns (ok: bool)
      modifies this
      ensures ok == DisconnectTxs(old(index), block.txs).Some?
      ensures ok ==> DisconnectTxs(old(index), block.txs) == Some(index)
    {
      hide DisconnectTx;
      var i := |block.txs|;
      assert block.txs[i..] == [];
      while i > 0
        invariant 0 <= i <= |block.txs|
        invariant DisconnectTxs(old(index), block.txs[i..]) == Some(index)
      {
        i := i - 1;
        assert block.txs[i..][0] == block.txs[i] && block.txs[i..][1..] == block.txs[i + 1..];
        ok := DisconnectInputs(block.txs[i]);
        if !ok {
          DisconnectStops(old(index), block.txs, i);
          return;
        }
      }
      assert block.txs[0..] == block.txs;
      ok := true;
    }

    /** Runs the checks of a whole block on pending changes and writes them when all pass. */
    method ConnectBlock(env: Env, ctx: Context, height: nat, block: Block) returns (ok: bool, fees: int, minted: int)
      requires height / 210000 < 64
      modifies this
      ensures ok == Ledger.ConnectBlock(env, ctx, height, old(index), block).Some?
      ensures ok ==> var t := Ledger.ConnectBlock(env, ctx, height, old(index), block).value;
                     index == t.cur && fees == t.fees && minted == t.valueOut - t.valueIn
      ensures !ok ==> index == old(index)
    {
      hide ConnectTx, ValueOut;
      ok, fees, minted := false, 0, 0;
      if !CheckBlock(env, block) { return; }
      var rules := RulesOf(block);
      var txPos: nat := block.firstTx;
      var queued: Index, sigOps: nat, valueIn, valueOut := map[], 0, 0, 0;
      ghost var all := ConnectTxs(env, ctx, rules, index, Begin(index), block.txs, block.file, block.pos, txPos);
      assert index + queued == index && block.txs[0..] == block.txs;
      for i := 0 to |block.txs|
        invariant index == old(index)
        invariant all == ConnectTxs(env, ctx, rules, index, Totals(index + queued, sigOps, fees, valueIn, valueOut),
                                    block.txs[i..], block.file, block.pos, txPos)
      {
        var tx := block.txs[i];
        assert block.txs[i..][0] == tx && block.txs[i..][1..] == block.txs[i + 1..];
        var pos := Pos(block.file, block.pos, txPos);
        var t := ConnectOne(env, ctx, rules, index, queued, sigOps, tx, pos);
        ghost var spec := ConnectTx(env, ctx, rules, index, Totals(index + queued, sigOps, fees, valueIn, valueOut), tx,
                                    pos);
        ConnectTxTotals(env, ctx, rules, index, Totals(index + queued, sigOps, fees, valueIn, valueOut), tx, pos);
        if t.None? { return; }
        var r := t.value;
        queued, sigOps := r.queued, r.sigOps;
        fees, valueIn, valueOut := fees + r.fee, valueIn + r.valueIn, valueOut + r.valueOut;
        assert spec == Some(Totals(index + queued, sigOps, fees, valueIn, valueOut));
        txPos := txPos + tx.size;
      }
      assert all == Some(Totals(index + queued, sigOps, fees, valueIn, valueOut));
      if ValueOut(block.txs[0]) > GetBlockValue(height, fees) { return; }
      minted := valueOut - valueIn;
      WriteQueued(queued);
      ok := true;
    }

    /** UpdateTxIndex for every pending change. */
    method WriteQueued(queued: Index)
      modifies this
      ensures index == old(index) + queued
    {
      var left := queued.Keys;
      while left != {}
        invariant left <= queued.Keys
        invariant index.Keys == old(index).Keys + (queued.Keys - left)
        invariant forall k :: k in queued && k !in left ==> index[k] == queued[k]
        invariant forall k :: k in index && (k !in queued || k in left) ==> index[k] == old(index)[k]
        decreases |left|
      {
        var k :| k in left;
        index := index[k := queued[k]];
        left := left - {k};
      }
    }
  }

  lemma {:induction false} DisconnectStops(cur: Index, txs: seq<Tx>, i: nat)
    requires i <= |txs| && DisconnectTxs(cur, txs[i..]).None?
    ensures DisconnectTxs(cur, txs).None?
    decreases i
  {
    if i == 0 {
      assert txs[0..] == txs;
    } else {
      assert txs[i - 1..][1..] == txs[i..];
      DisconnectStops(cur, txs, i - 1);
    }
  }

  /** What one transaction contributes to the totals of the block. */
  datatype Added = Added(queued: Index, sigOps: nat, fee: int, valueIn: int, valueOut: int)

  /** ConnectTx adds the same amounts whatever the totals were. */
  lemma ConnectTxTotals(env: Env, ctx: Context, rules: Rules, index: Index, t: Totals, tx: Tx, pos: DiskPos)
    ensures var base := ConnectTx(env, ctx, rules, index, Totals(t.cur, t.sigOps, 0, 0, 0), tx, pos);
            ConnectTx(env, ctx, rules, index, t, tx, pos)
            == if base.None? then None
               else Some(base.value.(fees := t.fees + base.value.fees, valueIn := t.valueIn + base.value.valueIn,
                                     valueOut := t.valueOut + base.value.valueOut))
  {
    hide ConnectInputs, ValueIn, ValueOut, LegacySigOps, P2shSigOps;
  }

  /** The body of ConnectBlock's loop. */
  method ConnectOne(env: Env, ctx: Context, rules: Rules, index: Index, queued0: Index, sigOps0: nat, tx: Tx,
                    pos: DiskPos)
    returns (r: Option<Added>)
    ensures var t := ConnectTx(env, ctx, rules, index, Totals(index + queued0, sigOps0, 0, 0, 0), tx, pos);
            && (r.Some? <==> t.Some?)
            && (r.Some? ==> t.value == Totals(index + r.value.queued, r.value.sigOps, r.value.fee, r.value.valueIn,
                                              r.value.valueOut))
  {
    hide ValueOut, LegacySigOps, ConnectSpending, FreshIndex;
    ghost var cur := index + queued0;
    if rules.bip30 && tx.hash in index && !FullySpent(index[tx.hash]) { return None; }
    var sigOps := sigOps0 + LegacySigOps(tx);
    if sigOps > MAX_BLOCK_SIGOPS { return None; }
    if tx.IsCoinBase() {
      var created := FreshIndex(pos, |tx.vout|);
      var queued := queued0[tx.hash := created];
      assert index + queued == cur[tx.hash := created];
      return Some(Added(queued, sigOps, 0, 0, ValueOut(tx)));
    }
    r := ConnectSpend(env, ctx, rules, index, queued0, sigOps0, sigOps, tx, pos);
  }

  /** The part for a transaction that is not a coinbase. */
  method ConnectSpend(env: Env, ctx: Context, rules: Rules, index: Index, queued0: Index, ghost sigOps0: nat,
                      legacy: nat, tx: Tx, pos: DiskPos)
    returns (r: Option<Added>)
    requires !tx.IsCoinBase() && legacy <= MAX_BLOCK_SIGOPS
    ensures var t := ConnectSpending(env, ctx, rules, Totals(index + queued0, sigOps0, 0, 0, 0), legacy, tx, pos);
            && (r.Some? <==> t.Some?)
            && (r.Some? ==> t.value == Totals(index + r.value.queued, r.value.sigOps, r.value.fee, r.value.valueIn,
                                              r.value.valueOut))
  {
    hide ValueOut, P2shSigOps, Spend, ConnectInputs, ValueIn, FreshIndex, InputsOk, InputsFetched;
    ghost var cur := index + queued0;
    var ok, inputs := FetchInputs(env, index, queued0, tx);
    if !ok {
      NotFetched(env, ctx, cur, tx, pos);
      return None;
    }
    var sigOps := legacy;
    if rules.bip16 {
      sigOps := sigOps + P2shSigOps(env, index + queued0, tx.vin);
      if sigOps > MAX_BLOCK_SIGOPS { return None; }
    }
    var queued;
    ok, queued := ConnectTxInputs(env, ctx, index, inputs, queued0, tx, pos);
    if !ok { return None; }
    var valueIn, valueOut := ValueIn(env, index + queued0, tx), ValueOut(tx);
    var created := FreshIndex(pos, |tx.vout|);
    assert index + queued[tx.hash := created] == (index + queued)[tx.hash := created];
    queued := queued[tx.hash := created];
    r := Some(Added(queued, sigOps, if tx.IsCoinStake() then 0 else valueIn - valueOut, valueIn, valueOut));
  }

  lemma NotFetched(env: Env, ctx: Context, cur: Index, tx: Tx, pos: DiskPos)
    requires !InputsFetched(env, cur, tx)
    ensures ConnectInputs(env, ctx, cur, tx, pos).None?
  {
  }
}
