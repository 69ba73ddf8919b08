/**
 * The transactions collected for a template connect, in that order, when the
 * block is later connected to the chain.
 * Source: src/main.cpp, CreateNewBlock against ConnectBlock.
 */
module Template {
  import opened Bytes
  import opened Ledger
  import opened Undo
  import opened Supply
  import opened Assembly
  import S = SigOps

  /** Where the block will be stored, and the hash of its coinbase. */
  datatype Site = Site(file: nat, block: nat, base: Hash)

  ghost predicate Elsewhere(site: Site, pos: DiskPos) {
    pos.Pos? ==> (pos.file, pos.block) != (site.file, site.block)
  }

  /**
   * b, the index while the block is being connected, offers the same outputs as
   * m, the miner's trial index; own are the hashes of the block's transactions.
   */
  ghost predicate Mimics(env: Env, m: Index, b: Index, site: Site, own: set<Hash>) {
    && site.base !in m && b.Keys == m.Keys + {site.base}
    && (forall k :: k in m ==> SameEntry(env, k, m[k], b[k]))
    && (forall k :: k in m && k !in own ==> m[k].pos == b[k].pos && Elsewhere(site, m[k].pos))
    && (forall k :: k in m && k in own ==> ReadPrev(env, k, m[k]).Some? && Selectable(ReadPrev(env, k, m[k]).value))
  }

  ghost predicate SameEntry(env: Env, k: Hash, x: TxIndex, y: TxIndex) {
    && |x.spent| == |y.spent|
    && (forall n :: 0 <= n < |x.spent| ==> (x.spent[n] == NullPos <==> y.spent[n] == NullPos))
    && ReadPrev(env, k, x) == ReadPrev(env, k, y)
  }

  ghost predicate CtxFollows(mctx: Context, bctx: Context, site: Site) {
    bctx.ancestors == [(site.file, site.block)] + mctx.ancestors && mctx.strict && mctx.checkSigs
  }

  lemma {:induction false} InputsAgree(env: Env, a: Index, b: Index, ops: seq<OutPoint>, total: int)
    requires forall i :: 0 <= i < |ops| ==> ValueAt(env, a, ops[i]) == ValueAt(env, b, ops[i])
    ensures SumIn(env, a, ops) == SumIn(env, b, ops)
    ensures InputsInRange(env, a, ops, total) == InputsInRange(env, b, ops, total)
    decreases |ops|
  {
    hide ValueAt;
    if ops != [] {
      forall i | 0 <= i < |ops[1..]| ensures ValueAt(env, a, ops[1..][i]) == ValueAt(env, b, ops[1..][i]) {
        assert ops[1..][i] == ops[i + 1];
      }
      InputsAgree(env, a, b, ops[1..], total + ValueAt(env, a, ops[0]));
    }
  }

  lemma {:induction false} SigOpsAgree(env: Env, a: Index, b: Index, vin: seq<TxIn>)
    requires forall i :: 0 <= i < |vin| ==> Fetched(env, a, vin[i].prevout) && Fetched(env, b, vin[i].prevout)
                                            && PrevTx(env, a, vin[i].prevout) == PrevTx(env, b, vin[i].prevout)
    ensures P2shSigOps(env, a, vin) == P2shSigOps(env, b, vin)
    decreases |vin|
  {
    hide Fetched;
    if vin != [] {
      var rest := vin[1..];
      forall i | 0 <= i < |rest| ensures Fetched(env, a, rest[i].prevout) && Fetched(env, b, rest[i].prevout)
                                         && PrevTx(env, a, rest[i].prevout) == PrevTx(env, b, rest[i].prevout)
      {
        assert rest[i] == vin[i + 1];
      }
      SigOpsAgree(env, a, b, rest);
    }
  }

  /** What the miner accepted as an input, the block accepts too. */
  lemma InputAgrees(env: Env, mctx: Context, bctx: Context, m: Index, b: Index, site: Site, own: set<Hash>, o: OutPoint)
    requires Mimics(env, m, b, site, own) && CtxFollows(mctx, bctx, site)
    requires Fetched(env, m, o) && Mature(env, mctx, m, o)
    ensures Fetched(env, b, o) && PrevTx(env, b, o) == PrevTx(env, m, o)
    ensures ValueAt(env, b, o) == ValueAt(env, m, o)
    ensures Mature(env, bctx, b, o)
  {
    assert SameEntry(env, o.hash, m[o.hash], b[o.hash]);
    var prev := PrevTx(env, m, o);
    if prev.IsCoinBase() || prev.IsCoinStake() {
      assert o.hash !in own;
      MaturityFollows(mctx, bctx, site, b[o.hash].pos);
    }
  }

  /** The miner looks one block further back than the block itself will. */
  lemma MaturityFollows(mctx: Context, bctx: Context, site: Site, pos: DiskPos)
    requires CtxFollows(mctx, bctx, site) && Elsewhere(site, pos)
    ensures Immature(bctx, pos) ==> Immature(mctx, pos)
  {
    if Immature(bctx, pos) {
      var k :| 0 <= k < |bctx.ancestors| && k < COINBASE_MATURITY && bctx.ancestors[k] == (pos.file, pos.block);
      assert k > 0 && mctx.ancestors[k - 1] == (pos.file, pos.block);
    }
  }

  lemma ConnectInputsAgrees(env: Env, mctx: Context, bctx: Context, m: Index, b: Index, site: Site, own: set<Hash>,
                            tx: Tx, pos: DiskPos)
    requires Mimics(env, m, b, site, own) && CtxFollows(mctx, bctx, site) && pos != NullPos
    requires ConnectInputs(env, mctx, m, tx, MEMPOOL_POS).Some?
    ensures ConnectInputs(env, bctx, b, tx, pos) == Spend(b, tx.Outpoints(), pos) && Spend(b, tx.Outpoints(), pos).Some?
    ensures ValueIn(env, b, tx) == ValueIn(env, m, tx) && P2shSigOps(env, b, tx.vin) == P2shSigOps(env, m, tx.vin)
  {
    hide Mimics, CtxFollows, Fetched, Immature, Spend, ValueAt, S.VerifyScript, InputsInRange, SumIn;
    var ops := tx.Outpoints();
    forall i | 0 <= i < |tx.vin|
      ensures Fetched(env, b, tx.vin[i].prevout)
              && PrevTx(env, b, tx.vin[i].prevout) == PrevTx(env, m, tx.vin[i].prevout)
      ensures Mature(env, bctx, b, tx.vin[i].prevout) && ValueAt(env, b, ops[i]) == ValueAt(env, m, ops[i])
    {
      assert Fetched(env, m, tx.vin[i].prevout) && Mature(env, mctx, m, tx.vin[i].prevout);
      InputAgrees(env, mctx, bctx, m, b, site, own, tx.vin[i].prevout);
    }
    InputsAgree(env, b, m, ops, 0);
    SigOpsAgree(env, b, m, tx.vin);
    SpendAgrees(env, m, b, site, own, ops, pos);
    SignaturesAgree(env, mctx, bctx, m, b, site, tx);
  }

  lemma SignaturesAgree(env: Env, mctx: Context, bctx: Context, m: Index, b: Index, site: Site, tx: Tx)
    requires CtxFollows(mctx, bctx, site) && InputsFetched(env, m, tx) && InputsFetched(env, b, tx)
    requires forall i :: 0 <= i < |tx.vin| ==> PrevTx(env, b, tx.vin[i].prevout) == PrevTx(env, m, tx.vin[i].prevout)
    requires mctx.checkSigs ==> forall i :: 0 <= i < |tx.vin| ==>
               VerifySignature(env, PrevTx(env, m, tx.vin[i].prevout), tx, i, mctx.strict)
    ensures bctx.checkSigs ==> forall i :: 0 <= i < |tx.vin| ==>
              VerifySignature(env, PrevTx(env, b, tx.vin[i].prevout), tx, i, bctx.strict)
  {
    hide Fetched, S.VerifyScript;
    forall i | 0 <= i < |tx.vin| ensures VerifySignature(env, PrevTx(env, b, tx.vin[i].prevout), tx, i, bctx.strict) {
      var prev, txin := PrevTx(env, m, tx.vin[i].prevout), tx.vin[i];
      assert VerifySignature(env, prev, tx, i, true);
      S.StrictImpliesLoose(env.crypto(tx, i), txin.scriptSig, prev.vout[txin.prevout.n].scriptPubKey);
    }
  }

  lemma SpendAgrees(env: Env, m: Index, b: Index, site: Site, own: set<Hash>, ops: seq<OutPoint>, pos: DiskPos)
    requires Mimics(env, m, b, site, own) && pos != NullPos && Spend(m, ops, MEMPOOL_POS).Some?
    ensures Spend(b, ops, pos).Some?
    ensures Mimics(env, Spend(m, ops, MEMPOOL_POS).value, Spend(b, ops, pos).value, site, own)
  {
    hide Spend, Marked;
    SpendMarks(m, ops, MEMPOOL_POS);
    forall o | o in ops ensures Unspent(b, o) {
      assert Unspent(m, o) && SameEntry(env, o.hash, m[o.hash], b[o.hash]);
    }
    SpendSucceeds(b, ops, pos);
    SpendMarks(b, ops, pos);
    MarkedAgrees(env, m, Spend(m, ops, MEMPOOL_POS).value, b, Spend(b, ops, pos).value, site, own, ops, pos);
  }

  lemma MarkedAgrees(env: Env, m: Index, m': Index, b: Index, b': Index, site: Site, own: set<Hash>, ops: seq<OutPoint>,
                     pos: DiskPos)
    requires Mimics(env, m, b, site, own) && pos != NullPos
    requires Marked(m, m', ops, MEMPOOL_POS) && Marked(b, b', ops, pos)
    ensures Mimics(env, m', b', site, own)
  {
    hide SameEntry, ReadPrev;
    forall k | k in m'
      ensures SameEntry(env, k, m'[k], b'[k]) && ReadPrev(env, k, m'[k]) == ReadPrev(env, k, m[k])
    {
      EntryAgrees(env, k, m[k], m'[k], b[k], b'[k], ops, pos);
    }
  }

  lemma EntryAgrees(env: Env, k: Hash, x: TxIndex, x': TxIndex, y: TxIndex, y': TxIndex, ops: seq<OutPoint>,
                    pos: DiskPos)
    requires SameEntry(env, k, x, y) && pos != NullPos
    requires x'.pos == x.pos && |x'.spent| == |x.spent| && y'.pos == y.pos && |y'.spent| == |y.spent|
    requires forall n :: 0 <= n < |x.spent| ==> x'.spent[n] == if OutPoint(k, n) in ops then MEMPOOL_POS else x.spent[n]
    requires forall n :: 0 <= n < |y.spent| ==> y'.spent[n] == if OutPoint(k, n) in ops then pos else y.spent[n]
    ensures SameEntry(env, k, x', y') && ReadPrev(env, k, x') == ReadPrev(env, k, x)
  {
  }

  lemma CreateAgrees(env: Env, m: Index, b: Index, site: Site, own: set<Hash>, tx: Tx, pos: DiskPos)
    requires Mimics(env, m, b, site, own) && tx.hash != site.base && Selectable(tx)
    requires tx.hash in env.mempool && env.mempool[tx.hash] == tx
    requires pos != MEMPOOL_POS && pos in env.disk && env.disk[pos] == tx
    ensures Mimics(env, m[tx.hash := FreshIndex(MEMPOOL_POS, |tx.vout|)], b[tx.hash := FreshIndex(pos, |tx.vout|)],
                   site, own + {tx.hash})
  {
  }

  /** One transaction: accepted by the miner, hence connected by the block. */
  lemma TxAgrees(env: Env, mctx: Context, bctx: Context, rules: Rules, index: Index, m: Index, t: Totals, site: Site,
                 own: set<Hash>, tx: Tx, pos: DiskPos)
    requires Mimics(env, m, t.cur, site, own) && CtxFollows(mctx, bctx, site)
    requires tx.hash != site.base && Selectable(tx) && tx.hash !in index
    requires tx.hash in env.mempool && env.mempool[tx.hash] == tx
    requires pos != NullPos && pos != MEMPOOL_POS && pos in env.disk && env.disk[pos] == tx
    requires MinerTx(env, mctx, m, tx).Some?
    requires t.sigOps + LegacySigOps(tx) + P2shSigOps(env, m, tx.vin) <= MAX_BLOCK_SIGOPS
    ensures ConnectTx(env, bctx, rules, index, t, tx, pos).Some?
    ensures var t' := ConnectTx(env, bctx, rules, index, t, tx, pos).value;
            && Mimics(env, MinerTx(env, mctx, m, tx).value, t'.cur, site, own + {tx.hash})
            && t'.fees == t.fees + ValueIn(env, m, tx) - ValueOut(tx)
            && t'.sigOps <= t.sigOps + LegacySigOps(tx) + P2shSigOps(env, m, tx.vin)
  {
    hide Mimics, CtxFollows, LegacySigOps, P2shSigOps, ConnectInputs, ValueIn, ValueOut, Spend;
    ConnectInputsAgrees(env, mctx, bctx, m, t.cur, site, own, tx, pos);
    MinerSpends(env, mctx, m, tx);
    SpendAgrees(env, m, t.cur, site, own, tx.Outpoints(), pos);
    var m1, b1 := Spend(m, tx.Outpoints(), MEMPOOL_POS).value, Spend(t.cur, tx.Outpoints(), pos).value;
    CreateAgrees(env, m1, b1, site, own, tx, pos);
  }

  lemma MinerSpends(env: Env, mctx: Context, m: Index, tx: Tx)
    requires ConnectInputs(env, mctx, m, tx, MEMPOOL_POS).Some?
    ensures ConnectInputs(env, mctx, m, tx, MEMPOOL_POS) == Spend(m, tx.Outpoints(), MEMPOOL_POS)
  {
  }

  // ----- Lists of transactions, built up from the front -----

  lemma {:induction false} ConnectTxsSnoc(env: Env, ctx: Context, rules: Rules, index: Index, t: Totals, txs: seq<Tx>,
                                          tx: Tx, file: nat, block: nat, txPos: nat)
    ensures var r := ConnectTxs(env, ctx, rules, index, t, txs, file, block, txPos);
            ConnectTxs(env, ctx, rules, index, t, txs + [tx], file, block, txPos)
            == if r.None? then None
               else ConnectTx(env, ctx, rules, index, r.value, tx, Pos(file, block, txPos + SizeOf(txs)))
    decreases |txs|
  {
    hide ConnectTx;
    if txs == [] {
      assert txs + [tx] == [tx] && [tx][1..] == [];
    } else {
      assert (txs + [tx])[1..] == txs[1..] + [tx] && (txs + [tx])[0] == txs[0];
      var t' := ConnectTx(env, ctx, rules, index, t, txs[0], Pos(file, block, txPos));
      if t'.Some? {
        ConnectTxsSnoc(env, ctx, rules, index, t'.value, txs[1..], tx, file, block, txPos + txs[0].size);
      }
    }
  }

  lemma {:induction false} OnDiskSnoc(env: Env, txs: seq<Tx>, tx: Tx, file: nat, block: nat, txPos: nat)
    requires OnDisk(env, txs + [tx], file, block, txPos)
    ensures OnDisk(env, txs, file, block, txPos)
    ensures var pos := Pos(file, block, txPos + SizeOf(txs));
            pos != MEMPOOL_POS && pos in env.disk && env.disk[pos] == tx
    decreases |txs|
  {
    if txs != [] {
      assert (txs + [tx])[1..] == txs[1..] + [tx] && (txs + [tx])[0] == txs[0];
      OnDiskSnoc(env, txs[1..], tx, file, block, txPos + txs[0].size);
    }
  }

  /** The coinbase and the transactions picked so far, connected as a block would. */
  lemma {:induction false} ListAgrees(env: Env, mctx: Context, bctx: Context, rules: Rules, index: Index, t0: Totals,
                                      site: Site, txs: seq<Tx>, txPos: nat)
    requires Mimics(env, index, t0.cur, site, {}) && CtxFollows(mctx, bctx, site)
    requires MinerTxs(env, mctx, index, txs).Some?
    requires forall i :: 0 <= i < |txs| ==>
               txs[i].hash != site.base && Selectable(txs[i]) && txs[i].hash !in index
               && txs[i].hash in env.mempool && env.mempool[txs[i].hash] == txs[i]
    requires OnDisk(env, txs, site.file, site.block, txPos)
    requires t0.sigOps + MinerTxs(env, mctx, index, txs).value.sigOps <= MAX_BLOCK_SIGOPS
    ensures ConnectTxs(env, bctx, rules, index, t0, txs, site.file, site.block, txPos).Some?
    ensures var p := MinerTxs(env, mctx, index, txs).value;
            var t := ConnectTxs(env, bctx, rules, index, t0, txs, site.file, site.block, txPos).value;
            && Mimics(env, p.cur, t.cur, site, Hashes(txs))
            && t.fees == t0.fees + p.fees && t.sigOps <= t0.sigOps + p.sigOps
    decreases |txs|
  {
    hide Mimics, CtxFollows, LegacySigOps, P2shSigOps, ValueIn, ValueOut, MinerTx, ConnectTx;
    if txs == [] {
      assert Hashes(txs) == {};
    } else {
      var n := |txs| - 1;
      var init, tx := txs[..n], txs[n];
      assert init + [tx] == txs;
      OnDiskSnoc(env, init, tx, site.file, site.block, txPos);
      ListAgrees(env, mctx, bctx, rules, index, t0, site, init, txPos);
      var p := MinerTxs(env, mctx, index, init).value;
      var t := ConnectTxs(env, bctx, rules, index, t0, init, site.file, site.block, txPos).value;
      ConnectTxsSnoc(env, bctx, rules, index, t0, init, tx, site.file, site.block, txPos);
      TxAgrees(env, mctx, bctx, rules, index, p.cur, t, site, Hashes(init), tx,
               Pos(site.file, site.block, txPos + SizeOf(init)));
      HashesGrow(init, tx);
    }
  }

  // ----- The template -----

  /** The mempool holds checked transactions whose hashes are not in the chain. */
  ghost predicate PoolNew(env: Env, index: Index) {
    forall h :: h in env.mempool ==> h !in index && CheckTransaction(env.mempool[h])
  }

  /** A coinbase that fits the room reserved for it and claims exactly subsidy and fees. */
  ghost predicate GoodCoinBase(env: Env, index: Index, coinbase: Tx, height: nat, fees: int)
    requires height / 210000 < 64
  {
    && coinbase.IsCoinBase() && CheckTransaction(coinbase)
    && coinbase.hash !in index && coinbase.hash !in env.mempool
    && LegacySigOps(coinbase) <= RESERVED_SIGOPS
    && coinbase.size + 85 <= RESERVED_SIZE
    && ValueOut(coinbase) == GetBlockValue(height, fees)
  }

  lemma {:induction false} LegacyWithin(env: Env, ctx: Context, cur: Index, txs: seq<Tx>)
    requires MinerTxs(env, ctx, cur, txs).Some?
    ensures LegacySigOpsOf(txs) <= MinerTxs(env, ctx, cur, txs).value.sigOps
    decreases |txs|
  {
    hide LegacySigOps, P2shSigOps, ValueIn, ValueOut, MinerTx;
    if txs != [] {
      var init, tx := txs[..|txs| - 1], txs[|txs| - 1];
      LegacyWithin(env, ctx, cur, init);
      LegacySnoc(init, tx);
      assert init + [tx] == txs;
    }
  }

  lemma {:induction false} LegacySnoc(txs: seq<Tx>, tx: Tx)
    ensures LegacySigOpsOf(txs + [tx]) == LegacySigOpsOf(txs) + LegacySigOps(tx)
    decreases |txs|
  {
    hide LegacySigOps;
    if txs == [] {
      assert txs + [tx] == [tx] && [tx][1..] == [];
    } else {
      assert (txs + [tx])[1..] == txs[1..] + [tx];
      LegacySnoc(txs[1..], tx);
    }
  }

  lemma {:induction false} SizeAtLeast(txs: seq<Tx>)
    requires forall i :: 0 <= i < |txs| ==> txs[i].size > 0
    ensures SizeOf(txs) >= |txs|
    decreases |txs|
  {
    if txs != [] {
      forall i | 0 <= i < |txs[1..]| ensures txs[1..][i].size > 0 { assert txs[1..][i] == txs[i + 1]; }
      SizeAtLeast(txs[1..]);
    }
  }

  lemma TemplatePassesCheckBlock(env: Env, mctx: Context, index: Index, txs: seq<Tx>, popped: seq<Hash>, coinbase: Tx,
                                 height: nat, block: Block)
    requires height / 210000 < 64 && PoolNew(env, index) && PoolClosed(env, index)
    requires FromPool(env.mempool, txs, popped) && MinerTxs(env, mctx, index, txs).Some?
    requires GoodCoinBase(env, index, coinbase, height, MinerTxs(env, mctx, index, txs).value.fees)
    requires RESERVED_SIGOPS + MinerTxs(env, mctx, index, txs).value.sigOps < MAX_BLOCK_SIGOPS
    requires RESERVED_SIZE + SizeOf(txs) <= MAX_BLOCK_SIZE - 1000
    requires block.txs == [coinbase] + txs && env.headerOk(block)
    ensures CheckBlock(env, block)
  {
    hide MinerTxs, CheckTransaction, LegacySigOps, ValueOut, GetBlockValue, PoolClosed;
    var all := block.txs;
    assert all[1..] == txs;
    LegacyWithin(env, mctx, index, txs);
    forall i | 0 <= i < |txs| ensures txs[i].size > 0 { PoolSizes(env, index, txs[i].hash); }
    SizeAtLeast(txs);
    forall i | 1 <= i < |all| ensures Selectable(all[i]) && CheckTransaction(all[i]) && all[i].hash != coinbase.hash {
      assert all[i] == txs[i - 1] && txs[i - 1].hash in env.mempool;
    }
    forall i, j | 0 <= i < j < |all| ensures all[i].hash != all[j].hash {
      if i > 0 { assert all[i] == txs[i - 1] && all[j] == txs[j - 1]; }
    }
  }

  lemma PoolSizes(env: Env, index: Index, h: Hash)
    requires PoolClosed(env, index) && h in env.mempool
    ensures env.mempool[h].size > 0
  {
  }

  lemma CoinBaseConnects(env: Env, ctx: Context, rules: Rules, index: Index, coinbase: Tx, site: Site, pos: DiskPos)
    requires coinbase.IsCoinBase() && coinbase.hash == site.base && site.base !in index
    requires LegacySigOps(coinbase) <= RESERVED_SIGOPS
    requires forall k :: k in index ==> Elsewhere(site, index[k].pos)
    ensures ConnectTx(env, ctx, rules, index, Begin(index), coinbase, pos).Some?
    ensures var t := ConnectTx(env, ctx, rules, index, Begin(index), coinbase, pos).value;
            Mimics(env, index, t.cur, site, {}) && t.fees == 0 && t.sigOps <= RESERVED_SIGOPS
  {
    hide LegacySigOps, ValueOut;
  }

  /**
   * A proof-of-work template built by CollectTxs connects: every transaction in
   * the given order, the sigop and size limits, and the coinbase amount.
   */
  lemma TemplateConnects(env: Env, ancestors: seq<(nat, nat)>, bctx: Context, index: Index, txs: seq<Tx>,
                         popped: seq<Hash>,
                         coinbase: Tx, height: nat, block: Block)
    requires height / 210000 < 64 && PoolNew(env, index) && PoolClosed(env, index)
    requires FromPool(env.mempool, txs, popped) && MinerTxs(env, MinerContext(ancestors), index, txs).Some?
    requires GoodCoinBase(env, index, coinbase, height, MinerTxs(env, MinerContext(ancestors), index, txs).value.fees)
    requires RESERVED_SIGOPS + MinerTxs(env, MinerContext(ancestors), index, txs).value.sigOps < MAX_BLOCK_SIGOPS
    requires RESERVED_SIZE + SizeOf(txs) <= MAX_BLOCK_SIZE - 1000
    requires block.txs == [coinbase] + txs && env.headerOk(block)
    requires OnDisk(env, block.txs, block.file, block.pos, block.firstTx)
    requires forall k :: k in index ==> Elsewhere(Site(block.file, block.pos, coinbase.hash), index[k].pos)
    requires bctx.ancestors == [(block.file, block.pos)] + ancestors
    ensures ConnectBlock(env, bctx, height, index, block).Some?
  {
    hide MinerTxs, CheckTransaction, LegacySigOps, ValueOut, GetBlockValue, PoolClosed, CheckBlock, Mimics, ConnectTx;
    var mctx, rules := MinerContext(ancestors), RulesOf(block);
    TemplatePassesCheckBlock(env, mctx, index, txs, popped, coinbase, height, block);
    var site := Site(block.file, block.pos, coinbase.hash);
    var pos := Pos(block.file, block.pos, block.firstTx);
    CoinBaseConnects(env, bctx, rules, index, coinbase, site, pos);
    var t0 := ConnectTx(env, bctx, rules, index, Begin(index), coinbase, pos).value;
    assert block.txs[1..] == txs && block.txs[0] == coinbase;
    forall i | 0 <= i < |txs|
      ensures txs[i].hash != site.base && Selectable(txs[i]) && txs[i].hash !in index
              && txs[i].hash in env.mempool && env.mempool[txs[i].hash] == txs[i]
    {
    }
    ListAgrees(env, mctx, bctx, rules, index, t0, site, txs, block.firstTx + coinbase.size);
  }

  /** The block is a stored template with these transactions, to be connected after these ancestors. */
  ghost predicate Ready(env: Env, index: Index, ancestors: seq<(nat, nat)>, txs: seq<Tx>, block: Block, bctx: Context) {
    && txs != [] && block.txs == txs && env.headerOk(block) && bctx.ancestors == [(block.file, block.pos)] + ancestors
    && OnDisk(env, block.txs, block.file, block.pos, block.firstTx)
    && forall k :: k in index ==> Elsewhere(Site(block.file, block.pos, txs[0].hash), index[k].pos)
  }

  function Clamped(p: Policy): Policy { Clamp(p.maxSize, p.prioritySize, p.minSize, p.minTxFee, p.now) }

  /**
   * A proof-of-work template: the coinbase for the subsidy and the collected
   * fees, then the collected transactions.  With a coinbase of the reserved
   * size it connects wherever the block is stored.
   */
  method CreateNewBlock(env: Env, ancestors: seq<(nat, nat)>, settings: Policy, index: Index, depth: Hash -> int,
                        isFinal: Tx -> bool,
                        height: nat, coinbaseFor: int -> Tx)
    returns (txs: seq<Tx>, popped: seq<Hash>, fees: int)
    requires height / 210000 < 64 && PoolNew(env, index) && PoolClosed(env, index)
    ensures txs != [] && txs[0] == coinbaseFor(GetBlockValue(height, fees))
    ensures forall h :: Eligible(env, isFinal, h) ==>
              h in popped || exists d :: d in Depends(env, index, env.mempool[h]) && d !in Hashes(txs[1..])
    ensures AllAccounted(env, MinerContext(ancestors), Clamped(settings), index, txs[1..], popped)
    ensures BestFirst(env, MinerContext(ancestors), Clamped(settings), index, depth, txs[1..], popped)
    ensures GoodCoinBase(env, index, txs[0], height, fees) ==>
              forall block, bctx :: Ready(env, index, ancestors, txs, block, bctx) ==>
                ConnectBlock(env, bctx, height, index, block).Some?
  {
    hide ConnectBlock, GoodCoinBase, PoolNew, PoolClosed, FromPool, MinerTxs, GetBlockValue, OnDisk, SizeOf,
                  AllAccounted, Depends, BestFirst;
    var policy := Clamped(settings);
    var picked, taken, collected, size, sigOps := CollectTxs(env, MinerContext(ancestors), policy, index, depth,
                                                             isFinal);
    popped, fees := taken, collected;
    var coinbase := coinbaseFor(GetBlockValue(height, fees));
    txs := [coinbase] + picked;
    assert txs[1..] == picked;
    forall block, bctx | GoodCoinBase(env, index, coinbase, height, fees) && Ready(env, index, ancestors, txs, block,
                                                                                   bctx)
      ensures ConnectBlock(env, bctx, height, index, block).Some?
    {
      TemplateConnects(env, ancestors, bctx, index, picked, popped, coinbase, height, block);
    }
  }
}
