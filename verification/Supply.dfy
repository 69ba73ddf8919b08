/**
 * The money supply recorded with the tip is the total value of the unspent
 * outputs, along every run of tip connects and disconnects.
 * Source: src/main.cpp, ConnectBlock, DisconnectBlock; src/main.h, CBlockIndex.
 */
module Supply {
  import opened Bytes
  import opened Ledger
  import opened Undo

  // ----- Sums over sets of outputs -----

  ghost function Sum(s: set<OutPoint>, v: OutPoint -> int): int
    decreases |s|
  {
    if s == {} then 0 else var x :| x in s; v(x) + Sum(s - {x}, v)
  }

  lemma {:induction false} SumRemove(s: set<OutPoint>, v: OutPoint -> int, x: OutPoint)
    requires x in s
    ensures Sum(s, v) == v(x) + Sum(s - {x}, v)
    decreases |s|
  {
    var y :| y in s && Sum(s, v) == v(y) + Sum(s - {y}, v);
    if y != x {
      SumRemove(s - {y}, v, x);
      SumRemove(s - {x}, v, y);
      assert s - {y} - {x} == s - {x} - {y};
    }
  }

  lemma {:induction false} SumCongruent(s: set<OutPoint>, v: OutPoint -> int, w: OutPoint -> int)
    requires forall x :: x in s ==> v(x) == w(x)
    ensures Sum(s, v) == Sum(s, w)
    decreases |s|
  {
    if s != {} {
      var x :| x in s;
      SumRemove(s, v, x);
      SumRemove(s, w, x);
      SumCongruent(s - {x}, v, w);
    }
  }

  function Values(env: Env, cur: Index): OutPoint -> int {
    o => ValueAt(env, cur, o)
  }

  /** Total value of the unspent outputs. */
  ghost function Total(env: Env, cur: Index): int {
    Sum(UnspentSet(cur), Values(env, cur))
  }

  // ----- One transaction moves value -----

  /** Every entry points at a stored transaction with as many outputs as the entry records. */
  ghost predicate Stored(env: Env, cur: Index) {
    forall k :: k in cur ==>
      && cur[k].pos != MEMPOOL_POS && cur[k].pos in env.disk
      && |env.disk[cur[k].pos].vout| == |cur[k].spent|
  }

  /** The block's transactions are in the block file where the index will say they are. */
  ghost predicate OnDisk(env: Env, txs: seq<Tx>, file: nat, block: nat, txPos: nat)
    decreases |txs|
  {
    txs == [] ||
    (var pos := Pos(file, block, txPos);
     pos != MEMPOOL_POS && pos in env.disk && env.disk[pos] == txs[0]
     && OnDisk(env, txs[1..], file, block, txPos + txs[0].size))
  }

  lemma {:induction false} SpendTotal(env: Env, a: Index, ops: seq<OutPoint>, pos: DiskPos)
    requires pos != NullPos && Spend(a, ops, pos).Some?
    ensures Total(env, Spend(a, ops, pos).value) == Total(env, a) - SumIn(env, a, ops)
    decreases |ops|
  {
    hide Total;
    if ops != [] {
      var o := ops[0];
      var m := a[o.hash := Mark(a[o.hash], o.n, pos)];
      SpendTotal(env, m, ops[1..], pos);
      MarkKeepsValues(env, a, o, pos);
      SumInCongruent(env, a, m, ops[1..]);
      MarkTotal(env, a, o, pos);
    }
  }

  lemma MarkTotal(env: Env, a: Index, o: OutPoint, pos: DiskPos)
    requires pos != NullPos && Unspent(a, o)
    ensures Total(env, a[o.hash := Mark(a[o.hash], o.n, pos)]) == Total(env, a) - ValueAt(env, a, o)
  {
    var m := a[o.hash := Mark(a[o.hash], o.n, pos)];
    MarkKeepsValues(env, a, o, pos);
    UnspentSetMember(a, o);
    SumRemove(UnspentSet(a), Values(env, a), o);
    assert UnspentSet(m) == UnspentSet(a) - {o} by {
      forall p ensures p in UnspentSet(m) <==> p in UnspentSet(a) - {o} {
        UnspentSetMember(m, p);
        UnspentSetMember(a, p);
      }
    }
    SumCongruent(UnspentSet(m), Values(env, a), Values(env, m));
  }

  lemma MarkKeepsValues(env: Env, a: Index, o: OutPoint, pos: DiskPos)
    requires o.hash in a && o.n < |a[o.hash].spent|
    ensures forall p :: ValueAt(env, a[o.hash := Mark(a[o.hash], o.n, pos)], p) == ValueAt(env, a, p)
  {
  }

  lemma {:induction false} SumInCongruent(env: Env, a: Index, b: Index, ops: seq<OutPoint>)
    requires forall p :: ValueAt(env, a, p) == ValueAt(env, b, p)
    ensures SumIn(env, a, ops) == SumIn(env, b, ops)
  {
    if ops != [] { SumInCongruent(env, a, b, ops[1..]); }
  }

  /** The outputs h:n.. of a list of outputs. */
  function NewOutputs(h: Hash, from: nat, upTo: nat): set<OutPoint> {
    set n | from <= n < upTo :: OutPoint(h, n)
  }

  lemma {:induction false} SumNewOutputs(h: Hash, vout: seq<TxOut>, from: nat, v: OutPoint -> int, base: set<OutPoint>)
    requires from <= |vout|
    requires forall n :: from <= n < |vout| ==> v(OutPoint(h, n)) == vout[n].value
    requires forall o :: o in base ==> o.hash != h
    ensures Sum(base + NewOutputs(h, from, |vout|), v) == Sum(base, v) + SumOut(vout[from..])
    decreases |vout| - from
  {
    var all := base + NewOutputs(h, from, |vout|);
    if from == |vout| {
      assert all == base;
    } else {
      var o := OutPoint(h, from);
      assert o in NewOutputs(h, from, |vout|);
      SumRemove(all, v, o);
      assert all - {o} == base + NewOutputs(h, from + 1, |vout|) by {
        forall p | p in NewOutputs(h, from, |vout|) ensures p == o || p in NewOutputs(h, from + 1, |vout|) {}
      }
      SumNewOutputs(h, vout, from + 1, v, base);
      assert vout[from..][1..] == vout[from + 1..] && vout[from..][0] == vout[from];
    }
  }

  /** Unspent outputs of one transaction, and their value. */
  ghost function UnspentOf(cur: Index, h: Hash): set<OutPoint> { set o | o in UnspentSet(cur) && o.hash == h }

  ghost function ValueUnder(env: Env, cur: Index, h: Hash): int { Sum(UnspentOf(cur, h), Values(env, cur)) }

  lemma {:induction false} SumSplit(s: set<OutPoint>, t: set<OutPoint>, v: OutPoint -> int)
    requires s !! t
    ensures Sum(s + t, v) == Sum(s, v) + Sum(t, v)
    decreases |t|
  {
    if t == {} {
      assert s + t == s;
    } else {
      var x :| x in t;
      SumRemove(t, v, x);
      SumRemove(s + t, v, x);
      assert s + t - {x} == s + (t - {x});
      SumSplit(s, t - {x}, v);
    }
  }

  /** A new entry adds its outputs and hides what was unspent under the same hash. */
  lemma CreateTotal(env: Env, a: Index, tx: Tx, pos: DiskPos)
    requires Stored(env, a)
    requires pos != MEMPOOL_POS && pos in env.disk && env.disk[pos] == tx
    ensures var b := a[tx.hash := FreshIndex(pos, |tx.vout|)];
            Stored(env, b) && Total(env, b) == Total(env, a) + ValueOut(tx) - ValueUnder(env, a, tx.hash)
  {
    var h := tx.hash;
    var b := a[h := FreshIndex(pos, |tx.vout|)];
    assert Stored(env, b);
    hide UnspentSet, UnspentOf, Sum, Stored, FreshIndex, Fetched, ValueAt;
    var va, vb := Values(env, a), Values(env, b);
    var gone := UnspentOf(a, h);
    var kept := UnspentSet(a) - gone;
    UnspentParts(a, h);
    SumSplit(kept, gone, va);
    CreatedOutputs(env, a, b, tx, pos, kept);
    SumNewOutputs(h, tx.vout, 0, vb, kept);
    assert tx.vout[0..] == tx.vout;
    SumCongruent(kept, va, vb);
  }

  lemma UnspentParts(a: Index, h: Hash)
    ensures var gone := UnspentOf(a, h);
            gone <= UnspentSet(a) && UnspentSet(a) == (UnspentSet(a) - gone) + gone
            && forall o :: o in UnspentSet(a) - gone ==> o.hash != h
  {
  }

  lemma CreatedOutputs(env: Env, a: Index, b: Index, tx: Tx, pos: DiskPos, kept: set<OutPoint>)
    requires b == a[tx.hash := FreshIndex(pos, |tx.vout|)] && kept == UnspentSet(a) - UnspentOf(a, tx.hash)
    requires pos != MEMPOOL_POS && pos in env.disk && env.disk[pos] == tx
    ensures UnspentSet(b) == kept + NewOutputs(tx.hash, 0, |tx.vout|)
    ensures forall o :: o in kept ==> ValueAt(env, a, o) == ValueAt(env, b, o)
    ensures forall n :: 0 <= n < |tx.vout| ==> ValueAt(env, b, OutPoint(tx.hash, n)) == tx.vout[n].value
  {
    forall o ensures o in UnspentSet(b) <==> o in kept + NewOutputs(tx.hash, 0, |tx.vout|) {
      UnspentSetMember(a, o);
      UnspentSetMember(b, o);
      if o.hash == tx.hash && o.n < |tx.vout| { assert o == OutPoint(tx.hash, o.n); }
    }
  }

  lemma NothingUnder(env: Env, a: Index, h: Hash)
    requires MayOverwrite(a, h)
    ensures ValueUnder(env, a, h) == 0
  {
    forall o ensures o !in UnspentOf(a, h) {
      UnspentSetMember(a, o);
      assert Unspent(a, o) ==> a[o.hash].spent[o.n] in a[o.hash].spent;
    }
    assert UnspentOf(a, h) == {};
  }

  /** Value still unspent under the hash of tx when its own entry replaces it. */
  ghost function Replaced(env: Env, cur: Index, tx: Tx, pos: DiskPos): int {
    if tx.IsCoinBase() then ValueUnder(env, cur, tx.hash)
    else
      var s := Spend(cur, tx.Outpoints(), pos);
      if s.None? then 0 else ValueUnder(env, s.value, tx.hash)
  }

  lemma ConnectTxTotal(env: Env, ctx: Context, rules: Rules, index: Index, t: Totals, tx: Tx, pos: DiskPos)
    requires Stored(env, t.cur)
    requires pos != NullPos && pos != MEMPOOL_POS && pos in env.disk && env.disk[pos] == tx
    requires ConnectTx(env, ctx, rules, index, t, tx, pos).Some?
    ensures var t' := ConnectTx(env, ctx, rules, index, t, tx, pos).value;
            && Stored(env, t'.cur)
            && Total(env, t'.cur) - Total(env, t.cur)
               == (t'.valueOut - t.valueOut) - (t'.valueIn - t.valueIn) - Replaced(env, t.cur, tx, pos)
  {
    hide LegacySigOps, P2shSigOps, Total, ValueUnder;
    if tx.IsCoinBase() {
      CreateTotal(env, t.cur, tx, pos);
    } else {
      var ops := tx.Outpoints();
      var s := Spend(t.cur, ops, pos).value;
      SpendMarks(t.cur, ops, pos);
      SpendTotal(env, t.cur, ops, pos);
      CreateTotal(env, s, tx, pos);
    }
  }

  lemma NothingReplaced(env: Env, cur: Index, tx: Tx, pos: DiskPos)
    requires pos != NullPos && MayOverwrite(cur, tx.hash)
    ensures Replaced(env, cur, tx, pos) == 0
  {
    hide ValueUnder;
    if tx.IsCoinBase() {
      NothingUnder(env, cur, tx.hash);
    } else if Spend(cur, tx.Outpoints(), pos).Some? {
      var s := Spend(cur, tx.Outpoints(), pos).value;
      SpendMarks(cur, tx.Outpoints(), pos);
      if tx.hash in s {
        forall n | 0 <= n < |s[tx.hash].spent| ensures s[tx.hash].spent[n] != NullPos {
          assert cur[tx.hash].spent[n] in cur[tx.hash].spent;
        }
      }
      NothingUnder(env, s, tx.hash);
    }
  }

  /** Value lost over a whole list, each transaction against the index left by those before it. */
  ghost function Lost(env: Env, ctx: Context, rules: Rules, index: Index, t: Totals, txs: seq<Tx>, file: nat,
                      block: nat, txPos: nat): int
    decreases |txs|
  {
    if txs == [] then 0
    else
      var pos := Pos(file, block, txPos);
      var t' := ConnectTx(env, ctx, rules, index, t, txs[0], pos);
      if t'.None? then 0
      else
        Replaced(env, t.cur, txs[0], pos)
        + Lost(env, ctx, rules, index, t'.value, txs[1..], file, block, txPos + txs[0].size)
  }

  lemma {:induction false} ConnectTxsTotal(env: Env, ctx: Context, rules: Rules, index: Index, t: Totals, txs: seq<Tx>,
                                           file: nat, block: nat, txPos: nat)
    requires Stored(env, t.cur) && OnDisk(env, txs, file, block, txPos)
    requires ConnectTxs(env, ctx, rules, index, t, txs, file, block, txPos).Some?
    ensures var t' := ConnectTxs(env, ctx, rules, index, t, txs, file, block, txPos).value;
            && Stored(env, t'.cur)
            && Total(env, t'.cur) - Total(env, t.cur)
               == (t'.valueOut - t.valueOut) - (t'.valueIn - t.valueIn)
                  - Lost(env, ctx, rules, index, t, txs, file, block, txPos)
    decreases |txs|
  {
    hide ConnectTx, Total, Replaced;
    if txs != [] {
      var tx, pos := txs[0], Pos(file, block, txPos);
      var t1 := ConnectTx(env, ctx, rules, index, t, tx, pos).value;
      ConnectTxTotal(env, ctx, rules, index, t, tx, pos);
      ConnectTxsTotal(env, ctx, rules, index, t1, txs[1..], file, block, txPos + tx.size);
    }
  }

  /** Nothing is lost when no transaction replaces an entry with an unspent output. */
  lemma {:induction false} NothingLost(env: Env, ctx: Context, rules: Rules, index: Index, t: Totals, txs: seq<Tx>,
                                       file: nat, block: nat, txPos: nat)
    requires DistinctHashes(txs) && Overwritable(t.cur, txs)
    ensures Lost(env, ctx, rules, index, t, txs, file, block, txPos) == 0
    decreases |txs|
  {
    hide ConnectTx, Replaced;
    if txs != [] {
      var tx, pos := txs[0], Pos(file, block, txPos);
      NothingReplaced(env, t.cur, tx, pos);
      if ConnectTx(env, ctx, rules, index, t, tx, pos).Some? {
        var t1 := ConnectTx(env, ctx, rules, index, t, tx, pos).value;
        ConnectTxConnects(env, ctx, rules, index, t, tx, pos);
        OverwritableAfter(t.cur, t1.cur, txs, pos);
        NothingLost(env, ctx, rules, index, t1, txs[1..], file, block, txPos + tx.size);
      }
    }
  }

  // ----- What a block may add -----

  /** Fees collected from, and value added by, a list of ordinary transactions balance out. */
  lemma {:induction false} OrdinaryTxs(env: Env, ctx: Context, rules: Rules, index: Index, t: Totals, txs: seq<Tx>,
                                       file: nat, block: nat, txPos: nat)
    requires forall i :: 0 <= i < |txs| ==> !txs[i].IsCoinBase() && !txs[i].IsCoinStake()
    requires ConnectTxs(env, ctx, rules, index, t, txs, file, block, txPos).Some?
    ensures var t' := ConnectTxs(env, ctx, rules, index, t, txs, file, block, txPos).value;
            && t'.fees >= t.fees
            && t'.valueOut - t'.valueIn + t'.fees == t.valueOut - t.valueIn + t.fees
    decreases |txs|
  {
    hide LegacySigOps, P2shSigOps, Spend, ValueIn, ValueOut;
    if txs != [] {
      var t1 := ConnectTx(env, ctx, rules, index, t, txs[0], Pos(file, block, txPos)).value;
      OrdinaryTxs(env, ctx, rules, index, t1, txs[1..], file, block, txPos + txs[0].size);
    }
  }

  /** A proof-of-work block adds at most the subsidy. */
  lemma ProofOfWorkAdds(env: Env, ctx: Context, height: nat, index: Index, block: Block)
    requires height / 210000 < 64 && ConnectBlock(env, ctx, height, index, block).Some?
    requires !block.IsProofOfStake()
    ensures var t := ConnectBlock(env, ctx, height, index, block).value;
            t.valueOut - t.valueIn <= GetBlockValue(height, 0)
  {
    hide LegacySigOps, P2shSigOps, ValueOut, CheckTransaction;
    var txs, rules := block.txs, RulesOf(block);
    var t1 := ConnectTx(env, ctx, rules, index, Begin(index), txs[0], Pos(block.file, block.pos, block.firstTx)).value;
    OrdinaryTxs(env, ctx, rules, index, t1, txs[1..], block.file, block.pos, block.firstTx + txs[0].size);
  }

  /** A proof-of-stake block adds at most what its coinstake spends. */
  lemma ProofOfStakeAdds(env: Env, ctx: Context, height: nat, index: Index, block: Block)
    requires height / 210000 < 64 && ConnectBlock(env, ctx, height, index, block).Some?
    requires block.IsProofOfStake()
    ensures var t := ConnectBlock(env, ctx, height, index, block).value;
            var afterBase := index[block.txs[0].hash := FreshIndex(Pos(block.file, block.pos, block.firstTx), 1)];
            t.valueOut - t.valueIn <= ValueIn(env, afterBase, block.txs[1])
  {
    hide ConnectTx, ValueIn, CheckTransaction, LegacySigOpsOf, BlockSize;
    var txs, rules := block.txs, RulesOf(block);
    var second, rest := txs[1..], txs[2..];
    assert second[0] == txs[1] && second[1..] == rest;
    var pos1 := Pos(block.file, block.pos, block.firstTx);
    var t1 := ConnectTx(env, ctx, rules, index, Begin(index), txs[0], pos1).value;
    EmptyCoinBase(env, ctx, rules, index, txs[0], pos1);
    var pos2 := block.firstTx + txs[0].size;
    assert ConnectTxs(env, ctx, rules, index, t1, second, block.file, block.pos, pos2).Some?;
    var t2 := ConnectTx(env, ctx, rules, index, t1, txs[1], Pos(block.file, block.pos, pos2)).value;
    CoinStakeAdds(env, ctx, rules, index, t1, txs[1], Pos(block.file, block.pos, pos2));
    OrdinaryTxs(env, ctx, rules, index, t2, rest, block.file, block.pos, pos2 + txs[1].size);
  }

  lemma EmptyCoinBase(env: Env, ctx: Context, rules: Rules, index: Index, tx: Tx, pos: DiskPos)
    requires tx.IsCoinBase() && |tx.vout| == 1 && tx.vout[0].IsEmpty()
    requires ConnectTx(env, ctx, rules, index, Begin(index), tx, pos).Some?
    ensures var t := ConnectTx(env, ctx, rules, index, Begin(index), tx, pos).value;
            t.cur == index[tx.hash := FreshIndex(pos, 1)] && t.valueOut == t.valueIn == t.fees == 0
  {
    hide LegacySigOps;
    assert SumOut(tx.vout[1..]) == 0;
  }

  lemma CoinStakeAdds(env: Env, ctx: Context, rules: Rules, index: Index, t: Totals, tx: Tx, pos: DiskPos)
    requires tx.IsCoinStake() && !tx.IsCoinBase()
    requires ConnectTx(env, ctx, rules, index, t, tx, pos).Some?
    ensures var t' := ConnectTx(env, ctx, rules, index, t, tx, pos).value;
            && t'.fees == t.fees
            && (t'.valueOut - t.valueOut) - (t'.valueIn - t.valueIn) <= ValueIn(env, t.cur, tx)
  {
    hide LegacySigOps, P2shSigOps, ValueIn, ValueOut, Spend, InputsInRange;
  }

  // ----- Two indexes that differ only in forgotten, fully spent entries -----

  /** a is b without some entries that have nothing left to spend. */
  ghost predicate Forgets(a: Index, b: Index) {
    && a.Keys <= b.Keys
    && (forall k :: k in a ==> a[k] == b[k])
    && (forall k :: k in b && k !in a ==> FullySpent(b[k]))
  }

  lemma ForgetsTotal(env: Env, a: Index, b: Index)
    requires Forgets(a, b)
    ensures Total(env, a) == Total(env, b)
  {
    forall o ensures o in UnspentSet(a) <==> o in UnspentSet(b) {
      UnspentSetMember(a, o);
      UnspentSetMember(b, o);
      assert Unspent(b, o) ==> b[o.hash].spent[o.n] in b[o.hash].spent;
    }
    assert UnspentSet(a) == UnspentSet(b);
    forall o | o in UnspentSet(a) ensures Values(env, a)(o) == Values(env, b)(o) {
      UnspentSetMember(a, o);
    }
    SumCongruent(UnspentSet(a), Values(env, a), Values(env, b));
  }

  lemma {:induction false} ForgetsSpend(a: Index, b: Index, ops: seq<OutPoint>, pos: DiskPos)
    requires Forgets(a, b) && Spend(a, ops, pos).Some?
    ensures Spend(b, ops, pos).Some? && Forgets(Spend(a, ops, pos).value, Spend(b, ops, pos).value)
    decreases |ops|
  {
    if ops != [] {
      var h, n := ops[0].hash, ops[0].n;
      var a1, b1 := a[h := Mark(a[h], n, pos)], b[h := Mark(b[h], n, pos)];
      ForgetsSpend(a1, b1, ops[1..], pos);
    }
  }

  lemma {:induction false} ForgetsInputs(env: Env, a: Index, b: Index, ops: seq<OutPoint>, total: int)
    requires Forgets(a, b) && forall i :: 0 <= i < |ops| ==> ops[i].hash in a
    ensures SumIn(env, a, ops) == SumIn(env, b, ops)
    ensures InputsInRange(env, a, ops, total) == InputsInRange(env, b, ops, total)
    decreases |ops|
  {
    if ops != [] {
      assert ops[0].hash in a;
      forall i | 0 <= i < |ops[1..]| ensures ops[1..][i].hash in a { assert ops[1..][i] == ops[i + 1]; }
      ForgetsInputs(env, a, b, ops[1..], total + ValueAt(env, a, ops[0]));
    }
  }

  lemma {:induction false} ForgetsSigOps(env: Env, a: Index, b: Index, vin: seq<TxIn>)
    requires Forgets(a, b) && forall i :: 0 <= i < |vin| ==> vin[i].prevout.hash in a
    ensures P2shSigOps(env, a, vin) == P2shSigOps(env, b, vin)
    decreases |vin|
  {
    if vin != [] {
      assert vin[0].prevout.hash in a;
      forall i | 0 <= i < |vin[1..]| ensures vin[1..][i].prevout.hash in a { assert vin[1..][i] == vin[i + 1]; }
      ForgetsSigOps(env, a, b, vin[1..]);
    }
  }

  lemma ForgetsConnectInputs(env: Env, ctx: Context, a: Index, b: Index, tx: Tx, pos: DiskPos)
    requires Forgets(a, b) && ConnectInputs(env, ctx, a, tx, pos).Some?
    ensures ConnectInputs(env, ctx, b, tx, pos).Some?
    ensures Forgets(ConnectInputs(env, ctx, a, tx, pos).value, ConnectInputs(env, ctx, b, tx, pos).value)
    ensures ValueIn(env, a, tx) == ValueIn(env, b, tx) && P2shSigOps(env, a, tx.vin) == P2shSigOps(env, b, tx.vin)
  {
    hide Spend, VerifySignature, Immature;
    var ops := tx.Outpoints();
    forall i | 0 <= i < |tx.vin|
      ensures ops[i].hash in a && Fetched(env, b, ops[i]) && PrevTx(env, a, ops[i]) == PrevTx(env, b, ops[i])
      ensures Mature(env, ctx, b, ops[i])
    {
      assert Fetched(env, a, tx.vin[i].prevout);
      assert Mature(env, ctx, a, tx.vin[i].prevout);
    }
    ForgetsSpend(a, b, ops, pos);
    ForgetsInputs(env, a, b, ops, 0);
    forall i | 0 <= i < |tx.vin| ensures tx.vin[i].prevout.hash in a { assert ops[i].hash in a; }
    ForgetsSigOps(env, a, b, tx.vin);
  }

  /** The loop state over b that corresponds to the loop state t over a. */
  ghost predicate Mirrors(t: Totals, u: Totals) {
    Forgets(t.cur, u.cur) && u == t.(cur := u.cur)
  }

  lemma MirrorsTx(env: Env, ctx: Context, rules: Rules, a: Index, b: Index, t: Totals, u: Totals, tx: Tx, pos: DiskPos)
    requires Forgets(a, b) && Mirrors(t, u) && ConnectTx(env, ctx, rules, a, t, tx, pos).Some?
    ensures ConnectTx(env, ctx, rules, b, u, tx, pos).Some?
    ensures Mirrors(ConnectTx(env, ctx, rules, a, t, tx, pos).value, ConnectTx(env, ctx, rules, b, u, tx, pos).value)
  {
    hide LegacySigOps, ConnectSpending, ValueOut, FreshIndex;
    if !tx.IsCoinBase() { MirrorsSpending(env, ctx, rules, t, u, t.sigOps + LegacySigOps(tx), tx, pos); }
  }

  lemma MirrorsSpending(env: Env, ctx: Context, rules: Rules, t: Totals, u: Totals, sigOps: nat, tx: Tx, pos: DiskPos)
    requires Mirrors(t, u) && ConnectSpending(env, ctx, rules, t, sigOps, tx, pos).Some?
    ensures ConnectSpending(env, ctx, rules, u, sigOps, tx, pos).Some?
    ensures Mirrors(ConnectSpending(env, ctx, rules, t, sigOps, tx, pos).value,
                    ConnectSpending(env, ctx, rules, u, sigOps, tx, pos).value)
  {
    hide P2shSigOps, ConnectInputs, ValueIn, ValueOut, FreshIndex;
    ForgetsConnectInputs(env, ctx, t.cur, u.cur, tx, pos);
  }

  lemma {:induction false} MirrorsTxs(env: Env, ctx: Context, rules: Rules, a: Index, b: Index, t: Totals, u: Totals,
                                      txs: seq<Tx>, file: nat, block: nat, txPos: nat)
    requires Forgets(a, b) && Mirrors(t, u) && ConnectTxs(env, ctx, rules, a, t, txs, file, block, txPos).Some?
    ensures ConnectTxs(env, ctx, rules, b, u, txs, file, block, txPos).Some?
    ensures Mirrors(ConnectTxs(env, ctx, rules, a, t, txs, file, block, txPos).value,
                    ConnectTxs(env, ctx, rules, b, u, txs, file, block, txPos).value)
    decreases |txs|
  {
    hide ConnectTx;
    if txs != [] {
      var pos := Pos(file, block, txPos);
      MirrorsTx(env, ctx, rules, a, b, t, u, txs[0], pos);
      MirrorsTxs(env, ctx, rules, a, b, ConnectTx(env, ctx, rules, a, t, txs[0], pos).value,
                 ConnectTx(env, ctx, rules, b, u, txs[0], pos).value, txs[1..], file, block, txPos + txs[0].size);
    }
  }

  lemma {:induction false} ForgetsUnspend(a: Index, b: Index, ops: seq<OutPoint>)
    requires Forgets(a, b) && Unspend(a, ops).Some?
    ensures Unspend(b, ops).Some? && Forgets(Unspend(a, ops).value, Unspend(b, ops).value)
    decreases |ops|
  {
    if ops != [] {
      var h, n := ops[0].hash, ops[0].n;
      ForgetsUnspend(a[h := Mark(a[h], n, NullPos)], b[h := Mark(b[h], n, NullPos)], ops[1..]);
    }
  }

  lemma {:induction false} ForgetsDisconnect(a: Index, b: Index, txs: seq<Tx>)
    requires Forgets(a, b) && DisconnectTxs(a, txs).Some?
    ensures DisconnectTxs(b, txs).Some? && Forgets(DisconnectTxs(a, txs).value, DisconnectTxs(b, txs).value)
    decreases |txs|
  {
    if txs != [] {
      ForgetsDisconnect(a, b, txs[1..]);
      var a1, b1 := DisconnectTxs(a, txs[1..]).value, DisconnectTxs(b, txs[1..]).value;
      if !txs[0].IsCoinBase() { ForgetsUnspend(a1, b1, txs[0].Outpoints()); }
    }
  }

  // ----- Runs -----

  /** A connected block and the supply recorded with it. */
  datatype Link = Link(block: Block, ctx: Context, supply: int)

  /** The index and the blocks connected above genesis, which itself is never connected. */
  datatype State = State(index: Index, chain: seq<Link>)

  datatype Event = ConnectTip(block: Block, ctx: Context) | DisconnectTip

  const GENESIS := State(map[], [])
  const LAST_HEIGHT := 64 * 210000 - 1

  function SupplyOf(chain: seq<Link>): int {
    if chain == [] then 0 else chain[|chain| - 1].supply
  }

  /** One successful tip connect or tip disconnect. */
  function Apply(env: Env, s: State, e: Event): Option<State> {
    match e
    case ConnectTip(block, ctx) =>
      if |s.chain| + 1 > LAST_HEIGHT then None
      else
        var t := ConnectBlock(env, ctx, |s.chain| + 1, s.index, block);
        if t.None? then None
        else Some(State(t.value.cur,
                        s.chain + [Link(block, ctx, SupplyOf(s.chain) + t.value.valueOut - t.value.valueIn)]))
    case DisconnectTip =>
      if s.chain == [] then None
      else
        var r := DisconnectTxs(s.index, s.chain[|s.chain| - 1].block.txs);
        if r.None? then None else Some(State(r.value, s.chain[..|s.chain| - 1]))
  }

  function ApplyAll(env: Env, s: State, events: seq<Event>): Option<State>
    decreases |events|
  {
    if events == [] then Some(s)
    else
      var s' := Apply(env, s, events[0]);
      if s'.None? then None else ApplyAll(env, s'.value, events[1..])
  }

  /** The block was written to the block files before being connected. */
  ghost predicate Written(env: Env, block: Block) { OnDisk(env, block.txs, block.file, block.pos, block.firstTx) }

  /** A connect of a written block that replaces no entry with an unspent output, or a disconnect. */
  ghost predicate Acceptable(env: Env, s: State, e: Event) {
    e.ConnectTip? ==> Written(env, e.block) && Overwritable(s.index, e.block.txs)
  }

  /** Every event of the run is acceptable where it happens. */
  ghost predicate RunOk(env: Env, s: State, events: seq<Event>)
    decreases |events|
  {
    events == [] ||
    (&& Acceptable(env, s, events[0])
     && var s' := Apply(env, s, events[0]);
        s'.Some? ==> RunOk(env, s'.value, events[1..]))
  }

  /** past[i] is the index got by connecting the first i blocks of the chain, one after the other. */
  ghost predicate History(env: Env, chain: seq<Link>, past: seq<Index>) {
    && |past| == |chain| + 1 && |chain| <= LAST_HEIGHT && past[0] == map[]
    && (forall i :: 0 <= i <= |chain| ==> Stored(env, past[i]) && Total(env, past[i]) == SupplyOf(chain[..i]))
    && (forall i :: 0 <= i < |chain| ==> LinkOk(env, chain[i], i + 1, SupplyOf(chain[..i]), past[i], past[i + 1]))
  }

  /** The block connects, from before to after, and records what it adds to the supply. */
  ghost predicate LinkOk(env: Env, link: Link, height: nat, supply: int, before: Index, after: Index) {
    && height / 210000 < 64
    && var t := ConnectBlock(env, link.ctx, height, before, link.block);
    && t.Some? && t.value.cur == after && Overwritable(before, link.block.txs)
    && link.supply == supply + t.value.valueOut - t.value.valueIn
  }

  lemma ConnectBlockMirrors(env: Env, ctx: Context, height: nat, a: Index, b: Index, block: Block)
    requires height / 210000 < 64 && Forgets(a, b) && ConnectBlock(env, ctx, height, a, block).Some?
    ensures ConnectBlock(env, ctx, height, b, block).Some?
    ensures Mirrors(ConnectBlock(env, ctx, height, a, block).value, ConnectBlock(env, ctx, height, b, block).value)
  {
    hide ConnectTxs, CheckBlock;
    MirrorsTxs(env, ctx, RulesOf(block), a, b, Begin(a), Begin(b), block.txs, block.file, block.pos, block.firstTx);
  }

  /** What a block loses by replacing entries that still have unspent outputs. */
  ghost function BlockLoses(env: Env, ctx: Context, index: Index, block: Block): int {
    Lost(env, ctx, RulesOf(block), index, Begin(index), block.txs, block.file, block.pos, block.firstTx)
  }

  /** A connected block changes the total by what it creates less what it spends and what it loses. */
  lemma ConnectBlockTotal(env: Env, ctx: Context, height: nat, index: Index, block: Block)
    requires height / 210000 < 64 && Stored(env, index) && ConnectBlock(env, ctx, height, index, block).Some?
    requires Written(env, block)
    ensures var t := ConnectBlock(env, ctx, height, index, block).value;
            && Stored(env, t.cur)
            && Total(env, t.cur) == Total(env, index) + t.valueOut - t.valueIn - BlockLoses(env, ctx, index, block)
    ensures Overwritable(index, block.txs) ==> BlockLoses(env, ctx, index, block) == 0
  {
    hide ConnectTxs, Total, Lost;
    ConnectTxsTotal(env, ctx, RulesOf(block), index, Begin(index), block.txs, block.file, block.pos, block.firstTx);
    if Overwritable(index, block.txs) {
      NothingLost(env, ctx, RulesOf(block), index, Begin(index), block.txs, block.file, block.pos, block.firstTx);
    }
  }

  /** A tip connect puts recorded supply and unspent total apart by exactly what the block loses. */
  lemma ConnectBreaksBy(env: Env, s: State, block: Block, ctx: Context)
    requires Stored(env, s.index) && Written(env, block) && Apply(env, s, ConnectTip(block, ctx)).Some?
    ensures var s' := Apply(env, s, ConnectTip(block, ctx)).value;
            SupplyOf(s'.chain) - Total(env, s'.index)
            == SupplyOf(s.chain) - Total(env, s.index) + BlockLoses(env, ctx, s.index, block)
  {
    hide ConnectBlock, Total, BlockLoses;
    ConnectBlockTotal(env, ctx, |s.chain| + 1, s.index, block);
  }

  lemma OverwritableMore(a: Index, b: Index, txs: seq<Tx>)
    requires Forgets(a, b) && Overwritable(a, txs)
    ensures Overwritable(b, txs)
  {
  }

  lemma HistoryGrows(env: Env, chain: seq<Link>, past: seq<Index>, link: Link, after: Index)
    requires History(env, chain, past) && |chain| < LAST_HEIGHT
    requires LinkOk(env, link, |chain| + 1, SupplyOf(chain), past[|chain|], after)
    requires Stored(env, after) && Total(env, after) == link.supply
    ensures History(env, chain + [link], past + [after])
  {
    hide LinkOk, Total, Stored;
    var n, chain', past' := |chain|, chain + [link], past + [after];
    forall i | 0 <= i <= n + 1 ensures Stored(env, past'[i]) && Total(env, past'[i]) == SupplyOf(chain'[..i]) {
      if i <= n { assert chain'[..i] == chain[..i]; } else { assert chain'[..i] == chain'; }
    }
    forall i | 0 <= i < n + 1 ensures LinkOk(env, chain'[i], i + 1, SupplyOf(chain'[..i]), past'[i], past'[i + 1]) {
      assert chain'[..i] == chain[..i];
      if i < n {
        assert LinkOk(env, chain[i], i + 1, SupplyOf(chain[..i]), past[i], past[i + 1]);
      } else {
        assert chain[..n] == chain;
      }
    }
  }

  lemma HistoryShrinks(env: Env, chain: seq<Link>, past: seq<Index>)
    requires History(env, chain, past) && chain != []
    ensures History(env, chain[..|chain| - 1], past[..|chain|])
  {
    hide LinkOk, Total, Stored;
    var n := |chain|;
    var chain', past' := chain[..n - 1], past[..n];
    forall i | 0 <= i <= n - 1 ensures Stored(env, past'[i]) && Total(env, past'[i]) == SupplyOf(chain'[..i]) {
      assert chain'[..i] == chain[..i];
    }
    forall i | 0 <= i < n - 1 ensures LinkOk(env, chain'[i], i + 1, SupplyOf(chain'[..i]), past'[i], past'[i + 1]) {
      assert chain'[..i] == chain[..i];
      assert LinkOk(env, chain[i], i + 1, SupplyOf(chain[..i]), past[i], past[i + 1]);
    }
  }

  lemma HistoryTip(env: Env, chain: seq<Link>, past: seq<Index>)
    requires History(env, chain, past)
    ensures |past| == |chain| + 1
    ensures Stored(env, past[|chain|]) && Total(env, past[|chain|]) == SupplyOf(chain)
    ensures chain != [] ==>
              LinkOk(env, chain[|chain| - 1], |chain|, SupplyOf(chain[..|chain| - 1]), past[|chain| - 1], past[|chain|])
  {
    hide LinkOk, Total, Stored;
    var n := |chain|;
    assert chain[..n] == chain;
    assert Stored(env, past[n]) && Total(env, past[n]) == SupplyOf(chain[..n]);
    if n > 0 { assert LinkOk(env, chain[n - 1], n - 1 + 1, SupplyOf(chain[..n - 1]), past[n - 1], past[n - 1 + 1]); }
  }

  lemma StepKeepsHistory(env: Env, s: State, e: Event, past: seq<Index>) returns (past': seq<Index>)
    requires History(env, s.chain, past) && Forgets(s.index, past[|s.chain|])
    requires Acceptable(env, s, e) && Apply(env, s, e).Some?
    ensures var s' := Apply(env, s, e).value;
            History(env, s'.chain, past') && Forgets(s'.index, past'[|s'.chain|])
  {
    hide ConnectBlock, Total, Stored, DisconnectTxs, Forgets, History, BlockLoses, Overwritable;
    HistoryTip(env, s.chain, past);
    var n := |s.chain|;
    match e
    case ConnectTip(block, ctx) =>
      ConnectBlockMirrors(env, ctx, n + 1, s.index, past[n], block);
      var t := ConnectBlock(env, ctx, n + 1, past[n], block).value;
      OverwritableMore(s.index, past[n], block.txs);
      ConnectBlockTotal(env, ctx, n + 1, past[n], block);
      var link := Link(block, ctx, SupplyOf(s.chain) + t.valueOut - t.valueIn);
      past' := past + [t.cur];
      assert LinkOk(env, link, n + 1, SupplyOf(s.chain), past[n], t.cur);
      HistoryGrows(env, s.chain, past, link, t.cur);
    case DisconnectTip =>
      past' := past[..n];
      DisconnectForgets(env, s.chain[n - 1], n, SupplyOf(s.chain[..n - 1]), s.index, past[n - 1], past[n]);
      HistoryShrinks(env, s.chain, past);
  }

  lemma DisconnectForgets(env: Env, link: Link, height: nat, supply: int, index: Index, before: Index, after: Index)
    requires LinkOk(env, link, height, supply, before, after) && Forgets(index, after)
    requires DisconnectTxs(index, link.block.txs).Some?
    ensures Forgets(DisconnectTxs(index, link.block.txs).value, before)
  {
    hide ConnectBlock, DisconnectTxs;
    BlockUndone(env, link.ctx, height, before, link.block);
    ForgetsDisconnect(index, after, link.block.txs);
    HashesOverwritable(before, link.block.txs);
  }

  lemma {:induction false} RunKeepsHistory(env: Env, s: State, events: seq<Event>,
                                           past: seq<Index>) returns (past': seq<Index>)
    requires History(env, s.chain, past) && Forgets(s.index, past[|s.chain|])
    requires RunOk(env, s, events) && ApplyAll(env, s, events).Some?
    ensures var s' := ApplyAll(env, s, events).value;
            History(env, s'.chain, past') && Forgets(s'.index, past'[|s'.chain|])
    decreases |events|
  {
    hide Apply, History, Forgets, Acceptable;
    if events == [] {
      past' := past;
    } else {
      var mid := StepKeepsHistory(env, s, events[0], past);
      past' := RunKeepsHistory(env, Apply(env, s, events[0]).value, events[1..], mid);
    }
  }

  /** Every run from genesis has a history. */
  lemma RunHasHistory(env: Env, events: seq<Event>) returns (past: seq<Index>)
    requires RunOk(env, GENESIS, events) && ApplyAll(env, GENESIS, events).Some?
    ensures var s := ApplyAll(env, GENESIS, events).value;
            History(env, s.chain, past) && Forgets(s.index, past[|s.chain|])
  {
    hide ApplyAll, Total, Stored, RunOk;
    var past0 := [map[]];
    assert Stored(env, map[]) && Total(env, map[]) == 0 by { EmptyTotal(env); }
    assert History(env, [], past0);
    past := RunKeepsHistory(env, GENESIS, events, past0);
  }

  /** Along every run from genesis the recorded supply is the value of the unspent outputs. */
  lemma SupplyIsUnspentTotal(env: Env, events: seq<Event>)
    requires RunOk(env, GENESIS, events) && ApplyAll(env, GENESIS, events).Some?
    ensures var s := ApplyAll(env, GENESIS, events).value;
            SupplyOf(s.chain) == Total(env, s.index)
  {
    hide ApplyAll, Total, Stored, History, RunOk;
    var past := RunHasHistory(env, events);
    var s := ApplyAll(env, GENESIS, events).value;
    HistoryTip(env, s.chain, past);
    ForgetsTotal(env, s.index, past[|s.chain|]);
  }

  /** A written block the BIP 30 rule is applied to. */
  ghost predicate Dated(env: Env, e: Event) {
    e.ConnectTip? ==> e.block.time > BIP30_SWITCH_TIME && Written(env, e.block)
  }

  lemma DatedIsAcceptable(env: Env, s: State, e: Event)
    requires Dated(env, e) && Apply(env, s, e).Some?
    ensures Acceptable(env, s, e)
  {
    hide ConnectTxs, GetBlockValue, CheckBlock, Overwritable, DisconnectTxs;
    match e
    case ConnectTip(block, ctx) =>
      Bip30MakesReversible(env, ctx, RulesOf(block), s.index, Begin(s.index), block.txs, block.file, block.pos,
                           block.firstTx);
    case DisconnectTip =>
  }

  lemma {:induction false} DatedRunOk(env: Env, s: State, events: seq<Event>)
    requires (forall i :: 0 <= i < |events| ==> Dated(env, events[i])) && ApplyAll(env, s, events).Some?
    ensures RunOk(env, s, events)
    decreases |events|
  {
    hide Apply, Dated, Acceptable;
    if events != [] {
      DatedIsAcceptable(env, s, events[0]);
      var s' := Apply(env, s, events[0]).value;
      DatedRunOk(env, s', events[1..]);
    }
  }

  /** In particular when every block is dated after the BIP 30 switch. */
  lemma DatedSupply(env: Env, events: seq<Event>)
    requires (forall i :: 0 <= i < |events| ==> Dated(env, events[i])) && ApplyAll(env, GENESIS, events).Some?
    ensures var s := ApplyAll(env, GENESIS, events).value;
            SupplyOf(s.chain) == Total(env, s.index)
  {
    hide ApplyAll, Total, RunOk;
    DatedRunOk(env, GENESIS, events);
    SupplyIsUnspentTotal(env, events);
  }

  lemma EmptyTotal(env: Env)
    ensures Stored(env, map[]) && Total(env, map[]) == 0
  {
    assert UnspentSet(map[]) == {};
  }

  // ----- The cap -----

  /** Subsidy of a halving era. */
  function Subsidy(era: nat): int { 50 * COIN / Pow2(era) }

  /** What blocks 1 to n may create. */
  function Subsidies(n: nat): int
    requires n <= LAST_HEIGHT
  {
    if n == 0 then 0 else Subsidies(n - 1) + GetBlockValue(n, 0)
  }

  function EraSum(era: nat): int { if era == 0 then 0 else EraSum(era - 1) + Subsidy(era - 1) }

  lemma SubsidyHalves(era: nat)
    ensures 2 * Subsidy(era + 1) <= Subsidy(era)
  {
    var a, p, q := 50 * COIN, Pow2(era), Subsidy(era + 1);
    assert a == Pow2(era + 1) * q + a % Pow2(era + 1);
    assert a >= p * (2 * q);
    var r := a / p;
    assert a == p * r + a % p;
    if r < 2 * q { Times(p, r + 1, 2 * q); }
  }

  lemma SubsidyNotNegative(era: nat)
    ensures Subsidy(era) >= 0
  {
    var a, p := 50 * COIN, Pow2(era);
    var q := a / p;
    assert a == p * q + a % p;
    if q < 0 { Times(p, q, -1); }
  }

  lemma Times(p: nat, x: int, y: int)
    requires x <= y
    ensures p * x <= p * y
  {
  }

  /** The geometric series, with its rounding. */
  lemma {:induction false} ErasBounded(era: nat)
    ensures EraSum(era) + 2 * Subsidy(era) <= 2 * Subsidy(0)
  {
    if era > 0 {
      ErasBounded(era - 1);
      SubsidyHalves(era - 1);
    }
  }

  lemma {:induction false} SubsidiesBounded(era: nat, r: nat)
    requires r < 210000 && 210000 * era + r <= LAST_HEIGHT
    ensures Subsidies(210000 * era + r) <= 210000 * EraSum(era) + (r + 1) * Subsidy(era)
    decreases era, r
  {
    hide Subsidy, Subsidies;
    SubsidyNotNegative(era);
    SubsidiesStep(era, r);
    if r > 0 {
      SubsidiesBounded(era, r - 1);
      assert (r + 1) * Subsidy(era) == r * Subsidy(era) + Subsidy(era);
    } else if era > 0 {
      SubsidiesBounded(era - 1, 209999);
    }
  }

  lemma SubsidiesStep(era: nat, r: nat)
    requires r < 210000 && 210000 * era + r <= LAST_HEIGHT
    ensures var n := 210000 * era + r;
            Subsidies(n) == if n == 0 then 0 else Subsidies(n - 1) + Subsidy(era)
  {
    var n := 210000 * era + r;
    assert n / 210000 == era;
  }

  lemma SubsidiesCapped(n: nat)
    requires n <= LAST_HEIGHT
    ensures Subsidies(n) <= MAX_MONEY
  {
    var e := n / 210000;
    SubsidiesBounded(e, n % 210000);
    ErasBounded(e);
    assert Subsidy(0) == 50 * COIN;
    SubsidyNotNegative(e);
    hide Subsidy, Subsidies, EraSum;
    Times(Subsidy(e), n % 210000 + 1, 210000);
  }

  // ----- Mixed chains -----

  /** The index after connecting the first n blocks of a chain, one after the other. */
  ghost function Replay(env: Env, chain: seq<Link>, n: nat): Index
    requires n <= |chain| <= LAST_HEIGHT
    decreases n
  {
    if n == 0 then map[]
    else
      var t := ConnectBlock(env, chain[n - 1].ctx, n, Replay(env, chain, n - 1), chain[n - 1].block);
      if t.Some? then t.value.cur else map[]
  }

  /** What block n may add: the subsidy, or what its coinstake spends. */
  ghost function Allowance(env: Env, chain: seq<Link>, n: nat): int
    requires 0 < n <= |chain| <= LAST_HEIGHT
  {
    var block := chain[n - 1].block;
    if block.IsProofOfStake() then
      var base := FreshIndex(Pos(block.file, block.pos, block.firstTx), 1);
      ValueIn(env, Replay(env, chain, n - 1)[block.txs[0].hash := base], block.txs[1])
    else GetBlockValue(n, 0)
  }

  ghost function Allowances(env: Env, chain: seq<Link>, n: nat): int
    requires n <= |chain| <= LAST_HEIGHT
  {
    if n == 0 then 0 else Allowances(env, chain, n - 1) + Allowance(env, chain, n)
  }

  lemma {:induction false} ReplayIs(env: Env, chain: seq<Link>, past: seq<Index>, n: nat)
    requires History(env, chain, past) && n <= |chain|
    ensures |chain| <= LAST_HEIGHT && past[n] == Replay(env, chain, n)
    decreases n
  {
    hide ConnectBlock, Stored, Total;
    if n > 0 {
      ReplayIs(env, chain, past, n - 1);
      HistoryLink(env, chain, past, n);
    }
  }

  lemma HistoryLink(env: Env, chain: seq<Link>, past: seq<Index>, n: nat)
    requires History(env, chain, past) && 0 < n <= |chain|
    ensures |past| == |chain| + 1
    ensures LinkOk(env, chain[n - 1], n, SupplyOf(chain[..n - 1]), past[n - 1], past[n])
  {
    hide LinkOk, Stored, Total;
    assert LinkOk(env, chain[n - 1], n - 1 + 1, SupplyOf(chain[..n - 1]), past[n - 1], past[n - 1 + 1]);
  }

  lemma {:induction false} ChainBounded(env: Env, chain: seq<Link>, past: seq<Index>, n: nat)
    requires History(env, chain, past) && n <= |chain| <= LAST_HEIGHT
    ensures SupplyOf(chain[..n]) <= Allowances(env, chain, n)
    decreases n
  {
    hide GetBlockValue, ConnectBlock, History, ValueIn, FreshIndex, Overwritable, Replay;
    if n > 0 {
      ChainBounded(env, chain, past, n - 1);
      HistoryLink(env, chain, past, n);
      ReplayIs(env, chain, past, n - 1);
      var link := chain[n - 1];
      if link.block.IsProofOfStake() {
        ProofOfStakeAdds(env, link.ctx, n, past[n - 1], link.block);
      } else {
        ProofOfWorkAdds(env, link.ctx, n, past[n - 1], link.block);
      }
    }
  }

  /** On every run the unspent outputs are worth at most the subsidies and what the coinstakes of the chain spend. */
  lemma MoneyIsBounded(env: Env, events: seq<Event>)
    requires RunOk(env, GENESIS, events) && ApplyAll(env, GENESIS, events).Some?
    ensures var s := ApplyAll(env, GENESIS, events).value;
            |s.chain| <= LAST_HEIGHT && Total(env, s.index) <= Allowances(env, s.chain, |s.chain|)
  {
    hide ApplyAll, Total, RunOk, Allowances;
    var past := RunHasHistory(env, events);
    var s := ApplyAll(env, GENESIS, events).value;
    SupplyIsUnspentTotal(env, events);
    ReplayIs(env, s.chain, past, 0);
    ChainBounded(env, s.chain, past, |s.chain|);
    assert s.chain[..|s.chain|] == s.chain;
  }

  lemma {:induction false} OnlySubsidies(env: Env, chain: seq<Link>, n: nat)
    requires n <= |chain| <= LAST_HEIGHT && forall i :: 0 <= i < |chain| ==> !chain[i].block.IsProofOfStake()
    ensures Allowances(env, chain, n) == Subsidies(n)
    decreases n
  {
    hide GetBlockValue;
    if n > 0 { OnlySubsidies(env, chain, n - 1); }
  }

  /** On a proof-of-work chain they are never worth more than MAX_MONEY. */
  lemma MoneyIsCapped(env: Env, events: seq<Event>)
    requires RunOk(env, GENESIS, events) && ApplyAll(env, GENESIS, events).Some?
    requires var chain := ApplyAll(env, GENESIS, events).value.chain;
             forall i :: 0 <= i < |chain| ==> !chain[i].block.IsProofOfStake()
    ensures Total(env, ApplyAll(env, GENESIS, events).value.index) <= MAX_MONEY
  {
    hide ApplyAll, Total, Subsidies, Allowances, RunOk;
    var s := ApplyAll(env, GENESIS, events).value;
    MoneyIsBounded(env, events);
    OnlySubsidies(env, s.chain, |s.chain|);
    SubsidiesCapped(|s.chain|);
  }
}
