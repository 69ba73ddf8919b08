/**
 * Disconnecting a block undoes connecting it.
 * Source: src/main.cpp, DisconnectInputs, ConnectInputs, DisconnectBlock, ConnectBlock.
 */
module Undo {
  import opened Bytes
  import opened Ledger

  // ----- Spend and Unspend, output by output -----

  predicate SameShape(a: Index, b: Index) {
    a.Keys == b.Keys && forall k :: k in a ==> a[k].pos == b[k].pos && |a[k].spent| == |b[k].spent|
  }

  /** b is a with exactly the outputs in ops set to pos. */
  ghost predicate Marked(a: Index, b: Index, ops: seq<OutPoint>, pos: DiskPos) {
    && SameShape(a, b)
    && forall k, n :: k in a && 0 <= n < |a[k].spent| ==>
         b[k].spent[n] == if OutPoint(k, n) in ops then pos else a[k].spent[n]
  }

  lemma {:induction false} SpendMarks(a: Index, ops: seq<OutPoint>, pos: DiskPos)
    requires pos != NullPos && Spend(a, ops, pos).Some?
    ensures Marked(a, Spend(a, ops, pos).value, ops, pos)
    ensures forall o :: o in ops ==> Unspent(a, o)
    ensures forall i, j :: 0 <= i < j < |ops| ==> ops[i] != ops[j]
    decreases |ops|
  {
    if ops != [] {
      var o := ops[0];
      var m := a[o.hash := Mark(a[o.hash], o.n, pos)];
      SpendMarks(m, ops[1..], pos);
      var b := Spend(a, ops, pos).value;
      assert !Unspent(m, o);
      assert forall p :: p in ops <==> p == o || p in ops[1..];
      forall p | p in ops ensures Unspent(a, p) {
        if p != o { assert Unspent(m, p); }
      }
      forall i, j | 0 <= i < j < |ops| ensures ops[i] != ops[j] {
        assert ops[j] == ops[1..][j - 1];
        assert i > 0 ==> ops[i] == ops[1..][i - 1];
      }
    }
  }

  lemma {:induction false} SpendSucceeds(a: Index, ops: seq<OutPoint>, pos: DiskPos)
    requires pos != NullPos && (forall o :: o in ops ==> Unspent(a, o))
    requires forall i, j :: 0 <= i < j < |ops| ==> ops[i] != ops[j]
    ensures Spend(a, ops, pos).Some?
    decreases |ops|
  {
    if ops != [] {
      var o := ops[0];
      assert Unspent(a, o);
      var m := a[o.hash := Mark(a[o.hash], o.n, pos)];
      forall p | p in ops[1..] ensures Unspent(m, p) {
        var j :| 0 <= j < |ops[1..]| && ops[1..][j] == p;
        assert ops[0] != ops[j + 1];
        assert p in ops && Unspent(a, p);
      }
      SpendSucceeds(m, ops[1..], pos);
    }
  }

  lemma {:induction false} UnspendMarks(a: Index, ops: seq<OutPoint>)
    requires Unspend(a, ops).Some?
    ensures Marked(a, Unspend(a, ops).value, ops, NullPos)
    ensures forall o :: o in ops ==> o.hash in a && o.n < |a[o.hash].spent|
    decreases |ops|
  {
    if ops != [] {
      var o := ops[0];
      var m := a[o.hash := Mark(a[o.hash], o.n, NullPos)];
      UnspendMarks(m, ops[1..]);
      assert forall p :: p in ops <==> p == o || p in ops[1..];
    }
  }

  lemma {:induction false} UnspendSucceeds(a: Index, ops: seq<OutPoint>)
    requires forall o :: o in ops ==> o.hash in a && o.n < |a[o.hash].spent|
    ensures Unspend(a, ops).Some?
    decreases |ops|
  {
    if ops != [] {
      var o := ops[0];
      assert o in ops;
      var m := a[o.hash := Mark(a[o.hash], o.n, NullPos)];
      forall p | p in ops[1..] ensures p.hash in m && p.n < |m[p.hash].spent| {
        assert p in ops;
      }
      UnspendSucceeds(m, ops[1..]);
    }
  }

  // ----- One transaction -----

  function Hashes(txs: seq<Tx>): set<Hash> {
    set i | 0 <= i < |txs| :: txs[i].hash
  }

  /** Effect of connecting tx at pos: inputs spent, outputs fresh. */
  ghost predicate Connected(a: Index, b: Index, tx: Tx, pos: DiskPos) {
    if tx.IsCoinBase() then b == a[tx.hash := FreshIndex(pos, |tx.vout|)]
    else
      var s := Spend(a, tx.Outpoints(), pos);
      s.Some? && b == s.value[tx.hash := FreshIndex(pos, |tx.vout|)]
  }

  lemma ConnectTxConnects(env: Env, ctx: Context, rules: Rules, index: Index, t: Totals, tx: Tx, pos: DiskPos)
    requires ConnectTx(env, ctx, rules, index, t, tx, pos).Some?
    ensures Connected(t.cur, ConnectTx(env, ctx, rules, index, t, tx, pos).value.cur, tx, pos)
  {
    hide LegacySigOps, P2shSigOps, ValueIn, ValueOut, Spend;
  }

  /** No transaction of the list replaces an entry that still has an unspent output. */
  ghost predicate Overwritable(cur: Index, txs: seq<Tx>) {
    forall i :: 0 <= i < |txs| ==> MayOverwrite(cur, txs[i].hash)
  }

  lemma OverwritableAfter(a: Index, b: Index, txs: seq<Tx>, pos: DiskPos)
    requires txs != [] && DistinctHashes(txs) && Overwritable(a, txs) && pos != NullPos
    requires Connected(a, b, txs[0], pos)
    ensures Overwritable(b, txs[1..]) && DistinctHashes(txs[1..])
  {
    var tx, rest := txs[0], txs[1..];
    if !tx.IsCoinBase() { SpendMarks(a, tx.Outpoints(), pos); }
    forall i | 0 <= i < |rest| ensures MayOverwrite(b, rest[i].hash) {
      var h := rest[i].hash;
      assert rest[i] == txs[i + 1] && h != tx.hash;
      if h in b {
        assert h in a && FullySpent(a[h]);
        forall n | 0 <= n < |b[h].spent| ensures b[h].spent[n] != NullPos {
          assert a[h].spent[n] in a[h].spent;
          assert OutPoint(h, n) in tx.Outpoints() || tx.IsCoinBase() || b[h].spent[n] == a[h].spent[n];
        }
      }
    }
  }

  /** Undoing tx from the index with later transactions already gone. */
  lemma TxUndone(a: Index, b: Index, tx: Tx, pos: DiskPos, later: set<Hash>)
    requires pos != NullPos && Connected(a, b, tx, pos)
    requires tx.hash !in later
    requires MayOverwrite(a, tx.hash) && forall h :: h in later ==> MayOverwrite(a, h)
    ensures DisconnectTx(b - later, tx) == Some(a - (later + {tx.hash}))
  {
    var c, gone := b - later, later + {tx.hash};
    if tx.IsCoinBase() {
      assert c - {tx.hash} == a - gone;
    } else {
      var ops := tx.Outpoints();
      var s := Spend(a, ops, pos).value;
      SpendMarks(a, ops, pos);
      forall o | o in ops ensures o.hash in c && o.n < |c[o.hash].spent| && o.hash !in gone {
        assert Unspent(a, o);
        assert a[o.hash].spent[o.n] in a[o.hash].spent;
      }
      UnspendSucceeds(c, ops);
      UnspendMarks(c, ops);
      var r := Unspend(c, ops).value;
      assert (r - {tx.hash}).Keys == (a - gone).Keys;
      forall k | k in a - gone ensures (r - {tx.hash})[k] == (a - gone)[k] {
        assert k in c && c[k] == s[k];
        forall n | 0 <= n < |a[k].spent| ensures r[k].spent[n] == a[k].spent[n] {
          if OutPoint(k, n) in ops { assert Unspent(a, OutPoint(k, n)); }
        }
        assert r[k].spent == a[k].spent;
      }
      assert r - {tx.hash} == a - gone;
    }
  }

  // ----- A block -----

  lemma HashesTail(txs: seq<Tx>)
    requires txs != []
    ensures Hashes(txs) == Hashes(txs[1..]) + {txs[0].hash}
    ensures DistinctHashes(txs) ==> txs[0].hash !in Hashes(txs[1..])
  {
    forall h | h in Hashes(txs) ensures h in Hashes(txs[1..]) + {txs[0].hash} {
      var i :| 0 <= i < |txs| && txs[i].hash == h;
      if i > 0 { assert txs[1..][i - 1].hash == h; }
    }
    forall h | h in Hashes(txs[1..]) ensures h in Hashes(txs) {
      var i :| 0 <= i < |txs[1..]| && txs[1..][i].hash == h;
      assert txs[i + 1].hash == h;
    }
  }

  lemma {:induction false} TxsUndone(env: Env, ctx: Context, rules: Rules, index: Index, t: Totals, txs: seq<Tx>,
                                     file: nat, block: nat, txPos: nat)
    requires ConnectTxs(env, ctx, rules, index, t, txs, file, block, txPos).Some?
    requires DistinctHashes(txs) && Overwritable(t.cur, txs)
    ensures DisconnectTxs(ConnectTxs(env, ctx, rules, index, t, txs, file, block, txPos).value.cur, txs)
         == Some(t.cur - Hashes(txs))
    decreases |txs|
  {
    hide ConnectTx, DisconnectTx;
    if txs == [] {
      assert t.cur - Hashes(txs) == t.cur;
    } else {
      var tx, pos := txs[0], Pos(file, block, txPos);
      var t' := ConnectTx(env, ctx, rules, index, t, tx, pos).value;
      ConnectTxConnects(env, ctx, rules, index, t, tx, pos);
      OverwritableAfter(t.cur, t'.cur, txs, pos);
      TxsUndone(env, ctx, rules, index, t', txs[1..], file, block, txPos + tx.size);
      HashesTail(txs);
      forall h | h in Hashes(txs[1..]) ensures MayOverwrite(t.cur, h) {
        var i :| 0 <= i < |txs[1..]| && txs[1..][i].hash == h;
        assert MayOverwrite(t.cur, txs[i + 1].hash);
      }
      TxUndone(t.cur, t'.cur, tx, pos, Hashes(txs[1..]));
    }
  }

  function UnspentSet(cur: Index): set<OutPoint> {
    set k, n | k in cur && 0 <= n < |cur[k].spent| && cur[k].spent[n] == NullPos :: OutPoint(k, n)
  }

  lemma UnspentSetMember(cur: Index, o: OutPoint)
    ensures o in UnspentSet(cur) <==> Unspent(cur, o)
  {
  }

  /** The transactions' own entries are gone after any successful disconnect. */
  lemma {:induction false} DisconnectErases(cur: Index, txs: seq<Tx>)
    requires DisconnectTxs(cur, txs).Some?
    ensures DisconnectTxs(cur, txs).value.Keys == cur.Keys - Hashes(txs)
    decreases |txs|
  {
    if txs != [] {
      DisconnectErases(cur, txs[1..]);
      HashesTail(txs);
      var r := DisconnectTxs(cur, txs[1..]).value;
      if !txs[0].IsCoinBase() { UnspendMarks(r, txs[0].Outpoints()); }
    }
  }

  /**
   * DisconnectBlock right after ConnectBlock gives back the old set of unspent
   * outputs exactly when the block replaced no entry with an unspent output; the
   * block's own entries are gone and all others are as they were.
   */
  lemma BlockUndone(env: Env, ctx: Context, height: nat, index: Index, block: Block)
    requires height / 210000 < 64 && ConnectBlock(env, ctx, height, index, block).Some?
    ensures var r := DisconnectTxs(ConnectBlock(env, ctx, height, index, block).value.cur, block.txs);
            && (Overwritable(index, block.txs) <==> r.Some? && UnspentSet(r.value) == UnspentSet(index))
            && (Overwritable(index, block.txs) ==> r == Some(index - Hashes(block.txs)))
            && (index.Keys !! Hashes(block.txs) ==> r == Some(index))
  {
    hide ConnectTxs, DisconnectTxs, GetBlockValue;
    var t := ConnectBlock(env, ctx, height, index, block).value;
    var r := DisconnectTxs(t.cur, block.txs);
    if Overwritable(index, block.txs) {
      TxsUndone(env, ctx, RulesOf(block), index, Begin(index), block.txs, block.file, block.pos, block.firstTx);
      SpentEntriesDontMatter(index, block.txs);
    } else if r.Some? {
      var i :| 0 <= i < |block.txs| && !MayOverwrite(index, block.txs[i].hash);
      var h := block.txs[i].hash;
      var n :| 0 <= n < |index[h].spent| && index[h].spent[n] == NullPos;
      UnspentSetMember(index, OutPoint(h, n));
      DisconnectErases(t.cur, block.txs);
      assert h in Hashes(block.txs);
      UnspentSetMember(r.value, OutPoint(h, n));
    }
    if index.Keys !! Hashes(block.txs) {
      assert index - Hashes(block.txs) == index;
      forall i | 0 <= i < |block.txs| ensures MayOverwrite(index, block.txs[i].hash) {
        assert block.txs[i].hash in Hashes(block.txs);
      }
    }
  }

  lemma SpentEntriesDontMatter(index: Index, txs: seq<Tx>)
    requires Overwritable(index, txs)
    ensures UnspentSet(index - Hashes(txs)) == UnspentSet(index)
  {
    var r := index - Hashes(txs);
    HashesOverwritable(index, txs);
    forall o ensures o in UnspentSet(r) <==> o in UnspentSet(index) {
      UnspentSetMember(r, o);
      UnspentSetMember(index, o);
      assert Unspent(index, o) ==> index[o.hash].spent[o.n] in index[o.hash].spent;
    }
  }

  lemma HashesOverwritable(cur: Index, txs: seq<Tx>)
    requires Overwritable(cur, txs)
    ensures forall h :: h in Hashes(txs) ==> MayOverwrite(cur, h)
  {
    forall h | h in Hashes(txs) ensures MayOverwrite(cur, h) {
      var i :| 0 <= i < |txs| && txs[i].hash == h;
      assert MayOverwrite(cur, txs[i].hash);
    }
  }

  /** BIP 30 is what makes every block reversible: blocks after the switch time satisfy the condition. */
  lemma {:induction false} Bip30MakesReversible(env: Env, ctx: Context, rules: Rules, index: Index, t: Totals,
                                                txs: seq<Tx>, file: nat, block: nat, txPos: nat)
    requires rules.bip30 && ConnectTxs(env, ctx, rules, index, t, txs, file, block, txPos).Some?
    ensures Overwritable(index, txs)
    decreases |txs|
  {
    hide LegacySigOps, P2shSigOps, ConnectInputs, FreshIndex;
    if txs != [] {
      var t' := ConnectTx(env, ctx, rules, index, t, txs[0], Pos(file, block, txPos)).value;
      Bip30MakesReversible(env, ctx, rules, index, t', txs[1..], file, block, txPos + txs[0].size);
      forall i | 0 <= i < |txs| ensures MayOverwrite(index, txs[i].hash) {
        if i > 0 { assert txs[i] == txs[1..][i - 1]; }
      }
    }
  }
}
