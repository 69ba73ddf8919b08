/**
 * Collecting memory-pool transactions into a proof-of-work block template.
 * Source: src/main.cpp, CreateNewBlock and GetMinFee.
 */
module Assembly {
  import opened Bytes
  import opened Ledger
  import opened TxDb
  import opened Undo

  // ----- What the miner's connect means -----

  /** Signatures and pay-to-script-hash are always checked, relative to the previous block. */
  function MinerContext(ancestors: seq<(nat, nat)>): Context { Context(ancestors, true, true) }

  function MinerTx(env: Env, ctx: Context, cur: Index, tx: Tx): Option<Index> {
    var r := ConnectInputs(env, ctx, cur, tx, MEMPOOL_POS);
    if r.None? then None else Some(r.value[tx.hash := FreshIndex(MEMPOOL_POS, |tx.vout|)])
  }

  /** Totals over the accepted transactions, in order. */
  datatype Picked = Picked(cur: Index, fees: int, sigOps: nat)

  function MinerTxs(env: Env, ctx: Context, cur: Index, txs: seq<Tx>): Option<Picked>
    decreases |txs|
  {
    if txs == [] then Some(Picked(cur, 0, 0))
    else
      var init, tx := txs[..|txs| - 1], txs[|txs| - 1];
      var p := MinerTxs(env, ctx, cur, init);
      if p.None? then None
      else
        var r := MinerTx(env, ctx, p.value.cur, tx);
        if r.None? then None
        else Some(Picked(r.value, p.value.fees + ValueIn(env, p.value.cur, tx) - ValueOut(tx),
                         p.value.sigOps + LegacySigOps(tx) + P2shSigOps(env, p.value.cur, tx.vin)))
  }

  // ----- The priority queue and the orphans -----

  datatype Candidate = Candidate(hash: Hash, priority: real, feePerKb: real)

  /** A pool transaction waiting for other pool transactions. */
  datatype Orphan = Orphan(dependsOn: set<Hash>, priority: real, feePerKb: real)

  /** TxPriorityCompare: a is ranked below b. */
  predicate Less(a: Candidate, b: Candidate, byFee: bool) {
    if byFee then a.feePerKb < b.feePerKb || (a.feePerKb == b.feePerKb && a.priority < b.priority)
    else a.priority < b.priority || (a.priority == b.priority && a.feePerKb < b.feePerKb)
  }

  /** Position of an element that no other one outranks: the front of the heap. */
  method Best(queue: seq<Candidate>, byFee: bool) returns (k: nat)
    requires queue != []
    ensures k < |queue| && forall j :: 0 <= j < |queue| ==> !Less(queue[k], queue[j], byFee)
  {
    k := 0;
    for i := 1 to |queue|
      invariant k < i
      invariant forall j :: 0 <= j < i ==> !Less(queue[k], queue[j], byFee)
    {
      if Less(queue[k], queue[i], byFee) { k := i; }
    }
  }

  function Pending(orphans: map<Hash, Orphan>): set<Hash> {
    set h | h in orphans && orphans[h].dependsOn != {}
  }

  /** Nothing is queued, was queued, or still waits more than once. */
  ghost predicate QueueOk(pool: map<Hash, Tx>, queue: seq<Candidate>, popped: seq<Hash>, orphans: map<Hash, Orphan>) {
    && (forall i :: 0 <= i < |queue| ==> queue[i].hash in pool && Selectable(pool[queue[i].hash]))
    && (forall h :: h in orphans ==> h in pool && Selectable(pool[h]))
    && (forall i :: 0 <= i < |popped| ==> popped[i] in pool)
    && (forall i, j :: 0 <= i < j < |queue| ==> queue[i].hash != queue[j].hash)
    && (forall i, j :: 0 <= i < j < |popped| ==> popped[i] != popped[j])
    && (forall i, j :: 0 <= i < |queue| && 0 <= j < |popped| ==> queue[i].hash != popped[j])
    && (forall i :: 0 <= i < |queue| ==> queue[i].hash !in Pending(orphans))
    && (forall i :: 0 <= i < |popped| ==> popped[i] !in Pending(orphans))
  }

  predicate Selectable(tx: Tx) { !tx.IsCoinBase() && !tx.IsCoinStake() }

  // ----- Policy -----

  const MIN_TX_FEE := 50000
  const MAX_BLOCK_SIZE_GEN := MAX_BLOCK_SIZE / 2
  const PRIORITY_THRESHOLD: real := (COIN * 144 / 250) as real

  /** GetMinFee(nBlockSize, false, GMF_BLOCK): the price rises as the block fills up. */
  function GetMinFee(blockSize: nat): int {
    if blockSize == 1 || blockSize < MAX_BLOCK_SIZE_GEN / 2 then MIN_TX_FEE
    else if blockSize >= MAX_BLOCK_SIZE_GEN then MAX_MONEY
    else
      var fee := MIN_TX_FEE * (MAX_BLOCK_SIZE_GEN / (MAX_BLOCK_SIZE_GEN - blockSize));
      if MoneyRange(fee) then fee else MAX_MONEY
  }

    /** The fuller the block, the higher the price: plain up to half of the size, out of reach at the end. */
  lemma MinFeeGrows(a: nat, b: nat)
    requires a <= b
    ensures MIN_TX_FEE <= GetMinFee(a) <= GetMinFee(b) <= MAX_MONEY
    ensures b < 250000 ==> GetMinFee(b) == 50000
    ensures b == 250000 ==> GetMinFee(b) == 100000
    ensures b >= 500000 ==> GetMinFee(b) == MAX_MONEY
  {
    if 250000 <= a && b < 500000 {
      QuotientGrows(500000, 500000 - b, 500000 - a);
    }
    if 250000 <= b < 500000 {
      QuotientGrows(500000, 500000 - b, 500000);
    }
  }

  /** Size and fee settings after clamping, and the adjusted time. */
  datatype Policy = Policy(maxSize: nat, prioritySize: nat, minSize: nat, minTxFee: int, now: nat)

  function Clamp(maxSize: nat, prioritySize: nat, minSize: nat, minTxFee: int, now: nat): (p: Policy)
    ensures 1000 <= p.maxSize <= MAX_BLOCK_SIZE - 1000
        ensures p.prioritySize <= p.maxSize && p.minSize <= p.maxSize
    ensures 1000 <= maxSize <= MAX_BLOCK_SIZE - 1000 ==> p.maxSize == maxSize
    ensures p.prioritySize == prioritySize || p.prioritySize == p.maxSize < prioritySize
    ensures p.minSize == minSize || p.minSize == p.maxSize < minSize

  {
    var capped := if maxSize > MAX_BLOCK_SIZE - 1000 then MAX_BLOCK_SIZE - 1000 else maxSize;
    var size := if capped < 1000 then 1000 else capped;
    var priority := if prioritySize < size then prioritySize else size;
    var free := if minSize < size then minSize else size;
    Policy(size, priority, free, minTxFee, now)
  }

  // ----- Collecting candidates -----

  /** Every pool transaction is stored under its hash, has a size, and finds its inputs in the chain or the pool. */
  ghost predicate PoolClosed(env: Env, index: Index) {
    forall h :: h in env.mempool ==>
      && env.mempool[h].hash == h && env.mempool[h].size > 0
      && (forall i :: 0 <= i < |env.mempool[h].vin| ==>
            var o := env.mempool[h].vin[i].prevout;
            Fetched(env, index, o) || (o.hash in env.mempool && o.n < |env.mempool[o.hash].vout|))
  }

  /** The input is neither in the chain nor from the pool. */
  predicate MissingInput(env: Env, index: Index, o: OutPoint) { !Fetched(env, index, o) && o.hash !in env.mempool }

  /** Pool transactions that tx has to wait for. */
  function Depends(env: Env, index: Index, tx: Tx): set<Hash> {
    set i | 0 <= i < |tx.vin| && !Fetched(env, index, tx.vin[i].prevout) :: tx.vin[i].prevout.hash
  }

  /** Value of an input, from the chain or else from the pool. */
  function InputValue(env: Env, index: Index, o: OutPoint): int {
    if Fetched(env, index, o) then PrevTx(env, index, o).vout[o.n].value
    else if o.hash in env.mempool && o.n < |env.mempool[o.hash].vout| then env.mempool[o.hash].vout[o.n].value
    else 0
  }

  /** Value of the first n inputs, and the value of those in the chain weighted by depth. */
  function TotalIn(env: Env, index: Index, tx: Tx, n: nat): int
    requires n <= |tx.vin|
  {
    if n == 0 then 0 else TotalIn(env, index, tx, n - 1) + InputValue(env, index, tx.vin[n - 1].prevout)
  }

  function Aged(value: int, depth: int): real { (value as real) * (depth as real) }

  function Weight(env: Env, index: Index, depth: Hash -> int, tx: Tx, n: nat): real
    requires n <= |tx.vin|
  {
    if n == 0 then 0.0
    else
      var o := tx.vin[n - 1].prevout;
      Weight(env, index, depth, tx, n - 1)
      + if Fetched(env, index, o) then Aged(InputValue(env, index, o), depth(o.hash)) else 0.0
  }

  function Priority(env: Env, index: Index, depth: Hash -> int, tx: Tx): real
    requires tx.size > 0
  {
    Weight(env, index, depth, tx, |tx.vin|) / (tx.size as real)
  }

  function FeePerKb(env: Env, index: Index, tx: Tx): real
    requires tx.size > 0
  {
    ((TotalIn(env, index, tx, |tx.vin|) - ValueOut(tx)) as real) / ((tx.size as real) / 1000.0)
  }

  /**
   * One pool transaction: skipped for a missing input, or a candidate, or an
   * orphan registered with everything it depends on.
   */
  method Classify(env: Env, index: Index, depth: Hash -> int, tx: Tx, dependers0: map<Hash, seq<Hash>>)
    returns (missing: bool, dependsOn: set<Hash>, dependers: map<Hash, seq<Hash>>, priority: real, feePerKb: real)
    requires tx.size > 0
    requires forall i :: 0 <= i < |tx.vin| ==>
               var o := tx.vin[i].prevout;
               Fetched(env, index, o) || o.hash !in env.mempool || o.n < |env.mempool[o.hash].vout|
    ensures missing <==> exists i :: 0 <= i < |tx.vin| && MissingInput(env, index, tx.vin[i].prevout)
    ensures !missing ==> dependsOn == Depends(env, index, tx)
    ensures !missing ==> priority == Priority(env, index, depth, tx) && feePerKb == FeePerKb(env, index, tx)
    ensures Registered(dependers0, dependers, tx.hash, dependsOn)
  {
    hide Fetched, Registered, TotalIn, Weight, DependsOn, Aged, ValueOut;
    missing, dependsOn, dependers, priority, feePerKb := false, {}, dependers0, 0.0, 0.0;
    var weight, totalIn := 0.0, 0;
    RegisteredNone(dependers0, tx.hash);
    TotalsStep(env, index, depth, tx, 0);
    for i := 0 to |tx.vin|
      invariant forall j :: 0 <= j < i ==> !MissingInput(env, index, tx.vin[j].prevout)
      invariant totalIn == TotalIn(env, index, tx, i) && weight == Weight(env, index, depth, tx, i)
      invariant dependsOn == DependsOn(env, index, tx, i) && Registered(dependers0, dependers, tx.hash, dependsOn)
    {
      var o := tx.vin[i].prevout;
      TotalsStep(env, index, depth, tx, i + 1);
      if !Fetched(env, index, o) {
        if o.hash !in env.mempool {
          assert MissingInput(env, index, o);
          missing := true;
          return;
        }
        RegisteredOne(dependers0, dependers, tx.hash, dependsOn, o.hash);
        dependers := dependers[o.hash := (if o.hash in dependers then dependers[o.hash] else []) + [tx.hash]];
        dependsOn := dependsOn + {o.hash};
        totalIn := totalIn + env.mempool[o.hash].vout[o.n].value;
      } else {
        var value := InputValue(env, index, o);
        totalIn := totalIn + value;
        weight := weight + Aged(value, depth(o.hash));
      }
    }
    DependsAll(env, index, tx);
    priority := weight / (tx.size as real);
    feePerKb := ((totalIn - ValueOut(tx)) as real) / ((tx.size as real) / 1000.0);
  }

  /** What the first n inputs make tx wait for. */
  function DependsOn(env: Env, index: Index, tx: Tx, n: nat): set<Hash>
    requires n <= |tx.vin|
  {
    if n == 0 then {}
    else
      var o := tx.vin[n - 1].prevout;
      DependsOn(env, index, tx, n - 1) + if Fetched(env, index, o) then {} else {o.hash}
  }

  lemma TotalsStep(env: Env, index: Index, depth: Hash -> int, tx: Tx, n: nat)
    requires n <= |tx.vin|
    ensures n == 0 ==> TotalIn(env, index, tx, n) == 0 && Weight(env, index, depth, tx, n) == 0.0
    ensures n == 0 ==> DependsOn(env, index, tx, n) == {}
    ensures n > 0 ==>
              var o := tx.vin[n - 1].prevout;
              && TotalIn(env, index, tx, n) == TotalIn(env, index, tx, n - 1) + InputValue(env, index, o)
              && Weight(env, index, depth, tx, n)
                 == Weight(env, index, depth, tx, n - 1)
                    + (if Fetched(env, index, o) then Aged(InputValue(env, index, o), depth(o.hash)) else 0.0)
              && DependsOn(env, index, tx, n)
                 == DependsOn(env, index, tx, n - 1) + if Fetched(env, index, o) then {} else {o.hash}
  {
    hide Fetched, InputValue, Aged;
  }

  lemma {:induction false} DependsUpTo(env: Env, index: Index, tx: Tx, n: nat)
    requires n <= |tx.vin|
    ensures DependsOn(env, index, tx, n)
         == set i | 0 <= i < n && !Fetched(env, index, tx.vin[i].prevout) :: tx.vin[i].prevout.hash
  {
    hide Fetched;
    if n > 0 { DependsUpTo(env, index, tx, n - 1); }
  }

  lemma DependsAll(env: Env, index: Index, tx: Tx)
    ensures DependsOn(env, index, tx, |tx.vin|) == Depends(env, index, tx)
  {
    DependsUpTo(env, index, tx, |tx.vin|);
  }

  /** dependers is dependers0 with hash also registered with everything in deps, and nothing else. */
  ghost predicate Registered(dependers0: map<Hash, seq<Hash>>, dependers: map<Hash, seq<Hash>>, hash: Hash,
                             deps: set<Hash>) {
    && (forall h :: h in deps ==> h in dependers && hash in dependers[h])
    && (forall h :: h in dependers0 ==> h in dependers && dependers0[h] <= dependers[h])
    && (forall h, g :: h in dependers && g in dependers[h] ==>
          (g == hash && h in deps) || (h in dependers0 && g in dependers0[h]))
  }

  lemma RegisteredNone(dependers: map<Hash, seq<Hash>>, hash: Hash)
    ensures Registered(dependers, dependers, hash, {})
  {
  }

  lemma RegisteredOne(dependers0: map<Hash, seq<Hash>>, dependers: map<Hash, seq<Hash>>, hash: Hash, deps: set<Hash>,
                      d: Hash)
    requires Registered(dependers0, dependers, hash, deps)
    ensures Registered(dependers0, dependers[d := (if d in dependers then dependers[d] else []) + [hash]], hash,
                       deps + {d})
  {
  }

  lemma DependersJoin(orphans: map<Hash, Orphan>, dependers: map<Hash, seq<Hash>>, dependers': map<Hash, seq<Hash>>,
                      h: Hash, o: Orphan)
    requires DependersOk(orphans, dependers) && Registered(dependers, dependers', h, o.dependsOn) && h !in orphans
    ensures o.dependsOn == {} ==> DependersOk(orphans, dependers')
    ensures o.dependsOn != {} ==> DependersOk(orphans[h := o], dependers')
  {
    var orphans' := if o.dependsOn == {} then orphans else orphans[h := o];
    forall g, d | g in orphans' && d in orphans'[g].dependsOn ensures d in dependers' && g in dependers'[d] {
      if g != h {
        assert d in dependers && g in dependers[d];
        assert dependers[d] <= dependers'[d];
      }
    }
  }

  /** dependers only ever names orphans, and names each with everything it waits for. */
  ghost predicate DependersOk(orphans: map<Hash, Orphan>, dependers: map<Hash, seq<Hash>>) {
    && (forall h, g :: h in dependers && g in dependers[h] ==> g in orphans)
    && (forall g, h :: g in orphans && h in orphans[g].dependsOn ==> h in dependers && g in dependers[h])
  }

  lemma NothingQueued(pool: map<Hash, Tx>)
    ensures QueueOk(pool, [], [], map[])
  {
  }

  lemma QueueGrows(pool: map<Hash, Tx>, queue: seq<Candidate>, orphans: map<Hash, Orphan>, c: Candidate)
    requires QueueOk(pool, queue, [], orphans) && c.hash in pool && Selectable(pool[c.hash])
    requires c.hash !in orphans && forall i :: 0 <= i < |queue| ==> queue[i].hash != c.hash
    ensures QueueOk(pool, queue + [c], [], orphans)
  {
  }

  lemma OrphanJoins(pool: map<Hash, Tx>, queue: seq<Candidate>, orphans: map<Hash, Orphan>, h: Hash, o: Orphan)
    requires QueueOk(pool, queue, [], orphans) && h in pool && Selectable(pool[h])
    requires forall i :: 0 <= i < |queue| ==> queue[i].hash != h
    ensures QueueOk(pool, queue, [], orphans[h := o])
  {
  }

  /** Pool transactions the collection has to consider. */
  predicate Eligible(env: Env, isFinal: Tx -> bool, h: Hash) {
    h in env.mempool && Selectable(env.mempool[h]) && isFinal(env.mempool[h])
  }

  /** Priority and fee rate are those of the transaction. */
  ghost predicate Ranked(env: Env, index: Index, depth: Hash -> int, c: Candidate) {
    && c.hash in env.mempool && env.mempool[c.hash].size > 0
    && c == Candidate(c.hash, Priority(env, index, depth, env.mempool[c.hash]),
                      FeePerKb(env, index, env.mempool[c.hash]))
  }

  ghost predicate Queued(queue: seq<Candidate>, h: Hash) { exists i :: 0 <= i < |queue| && queue[i].hash == h }

  /**
   * An eligible transaction waits for what it depends on and is not yet done; if that is nothing it
   * is queued or was taken.
   */
  ghost predicate Tracked(env: Env, index: Index, queue: seq<Candidate>, popped: seq<Hash>, orphans: map<Hash, Orphan>,
                          done: set<Hash>, h: Hash)
    requires h in env.mempool
  {
    var deps := Depends(env, index, env.mempool[h]);
    && (deps != {} ==> h in orphans && orphans[h].dependsOn == deps - done)
    && (deps - done == {} ==> Queued(queue, h) || h in popped)
  }

  lemma RankNew(env: Env, index: Index, depth: Hash -> int, c: Candidate)
    requires c.hash in env.mempool && env.mempool[c.hash].size > 0
    requires c.priority == Priority(env, index, depth, env.mempool[c.hash])
             && c.feePerKb == FeePerKb(env, index, env.mempool[c.hash])
    ensures Ranked(env, index, depth, c)
  {
    hide Priority, FeePerKb;
  }

  lemma TrackNew(env: Env, index: Index, queue: seq<Candidate>, orphans: map<Hash, Orphan>, c: Candidate, o: Orphan)
    requires c.hash in env.mempool && o.dependsOn == Depends(env, index, env.mempool[c.hash])
    ensures o.dependsOn == {} ==> Tracked(env, index, queue + [c], [], orphans, {}, c.hash)
    ensures o.dependsOn != {} ==> Tracked(env, index, queue, [], orphans[c.hash := o], {}, c.hash)
  {
    assert (queue + [c])[|queue|] == c;
    assert o.dependsOn - {} == o.dependsOn;
  }

  lemma TrackKept(env: Env, index: Index, queue: seq<Candidate>, orphans: map<Hash, Orphan>, c: Candidate, o: Orphan,
                  h: Hash)
    requires h in env.mempool && h != c.hash && Tracked(env, index, queue, [], orphans, {}, h)
    ensures Tracked(env, index, queue + [c], [], orphans, {}, h)
            && Tracked(env, index, queue, [], orphans[c.hash := o], {}, h)
  {
    if Queued(queue, h) {
      var i :| 0 <= i < |queue| && queue[i].hash == h;
      assert (queue + [c])[i].hash == h;
    }
  }

  method CollectCandidates(env: Env, index: Index, depth: Hash -> int, isFinal: Tx -> bool)
    returns (queue: seq<Candidate>, orphans: map<Hash, Orphan>, dependers: map<Hash, seq<Hash>>)
    requires PoolClosed(env, index)
    ensures QueueOk(env.mempool, queue, [], orphans) && DependersOk(orphans, dependers)
    ensures OnlyEligible(env, index, depth, isFinal, queue, [], orphans)
    ensures forall h :: Eligible(env, isFinal, h) ==> Tracked(env, index, queue, [], orphans, {}, h)
  {
    hide QueueOk, Depends, Priority, FeePerKb, OnlyEligible, TrackedOutside, DependersOk, Registered, PoolClosed;
    queue, orphans, dependers := [], map[], map[];
    NothingQueued(env.mempool);
    NothingTracked(env, index, depth, isFinal);
    var left := env.mempool.Keys;
    while left != {}
      invariant left <= env.mempool.Keys
      invariant QueueOk(env.mempool, queue, [], orphans) && DependersOk(orphans, dependers)
      invariant OnlyEligible(env, index, depth, isFinal, queue, [], orphans)
      invariant (forall i :: 0 <= i < |queue| ==> queue[i].hash !in left) && (forall h :: h in orphans ==> h !in left)
      invariant TrackedOutside(env, index, isFinal, queue, orphans, left)
      decreases |left|
    {
      var h :| h in left;
      var tx := env.mempool[h];
      PassOver(env, index, isFinal, queue, orphans, left, h);
      if tx.IsCoinBase() || tx.IsCoinStake() || !isFinal(tx) {
        left := left - {h};
        continue;
      }
      PoolInputs(env, index, h);
      var missing, dependsOn, dependers', priority, feePerKb := Classify(env, index, depth, tx, dependers);
      assert !missing;
      var c, o := Candidate(h, priority, feePerKb), Orphan(dependsOn, priority, feePerKb);
      Joins(env, index, depth, isFinal, queue, orphans, left, c, o);
      DependersJoin(orphans, dependers, dependers', h, o);
      if dependsOn != {} {
        OrphanJoins(env.mempool, queue, orphans, h, o);
        orphans := orphans[h := o];
      } else {
        QueueGrows(env.mempool, queue, orphans, c);
        queue := queue + [c];
      }
      dependers, left := dependers', left - {h};
    }
    NoneOutside(env, index, isFinal, queue, orphans);
  }

  ghost predicate TrackedOutside(env: Env, index: Index, isFinal: Tx -> bool, queue: seq<Candidate>,
                                 orphans: map<Hash, Orphan>, left: set<Hash>) {
    forall h :: Eligible(env, isFinal, h) && h !in left ==> Tracked(env, index, queue, [], orphans, {}, h)
  }

  lemma NothingTracked(env: Env, index: Index, depth: Hash -> int, isFinal: Tx -> bool)
    ensures TrackedOutside(env, index, isFinal, [], map[], env.mempool.Keys)
    ensures OnlyEligible(env, index, depth, isFinal, [], [], map[]) && DependersOk(map[], map[])
  {
    hide Tracked;
  }

  lemma NoneOutside(env: Env, index: Index, isFinal: Tx -> bool, queue: seq<Candidate>, orphans: map<Hash, Orphan>)
    ensures TrackedOutside(env, index, isFinal, queue, orphans, {}) ==>
              forall h :: Eligible(env, isFinal, h) ==> Tracked(env, index, queue, [], orphans, {}, h)
  {
    hide Tracked;
  }

  lemma PassOver(env: Env, index: Index, isFinal: Tx -> bool, queue: seq<Candidate>, orphans: map<Hash, Orphan>,
                 left: set<Hash>, h: Hash)
    requires TrackedOutside(env, index, isFinal, queue, orphans, left)
    ensures !Eligible(env, isFinal, h) ==> TrackedOutside(env, index, isFinal, queue, orphans, left - {h})
  {
    hide Tracked;
  }

  lemma PoolInputs(env: Env, index: Index, h: Hash)
    requires PoolClosed(env, index) && h in env.mempool
    ensures env.mempool[h].hash == h && env.mempool[h].size > 0
    ensures forall i :: 0 <= i < |env.mempool[h].vin| ==>
              var o := env.mempool[h].vin[i].prevout;
              Fetched(env, index, o) || (o.hash in env.mempool && o.n < |env.mempool[o.hash].vout|)
  {
    hide Fetched;
  }

  /** One more transaction, queued or waiting. */
  lemma Joins(env: Env, index: Index, depth: Hash -> int, isFinal: Tx -> bool, queue: seq<Candidate>,
              orphans: map<Hash, Orphan>,
              left: set<Hash>, c: Candidate, o: Orphan)
    requires TrackedOutside(env, index, isFinal, queue, orphans, left)
             && OnlyEligible(env, index, depth, isFinal, queue, [], orphans)
    requires Eligible(env, isFinal, c.hash) && env.mempool[c.hash].size > 0 && c == AsCandidate(c.hash, o)
    requires c.priority == Priority(env, index, depth, env.mempool[c.hash])
             && c.feePerKb == FeePerKb(env, index, env.mempool[c.hash])
    requires o.dependsOn == Depends(env, index, env.mempool[c.hash])
    ensures o.dependsOn == {} ==>
              TrackedOutside(env, index, isFinal, queue + [c], orphans, left - {c.hash})
              && OnlyEligible(env, index, depth, isFinal, queue + [c], [], orphans)
    ensures o.dependsOn != {} ==>
              TrackedOutside(env, index, isFinal, queue, orphans[c.hash := o], left - {c.hash})
              && OnlyEligible(env, index, depth, isFinal, queue, [], orphans[c.hash := o])
  {
    hide Tracked, Depends, Ranked, Priority, FeePerKb;
    RankNew(env, index, depth, c);
    TrackNew(env, index, queue, orphans, c, o);
    forall g | Eligible(env, isFinal, g) && g !in left && g != c.hash
      ensures Tracked(env, index, queue + [c], [], orphans, {}, g)
              && Tracked(env, index, queue, [], orphans[c.hash := o], {}, g)
    {
      TrackKept(env, index, queue, orphans, c, o, g);
    }
  }

  // ----- Releasing orphans -----

  function Reduced(o: Orphan, told: bool, hash: Hash): set<Hash> {
    if told then o.dependsOn - {hash} else o.dependsOn
  }

  /** The orphan waited before and waits for nothing after. */
  predicate Freed(orphans0: map<Hash, Orphan>, orphans: map<Hash, Orphan>, g: Hash) {
    g in orphans0 && g in orphans && orphans0[g].dependsOn != {} && orphans[g].dependsOn == {}
  }

  /** queue is queue0 followed by exactly the freed orphans, at their own rank. */
  ghost predicate Gained(queue0: seq<Candidate>, queue: seq<Candidate>, orphans0: map<Hash, Orphan>,
                         orphans: map<Hash, Orphan>) {
    && queue0 <= queue
    && (forall g :: Freed(orphans0, orphans, g) ==> Queued(queue[|queue0|..], g))
    && (forall i :: |queue0| <= i < |queue| ==>
          var g := queue[i].hash;
          Freed(orphans0, orphans, g) && queue[i] == Candidate(g, orphans0[g].priority, orphans0[g].feePerKb))
  }

  /** After hash was added to the block, the orphans that waited for nothing else, and only they, join the queue. */
  method Release(pool: map<Hash, Tx>, hash: Hash, waiting: seq<Hash>, queue0: seq<Candidate>, popped: seq<Hash>,
                 orphans0: map<Hash, Orphan>)
    returns (queue: seq<Candidate>, orphans: map<Hash, Orphan>)
    requires QueueOk(pool, queue0, popped, orphans0)
    requires forall i :: 0 <= i < |waiting| ==> waiting[i] in orphans0
    ensures QueueOk(pool, queue, popped, orphans) && orphans.Keys == orphans0.Keys
    ensures |queue| + |Pending(orphans)| == |queue0| + |Pending(orphans0)|
    ensures forall g :: g in orphans0 ==>
              orphans[g] == orphans0[g].(dependsOn := Reduced(orphans0[g], g in waiting, hash))
    ensures Gained(queue0, queue, orphans0, orphans)
  {
    hide QueueOk, Pending, Gained;
    queue, orphans := queue0, orphans0;
    GainedNone(queue0, orphans0);
    for i := 0 to |waiting|
      invariant QueueOk(pool, queue, popped, orphans) && orphans.Keys == orphans0.Keys
      invariant |queue| + |Pending(orphans)| == |queue0| + |Pending(orphans0)|
      invariant forall g :: g in orphans0 ==>
                orphans[g] == orphans0[g].(dependsOn := Reduced(orphans0[g], g in waiting[..i], hash))
      invariant Gained(queue0, queue, orphans0, orphans)
    {
      var g := waiting[i];
      assert waiting[..i + 1] == waiting[..i] + [g];
      if orphans[g].dependsOn != {} {
        var o := orphans[g].(dependsOn := orphans[g].dependsOn - {hash});
        GainedOne(queue0, queue, orphans0, orphans, g, o);
        queue, orphans := ReleaseOne(pool, queue, popped, orphans, g, o);
      }
    }
    assert waiting[..|waiting|] == waiting;
  }

  lemma GainedNone(queue: seq<Candidate>, orphans: map<Hash, Orphan>)
    ensures Gained(queue, queue, orphans, orphans)
  {
  }

  lemma GainedOne(queue0: seq<Candidate>, queue: seq<Candidate>, orphans0: map<Hash, Orphan>,
                  orphans: map<Hash, Orphan>, g: Hash, o: Orphan)
    requires Gained(queue0, queue, orphans0, orphans) && g in orphans && g in orphans0
    requires orphans[g].dependsOn != {} && orphans0[g].dependsOn != {}
    requires o.priority == orphans0[g].priority && o.feePerKb == orphans0[g].feePerKb
    ensures o.dependsOn != {} ==> Gained(queue0, queue, orphans0, orphans[g := o])
    ensures o.dependsOn == {} ==>
              Gained(queue0, queue + [Candidate(g, o.priority, o.feePerKb)], orphans0, orphans[g := o])
  {
    var c := Candidate(g, o.priority, o.feePerKb);
    var queue', n := queue + [c], |queue0|;
    assert queue'[n..] == queue[n..] + [c];
    forall i | n <= i < |queue| ensures queue[i].hash != g {}
    forall x | Freed(orphans0, orphans[g := o], x) ensures o.dependsOn == {} ==> Queued(queue'[n..], x) {
      if x == g {
        assert queue'[n..][|queue| - n].hash == g;
      } else {
        assert Freed(orphans0, orphans, x);
        var i :| 0 <= i < |queue[n..]| && queue[n..][i].hash == x;
        assert queue'[n..][i].hash == x;
      }
    }
    forall x | Freed(orphans0, orphans[g := o], x) ensures o.dependsOn != {} ==> Queued(queue[n..], x) {
      if x != g { assert Freed(orphans0, orphans, x); }
    }
  }

  method ReleaseOne(pool: map<Hash, Tx>, queue0: seq<Candidate>, popped: seq<Hash>, orphans0: map<Hash, Orphan>,
                    g: Hash, o: Orphan)
    returns (queue: seq<Candidate>, orphans: map<Hash, Orphan>)
    requires QueueOk(pool, queue0, popped, orphans0) && g in orphans0 && orphans0[g].dependsOn != {}
    ensures QueueOk(pool, queue, popped, orphans) && orphans == orphans0[g := o]
    ensures |queue| + |Pending(orphans)| == |queue0| + |Pending(orphans0)|
    ensures o.dependsOn != {} ==> queue == queue0
    ensures o.dependsOn == {} ==> queue == queue0 + [Candidate(g, o.priority, o.feePerKb)]
  {
    queue, orphans := queue0, orphans0[g := o];
    if o.dependsOn == {} {
      assert Pending(orphans) == Pending(orphans0) - {g};
      queue := queue + [Candidate(g, o.priority, o.feePerKb)];
    } else {
      assert Pending(orphans) == Pending(orphans0);
    }
  }

  /** Taking a candidate off the queue loses track of nothing. */
  lemma TrackPopped(env: Env, index: Index, queue: seq<Candidate>, popped: seq<Hash>, orphans: map<Hash, Orphan>,
                    done: set<Hash>, k: nat, h: Hash)
    requires h in env.mempool && k < |queue| && Tracked(env, index, queue, popped, orphans, done, h)
    ensures Tracked(env, index, queue[..k] + queue[k + 1..], popped + [queue[k].hash], orphans, done, h)
  {
    var q := queue[..k] + queue[k + 1..];
    if Queued(queue, h) {
      var i :| 0 <= i < |queue| && queue[i].hash == h;
      assert i < k ==> q[i].hash == h;
      assert i > k ==> q[i - 1].hash == h;
    }
  }

  /** Releasing what waited for a transaction now done keeps track of everything. */
  lemma TrackReleased(env: Env, index: Index, queue0: seq<Candidate>, queue: seq<Candidate>, popped: seq<Hash>,
                      orphans0: map<Hash, Orphan>, orphans: map<Hash, Orphan>, done: set<Hash>, hash: Hash, h: Hash)
    requires h in env.mempool && Tracked(env, index, queue0, popped, orphans0, done, h)
    requires orphans.Keys == orphans0.Keys && Gained(queue0, queue, orphans0, orphans)
    requires h in orphans ==> orphans[h].dependsOn == orphans0[h].dependsOn - {hash}
    ensures Tracked(env, index, queue, popped, orphans, done + {hash}, h)
  {
    hide Depends;
    var deps := Depends(env, index, env.mempool[h]);
    assert deps - (done + {hash}) == deps - done - {hash};
    if deps - (done + {hash}) == {} {
      if deps - done == {} {
        if Queued(queue0, h) {
          var i :| 0 <= i < |queue0| && queue0[i].hash == h;
          assert queue[i].hash == h;
        }
      } else {
        assert Freed(orphans0, orphans, h);
        var i :| 0 <= i < |queue[|queue0|..]| && queue[|queue0|..][i].hash == h;
        assert queue[|queue0| + i].hash == h;
      }
    }
  }

  /** With an empty queue, what was never taken waits for a transaction that is not done. */
  lemma TrackedEnds(env: Env, index: Index, popped: seq<Hash>, orphans: map<Hash, Orphan>, done: set<Hash>, h: Hash)
    requires h in env.mempool && Tracked(env, index, [], popped, orphans, done, h)
    ensures h in popped || exists d :: d in Depends(env, index, env.mempool[h]) && d !in done
  {
    hide Depends;
    var deps := Depends(env, index, env.mempool[h]);
    if deps - done != {} {
      var d :| d in deps - done;
      assert d in deps && d !in done;
    }
  }

  // ----- The loop -----

  /** Every selected transaction comes from the pool and was taken off the queue, once. */
  ghost predicate FromPool(pool: map<Hash, Tx>, txs: seq<Tx>, popped: seq<Hash>) {
    && (forall i :: 0 <= i < |txs| ==> txs[i].hash in pool && pool[txs[i].hash] == txs[i] && Selectable(txs[i]))
    && (forall i :: 0 <= i < |txs| ==> txs[i].hash in popped)
    && DistinctHashes(txs)
  }

  /** Size, legacy signature-operation and timestamp limits. */
  predicate WithinLimits(policy: Policy, tx: Tx, size: nat, sigOps: nat) {
    size + tx.size < policy.maxSize && sigOps + LegacySigOps(tx) < MAX_BLOCK_SIGOPS && tx.time <= policy.now
  }

  /** The inputs connect, the fee is high enough and all signature operations fit. */
  ghost predicate Addable(env: Env, ctx: Context, cur: Index, tx: Tx, size: nat, sigOps: nat) {
    && MinerTx(env, ctx, cur, tx).Some? && ValueIn(env, cur, tx) - ValueOut(tx) >= GetMinFee(size)
    && sigOps + LegacySigOps(tx) + P2shSigOps(env, cur, tx.vin) < MAX_BLOCK_SIGOPS
  }

  /** Fees, all signature operations and the inputs; None when anything refuses the transaction. */
  method TryAdd(env: Env, ctx: Context, index: Index, testPool: Index, tx: Tx, size: nat, sigOps: nat)
    returns (r: Option<(Index, int, nat)>)
    ensures r.Some? <==> Addable(env, ctx, index + testPool, tx, size, sigOps)
    ensures r.Some? ==>
      && MinerTx(env, ctx, index + testPool, tx) == Some(index + r.value.0)
      && r.value.1 == ValueIn(env, index + testPool, tx) - ValueOut(tx) >= GetMinFee(size)
      && r.value.2 == LegacySigOps(tx) + P2shSigOps(env, index + testPool, tx.vin)
      && sigOps + r.value.2 < MAX_BLOCK_SIGOPS
  {
    hide LegacySigOps, P2shSigOps, ConnectInputs, ValueIn, ValueOut, GetMinFee, InputsOk, InputsFetched, FreshIndex;
    var ok, inputs := FetchInputs(env, index, testPool, tx);
    if !ok {
      NotFetched(env, ctx, index + testPool, tx, MEMPOOL_POS);
      return None;
    }
    var fees := ValueIn(env, index + testPool, tx) - ValueOut(tx);
    if fees < GetMinFee(size) { return None; }
    var n := LegacySigOps(tx) + P2shSigOps(env, index + testPool, tx.vin);
    if sigOps + n >= MAX_BLOCK_SIGOPS { return None; }
    var pool;
    ok, pool := ConnectTxInputs(env, ctx, index, inputs, testPool, tx, MEMPOOL_POS);
    if !ok { return None; }
    var created := FreshIndex(MEMPOOL_POS, |tx.vout|);
    assert index + pool[tx.hash := created] == (index + pool)[tx.hash := created];
    r := Some((pool[tx.hash := created], fees, n));
  }

  lemma NothingPicked(pool: map<Hash, Tx>)
    ensures FromPool(pool, [], [])
  {
  }

  lemma PopKeepsQueue(pool: map<Hash, Tx>, queue: seq<Candidate>, popped: seq<Hash>, orphans: map<Hash, Orphan>, k: nat)
    requires QueueOk(pool, queue, popped, orphans) && k < |queue|
    ensures QueueOk(pool, queue[..k] + queue[k + 1..], popped + [queue[k].hash], orphans)
    ensures queue[k].hash in pool && Selectable(pool[queue[k].hash]) && queue[k].hash !in popped
  {
    var q := queue[..k] + queue[k + 1..];
    assert forall i :: 0 <= i < |q| ==> q[i] == if i < k then queue[i] else queue[i + 1];
  }

  lemma PickKeeps(pool: map<Hash, Tx>, txs: seq<Tx>, popped: seq<Hash>, h: Hash)
    requires FromPool(pool, txs, popped) && h in pool && h !in popped
    ensures FromPool(pool, txs, popped + [h])
    ensures Selectable(pool[h]) && pool[h].hash == h ==> FromPool(pool, txs + [pool[h]], popped + [h])
  {
    assert forall i :: 0 <= i < |txs| ==> txs[i].hash != h;
  }

  lemma {:induction false} SizeSnoc(txs: seq<Tx>, tx: Tx)
    ensures SizeOf(txs + [tx]) == SizeOf(txs) + tx.size
    decreases |txs|
  {
    if txs == [] {
      assert txs + [tx] == [tx] && [tx][1..] == [];
    } else {
      assert (txs + [tx])[1..] == txs[1..] + [tx];
      SizeSnoc(txs[1..], tx);
    }
  }

  lemma MinerSnoc(env: Env, ctx: Context, index: Index, txs: seq<Tx>, tx: Tx)
    requires MinerTxs(env, ctx, index, txs).Some?
    requires MinerTx(env, ctx, MinerTxs(env, ctx, index, txs).value.cur, tx).Some?
    ensures var p := MinerTxs(env, ctx, index, txs).value;
            MinerTxs(env, ctx, index, txs + [tx])
            == Some(Picked(MinerTx(env, ctx, p.cur, tx).value, p.fees + ValueIn(env, p.cur, tx) - ValueOut(tx),
                           p.sigOps + LegacySigOps(tx) + P2shSigOps(env, p.cur, tx.vin)))
  {
    hide MinerTx, LegacySigOps, P2shSigOps, ValueIn, ValueOut;
    var all := txs + [tx];
    assert all[..|all| - 1] == txs && all[|all| - 1] == tx;
  }

  lemma PoolTx(env: Env, index: Index, h: Hash)
    requires PoolClosed(env, index) && h in env.mempool
    ensures env.mempool[h].hash == h && env.mempool[h].size > 0
  {
  }

  lemma PoppedOnce(pool: map<Hash, Tx>, queue: seq<Candidate>, popped: seq<Hash>, orphans: map<Hash, Orphan>)
    requires QueueOk(pool, queue, popped, orphans)
    ensures forall i, j :: 0 <= i < j < |popped| ==> popped[i] != popped[j]
    ensures forall i :: 0 <= i < |popped| ==> popped[i] in pool
  {
  }

  const RESERVED_SIZE := 1000
  const RESERVED_SIGOPS := 100

  /** The free-transaction rule in force once the block is sorted by fee. */
  predicate SkipFree(policy: Policy, byFee: bool, best: Candidate, size: nat, txSize: nat) {
    byFee && best.feePerKb < policy.minTxFee as real && size + txSize >= policy.minSize
  }

  /** The rule that switches the queue from priority order to fee order. */
  predicate SwitchToFee(policy: Policy, byFee: bool, best: Candidate, size: nat, txSize: nat) {
    !byFee && (size + txSize >= policy.prioritySize || best.priority < PRIORITY_THRESHOLD)
  }

  /**
   * The collection loop.  popped lists the transactions in the order they left
   * the queue; txs are the ones added to the block.
   */
  method CollectTxs(env: Env, ctx: Context, policy: Policy, index: Index, depth: Hash -> int, isFinal: Tx -> bool)
    returns (txs: seq<Tx>, popped: seq<Hash>, fees: int, size: nat, sigOps: nat)
    requires PoolClosed(env, index) && RESERVED_SIZE <= policy.maxSize
    ensures FromPool(env.mempool, txs, popped)
    ensures forall i, j :: 0 <= i < j < |popped| ==> popped[i] != popped[j]
    ensures forall i :: 0 <= i < |popped| ==> popped[i] in env.mempool
    ensures MinerTxs(env, ctx, index, txs).Some?
    ensures var p := MinerTxs(env, ctx, index, txs).value;
            fees == p.fees && sigOps == RESERVED_SIGOPS + p.sigOps < MAX_BLOCK_SIGOPS
    ensures size == RESERVED_SIZE + SizeOf(txs) <= policy.maxSize
    ensures forall h :: Eligible(env, isFinal, h) ==>
              h in popped || exists d :: d in Depends(env, index, env.mempool[h]) && d !in Hashes(txs)
    ensures forall i :: 0 <= i < |popped| ==> Eligible(env, isFinal, popped[i])
    ensures AllAccounted(env, ctx, policy, index, txs, popped)
    ensures BestFirst(env, ctx, policy, index, depth, txs, popped)
  {
    hide MinerTx, MinerTxs, LegacySigOps, P2shSigOps, QueueOk, FromPool, PoolClosed, ValueIn, ValueOut, GetMinFee;
    hide Pending, SizeOf, SkipFree, SwitchToFee, Less, WithinLimits, AllAccounted, Hashes, Depends, Eligible, BestFirst;
    hide Addable, Sound, Popped, FromPool, AllTracked, DependersOk, OnlyEligible, InOrder, WaitedFor, Selectable;
    var queue, orphans, dependers := CollectCandidates(env, index, depth, isFinal);
    var testPool: Index, byFee := map[], policy.prioritySize == 0;
    txs, popped, fees, size, sigOps := [], [], 0, RESERVED_SIZE, RESERVED_SIGOPS;
    assert index + testPool == index;
    LoopStarts(env, ctx, policy, index, depth, isFinal, queue, orphans, dependers);
    ghost var order := Order([], 0);
    while queue != []
      invariant Sound(env, ctx, policy, index, depth, isFinal, queue, popped, orphans, dependers, txs, order, byFee)
      invariant RESERVED_SIGOPS <= sigOps < MAX_BLOCK_SIGOPS
      invariant MinerTxs(env, ctx, index, txs) == Some(Picked(index + testPool, fees, sigOps - RESERVED_SIGOPS))
      invariant size == RESERVED_SIZE + SizeOf(txs) <= policy.maxSize
      decreases |queue| + |Pending(orphans)|
    {
      var k := Best(queue, byFee);
      var best := queue[k];
      LoopPops(env, ctx, policy, index, depth, isFinal, queue, popped, orphans, dependers, txs, order, byFee, k);
      order := Order(order.marks + [|txs|], if byFee then order.s else |popped| + 1);
      queue, popped := queue[..k] + queue[k + 1..], popped + [best.hash];
      var tx := env.mempool[best.hash];
      if !WithinLimits(policy, tx, size, sigOps) || SkipFree(policy, byFee, best, size, tx.size) { continue; }
      if SwitchToFee(policy, byFee, best, size, tx.size) { byFee := true; }
      var r := TryAdd(env, ctx, index, testPool, tx, size, sigOps);
      if r.None? { continue; }
      LoopAdds(env, ctx, policy, index, depth, isFinal, queue, popped, orphans, dependers, txs, order, byFee, tx);
      assert MinerTxs(env, ctx, index, txs + [tx])
          == Some(Picked(index + r.value.0, fees + r.value.1, sigOps + r.value.2 - RESERVED_SIGOPS));
      testPool, fees, sigOps := r.value.0, fees + r.value.1, sigOps + r.value.2;
      ghost var done, waiting := txs, queue;
      txs := txs + [tx];
      size := size + tx.size;
      queue, orphans := ReleaseAll(env, index, depth, isFinal, best.hash, dependers, queue, popped, orphans,
                                   Hashes(done));
      LoopReleases(env, ctx, policy, index, depth, isFinal, waiting, queue, popped, orphans, dependers, done, order,
                   byFee, tx);
    }
    LoopEnds(env, ctx, policy, index, depth, isFinal, popped, orphans, dependers, txs, order, byFee);
  }

  // ----- What the loop keeps -----

  /** How many transactions were in the block at each turn, and how many turns were in priority order. */
  datatype Order = Order(marks: seq<nat>, s: nat)

  /** Everything but the account of the transaction taken last. */
  ghost predicate Popped(env: Env, ctx: Context, policy: Policy, index: Index, depth: Hash -> int, isFinal: Tx -> bool,
                         queue: seq<Candidate>, popped: seq<Hash>, orphans: map<Hash, Orphan>,
                         dependers: map<Hash, seq<Hash>>, txs: seq<Tx>, order: Order, byFee: bool) {
    && QueueOk(env.mempool, queue, popped, orphans) && DependersOk(orphans, dependers)
    && FromPool(env.mempool, txs, popped)
    && AllTracked(env, index, isFinal, queue, popped, orphans, Hashes(txs))
    && OnlyEligible(env, index, depth, isFinal, queue, popped, orphans)
    && InOrder(env, ctx, policy, index, depth, txs, popped, order.marks, order.s, byFee, queue)
  }

  ghost predicate Sound(env: Env, ctx: Context, policy: Policy, index: Index, depth: Hash -> int, isFinal: Tx -> bool,
                        queue: seq<Candidate>, popped: seq<Hash>, orphans: map<Hash, Orphan>,
                        dependers: map<Hash, seq<Hash>>, txs: seq<Tx>, order: Order, byFee: bool) {
    && Popped(env, ctx, policy, index, depth, isFinal, queue, popped, orphans, dependers, txs, order, byFee)
    && AllAccounted(env, ctx, policy, index, txs, popped)
  }

  lemma LoopStarts(env: Env, ctx: Context, policy: Policy, index: Index, depth: Hash -> int, isFinal: Tx -> bool,
                   queue: seq<Candidate>, orphans: map<Hash, Orphan>, dependers: map<Hash, seq<Hash>>)
    requires QueueOk(env.mempool, queue, [], orphans) && DependersOk(orphans, dependers)
    requires OnlyEligible(env, index, depth, isFinal, queue, [], orphans)
    requires forall h :: Eligible(env, isFinal, h) ==> Tracked(env, index, queue, [], orphans, {}, h)
    ensures Sound(env, ctx, policy, index, depth, isFinal, queue, [], orphans, dependers, [], Order([], 0),
                  policy.prioritySize == 0)
    ensures MinerTxs(env, ctx, index, []) == Some(Picked(index, 0, 0)) && SizeOf([]) == 0
  {
    hide QueueOk, DependersOk, OnlyEligible, Tracked, InOrder, MinerTx;
    NothingPicked(env.mempool);
    MinerNone(env, ctx, index);
    StartTracking(env, index, isFinal, queue, orphans);
    NoneAccounted(env, ctx, policy, index);
    OrderStarts(env, ctx, policy, index, depth, queue);
  }

  /** Taking the best, and passing it over when a limit, the fee rules or the inputs refuse it. */
  lemma LoopPops(env: Env, ctx: Context, policy: Policy, index: Index, depth: Hash -> int, isFinal: Tx -> bool,
                 queue: seq<Candidate>, popped: seq<Hash>, orphans: map<Hash, Orphan>,
                 dependers: map<Hash, seq<Hash>>, txs: seq<Tx>, order: Order, byFee: bool, k: nat)
    requires Sound(env, ctx, policy, index, depth, isFinal, queue, popped, orphans, dependers, txs, order, byFee)
    requires PoolClosed(env, index) && MinerTxs(env, ctx, index, txs).Some?
    requires k < |queue| && forall j :: 0 <= j < |queue| ==> !Less(queue[k], queue[j], byFee)
    ensures var best := queue[k];
            best.hash in env.mempool && env.mempool[best.hash].hash == best.hash
    ensures var best := queue[k];
            var tx, q, popped' := env.mempool[best.hash], queue[..k] + queue[k + 1..], popped + [best.hash];
            var order' := Order(order.marks + [|txs|], if byFee then order.s else |popped| + 1);
            var p, size := MinerTxs(env, ctx, index, txs).value, RESERVED_SIZE + SizeOf(txs);
            var within := WithinLimits(policy, tx, size, RESERVED_SIGOPS + p.sigOps);
            var byFee' := byFee || (within && SwitchToFee(policy, byFee, best, size, tx.size));
            && (within ==> size + tx.size < policy.maxSize)
            && FromPool(env.mempool, txs + [tx], popped') && AllAccounted(env, ctx, policy, index, txs + [tx], popped')
            && (SkipFree(policy, byFee, best, size, tx.size) ==> byFee)
            && Popped(env, ctx, policy, index, depth, isFinal, q, popped', orphans, dependers, txs, order', byFee')
            && (!within || SkipFree(policy, byFee, best, size, tx.size)
                || !Addable(env, ctx, p.cur, tx, size, RESERVED_SIGOPS + p.sigOps)
                ==> Sound(env, ctx, policy, index, depth, isFinal, q, popped', orphans, dependers, txs, order', byFee'))
  {
    hide MinerTx, MinerTxs, LegacySigOps, P2shSigOps, QueueOk, FromPool, PoolClosed, ValueIn, ValueOut, GetMinFee;
    hide SizeOf, SkipFree, SwitchToFee, Less, AllTracked, DependersOk, OnlyEligible, WithinLimits, RankOf;
    hide AllAccounted, Refused, Hashes, FeePerKb, InOrder, EndsPriority, Selectable, Priority;
    var best := queue[k];
    PopKeepsQueue(env.mempool, queue, popped, orphans, k);
    PoolTx(env, index, best.hash);
    BestIsRanked(env, index, depth, isFinal, queue, popped, orphans, k);
    PopKeepsTrack(env, index, depth, isFinal, queue, popped, orphans, Hashes(txs), k);
    OrderPops(env, ctx, policy, index, depth, txs, popped, order.marks, order.s, byFee, queue, k);
    PickKeeps(env.mempool, txs, popped, best.hash);
    var tx, size := env.mempool[best.hash], RESERVED_SIZE + SizeOf(txs);
    WithinFacts(policy, tx, size, RESERVED_SIGOPS + MinerTxs(env, ctx, index, txs).value.sigOps);
    SwitchTests(env, ctx, policy, index, depth, txs, best, byFee);
    Refusals(env, ctx, policy, index, txs, popped, tx, best, byFee);
    AccountAdded(env, ctx, policy, index, txs, popped, tx);
  }

  /** Adding the transaction that was just taken. */
  lemma LoopAdds(env: Env, ctx: Context, policy: Policy, index: Index, depth: Hash -> int, isFinal: Tx -> bool,
                 queue: seq<Candidate>, popped: seq<Hash>, orphans: map<Hash, Orphan>,
                 dependers: map<Hash, seq<Hash>>, txs: seq<Tx>, order: Order, byFee: bool, tx: Tx)
    requires Popped(env, ctx, policy, index, depth, isFinal, queue, popped, orphans, dependers, txs, order, byFee)
    requires MinerTxs(env, ctx, index, txs).Some?
    requires MinerTx(env, ctx, MinerTxs(env, ctx, index, txs).value.cur, tx).Some?
    ensures QueueOk(env.mempool, queue, popped, orphans) && DependersOk(orphans, dependers)
    ensures AllTracked(env, index, isFinal, queue, popped, orphans, Hashes(txs))
            && OnlyEligible(env, index, depth, isFinal, queue, popped, orphans)
    ensures InOrder(env, ctx, policy, index, depth, txs, popped, order.marks, order.s, byFee, queue)
    ensures SizeOf(txs + [tx]) == SizeOf(txs) + tx.size
    ensures var p := MinerTxs(env, ctx, index, txs).value;
            MinerTxs(env, ctx, index, txs + [tx])
            == Some(Picked(MinerTx(env, ctx, p.cur, tx).value, p.fees + ValueIn(env, p.cur, tx) - ValueOut(tx),
                           p.sigOps + LegacySigOps(tx) + P2shSigOps(env, p.cur, tx.vin)))
  {
    hide MinerTxs, QueueOk, AllTracked, OnlyEligible, DependersOk, MinerTx, LegacySigOps, P2shSigOps, SizeOf, InOrder;
    MinerSnoc(env, ctx, index, txs, tx);
    SizeSnoc(txs, tx);
  }

  /** After the release, the turn is complete. */
  lemma LoopReleases(env: Env, ctx: Context, policy: Policy, index: Index, depth: Hash -> int, isFinal: Tx -> bool,
                     queue0: seq<Candidate>, queue: seq<Candidate>, popped: seq<Hash>, orphans: map<Hash, Orphan>,
                     dependers: map<Hash, seq<Hash>>, txs: seq<Tx>, order: Order, byFee: bool, tx: Tx)
    requires QueueOk(env.mempool, queue, popped, orphans) && DependersOk(orphans, dependers)
    requires AllTracked(env, index, isFinal, queue, popped, orphans, Hashes(txs) + {tx.hash})
             && OnlyEligible(env, index, depth, isFinal, queue, popped, orphans)
    requires InOrder(env, ctx, policy, index, depth, txs, popped, order.marks, order.s, byFee, queue0)
    requires FromPool(env.mempool, txs + [tx], popped) && AllAccounted(env, ctx, policy, index, txs + [tx], popped)
    requires popped != [] && tx.hash == popped[|popped| - 1]
    requires queue0 <= queue && WaitedFor(env, index, tx.hash, queue[|queue0|..])
    ensures Sound(env, ctx, policy, index, depth, isFinal, queue, popped, orphans, dependers, txs + [tx], order, byFee)
  {
    hide QueueOk, FromPool, AllTracked, DependersOk, OnlyEligible, AllAccounted, Hashes, InOrder, WaitedFor;
    HashesGrow(txs, tx);
    PoppedOnce(env.mempool, queue, popped, orphans);
    OrderAdds(env, ctx, policy, index, depth, txs, popped, order.marks, order.s, byFee, queue0, tx, queue);
  }

  lemma LoopEnds(env: Env, ctx: Context, policy: Policy, index: Index, depth: Hash -> int, isFinal: Tx -> bool,
                 popped: seq<Hash>, orphans: map<Hash, Orphan>, dependers: map<Hash, seq<Hash>>, txs: seq<Tx>,
                 order: Order, byFee: bool)
    requires Sound(env, ctx, policy, index, depth, isFinal, [], popped, orphans, dependers, txs, order, byFee)
    ensures FromPool(env.mempool, txs, popped) && AllAccounted(env, ctx, policy, index, txs, popped)
    ensures forall i, j :: 0 <= i < j < |popped| ==> popped[i] != popped[j]
    ensures forall i :: 0 <= i < |popped| ==> popped[i] in env.mempool && Eligible(env, isFinal, popped[i])
    ensures forall h :: Eligible(env, isFinal, h) ==>
              h in popped || exists d :: d in Depends(env, index, env.mempool[h]) && d !in Hashes(txs)
    ensures BestFirst(env, ctx, policy, index, depth, txs, popped)
  {
    hide QueueOk, FromPool, AllTracked, DependersOk, OnlyEligible, AllAccounted, Hashes, Depends, InOrder, BestFirst;
    OrderEnds(env, ctx, policy, index, depth, txs, popped, order.marks, order.s, byFee);
    PoppedOnce(env.mempool, [], popped, orphans);
    TrackingEnds(env, index, depth, isFinal, popped, orphans, Hashes(txs));
  }

  // ----- Nothing is lost track of -----

  ghost predicate AllTracked(env: Env, index: Index, isFinal: Tx -> bool, queue: seq<Candidate>, popped: seq<Hash>,
                             orphans: map<Hash, Orphan>, done: set<Hash>) {
    forall h :: Eligible(env, isFinal, h) ==> Tracked(env, index, queue, popped, orphans, done, h)
  }

  ghost predicate OnlyEligible(env: Env, index: Index, depth: Hash -> int, isFinal: Tx -> bool, queue: seq<Candidate>,
                               popped: seq<Hash>, orphans: map<Hash, Orphan>) {
    && (forall i :: 0 <= i < |queue| ==> Eligible(env, isFinal, queue[i].hash) && Ranked(env, index, depth, queue[i]))
    && (forall i :: 0 <= i < |popped| ==> Eligible(env, isFinal, popped[i]))
    && (forall h :: h in orphans ==> Eligible(env, isFinal, h) && Ranked(env, index, depth, AsCandidate(h, orphans[h])))
  }

  function AsCandidate(h: Hash, o: Orphan): Candidate { Candidate(h, o.priority, o.feePerKb) }

  /** Refused at the point where these transactions were in the block. */
  ghost predicate Refused(env: Env, ctx: Context, policy: Policy, index: Index, done: seq<Tx>, tx: Tx) {
    && MinerTxs(env, ctx, index, done).Some?
    && var p, size := MinerTxs(env, ctx, index, done).value, RESERVED_SIZE + SizeOf(done);
    || !WithinLimits(policy, tx, size, RESERVED_SIGOPS + p.sigOps)
    || (tx.size > 0 && FeePerKb(env, index, tx) < policy.minTxFee as real && size + tx.size >= policy.minSize)
    || MinerTx(env, ctx, p.cur, tx).None?
    || ValueIn(env, p.cur, tx) - ValueOut(tx) < GetMinFee(size)
    || RESERVED_SIGOPS + p.sigOps + LegacySigOps(tx) + P2shSigOps(env, p.cur, tx.vin) >= MAX_BLOCK_SIGOPS
  }

  ghost predicate RefusedAt(env: Env, ctx: Context, policy: Policy, index: Index, txs: seq<Tx>, n: nat, h: Hash)
    requires n <= |txs| && h in env.mempool
  {
    Refused(env, ctx, policy, index, txs[..n], env.mempool[h])
  }

  /** The transaction is in the block, or was refused when some first part of it was. */
  ghost predicate Accounted(env: Env, ctx: Context, policy: Policy, index: Index, txs: seq<Tx>, h: Hash) {
    && h in env.mempool
    && (h in Hashes(txs) || exists n :: 0 <= n <= |txs| && RefusedAt(env, ctx, policy, index, txs, n, h))
  }

  ghost predicate AllAccounted(env: Env, ctx: Context, policy: Policy, index: Index, txs: seq<Tx>, popped: seq<Hash>) {
    forall i :: 0 <= i < |popped| ==> Accounted(env, ctx, policy, index, txs, popped[i])
  }

  lemma NoneAccounted(env: Env, ctx: Context, policy: Policy, index: Index)
    ensures AllAccounted(env, ctx, policy, index, [], [])
  {
  }

  lemma BestIsRanked(env: Env, index: Index, depth: Hash -> int, isFinal: Tx -> bool, queue: seq<Candidate>,
                     popped: seq<Hash>,
                     orphans: map<Hash, Orphan>, k: nat)
    requires k < |queue| && OnlyEligible(env, index, depth, isFinal, queue, popped, orphans)
        ensures var c := queue[k];
            && c.hash in env.mempool && env.mempool[c.hash].size > 0
            && c.feePerKb == FeePerKb(env, index, env.mempool[c.hash])
            && c == RankOf(env, index, depth, c.hash)
  {
    assert Ranked(env, index, depth, queue[k]);
  }

  /** Whatever makes the loop pass a transaction over accounts for it. */
  lemma Refusals(env: Env, ctx: Context, policy: Policy, index: Index, txs: seq<Tx>, popped: seq<Hash>, tx: Tx,
                 best: Candidate, byFee: bool)
    requires AllAccounted(env, ctx, policy, index, txs, popped) && MinerTxs(env, ctx, index, txs).Some?
    requires best.hash in env.mempool && env.mempool[best.hash] == tx && tx.size > 0
             && best.feePerKb == FeePerKb(env, index, tx)
    ensures var p, size := MinerTxs(env, ctx, index, txs).value, RESERVED_SIZE + SizeOf(txs);
            || !WithinLimits(policy, tx, size, RESERVED_SIGOPS + p.sigOps)
            || SkipFree(policy, byFee, best, size, tx.size)
            || MinerTx(env, ctx, p.cur, tx).None?
            || ValueIn(env, p.cur, tx) - ValueOut(tx) < GetMinFee(size)
            || RESERVED_SIGOPS + p.sigOps + LegacySigOps(tx) + P2shSigOps(env, p.cur, tx.vin) >= MAX_BLOCK_SIGOPS
            ==> AllAccounted(env, ctx, policy, index, txs, popped + [best.hash])
  {
    hide MinerTxs, WithinLimits, MinerTx, ValueIn, ValueOut, GetMinFee, LegacySigOps, P2shSigOps, FeePerKb, SizeOf;
    if Refused(env, ctx, policy, index, txs, tx) {
      assert txs[..|txs|] == txs;
      assert RefusedAt(env, ctx, policy, index, txs, |txs|, best.hash);
      assert Accounted(env, ctx, policy, index, txs, best.hash);
      hide Accounted;
      var all := popped + [best.hash];
      forall i | 0 <= i < |all| ensures Accounted(env, ctx, policy, index, txs, all[i]) {
        assert i < |popped| ==> all[i] == popped[i];
      }
    }
  }

  lemma AccountAdded(env: Env, ctx: Context, policy: Policy, index: Index, txs: seq<Tx>, popped: seq<Hash>, tx: Tx)
    requires AllAccounted(env, ctx, policy, index, txs, popped) && tx.hash in env.mempool
    ensures AllAccounted(env, ctx, policy, index, txs + [tx], popped + [tx.hash])
  {
    hide Refused;
    HashesGrow(txs, tx);
    var all, txs' := popped + [tx.hash], txs + [tx];
    forall i | 0 <= i < |all| ensures Accounted(env, ctx, policy, index, txs', all[i]) {
      var h := all[i];
      if i < |popped| && h !in Hashes(txs') {
        assert Accounted(env, ctx, policy, index, txs, popped[i]);
        var n :| 0 <= n <= |txs| && RefusedAt(env, ctx, policy, index, txs, n, h);
        assert txs'[..n] == txs[..n];
        assert RefusedAt(env, ctx, policy, index, txs', n, h);
      }
    }
  }

  lemma StartTracking(env: Env, index: Index, isFinal: Tx -> bool, queue: seq<Candidate>, orphans: map<Hash, Orphan>)
    requires forall h :: Eligible(env, isFinal, h) ==> Tracked(env, index, queue, [], orphans, {}, h)
    ensures Hashes([]) == {} && AllTracked(env, index, isFinal, queue, [], orphans, {})
  {
  }

  lemma PopKeepsTrack(env: Env, index: Index, depth: Hash -> int, isFinal: Tx -> bool, queue: seq<Candidate>,
                      popped: seq<Hash>,
                      orphans: map<Hash, Orphan>, done: set<Hash>, k: nat)
    requires k < |queue| && AllTracked(env, index, isFinal, queue, popped, orphans, done)
    requires OnlyEligible(env, index, depth, isFinal, queue, popped, orphans)
    ensures AllTracked(env, index, isFinal, queue[..k] + queue[k + 1..], popped + [queue[k].hash], orphans, done)
    ensures OnlyEligible(env, index, depth, isFinal, queue[..k] + queue[k + 1..], popped + [queue[k].hash], orphans)
  {
    hide Tracked, Ranked;
    forall h | Eligible(env, isFinal, h)
      ensures Tracked(env, index, queue[..k] + queue[k + 1..], popped + [queue[k].hash], orphans, done, h)
    {
      TrackPopped(env, index, queue, popped, orphans, done, k, h);
    }
  }

  lemma HashesGrow(txs: seq<Tx>, tx: Tx)
    ensures Hashes(txs + [tx]) == Hashes(txs) + {tx.hash}
  {
    var all := txs + [tx];
    forall h | h in Hashes(txs) + {tx.hash} ensures h in Hashes(all) {
      if h == tx.hash {
        assert all[|txs|].hash == h;
      } else {
        var i :| 0 <= i < |txs| && txs[i].hash == h;
        assert all[i].hash == h;
      }
    }
  }

  /** Tells every orphan registered with hash that it is done. */
  method ReleaseAll(env: Env, ghost index: Index, ghost depth: Hash -> int, ghost isFinal: Tx -> bool, hash: Hash,
                    dependers: map<Hash, seq<Hash>>,
                    queue0: seq<Candidate>, popped: seq<Hash>, orphans0: map<Hash, Orphan>, ghost done: set<Hash>)
    returns (queue: seq<Candidate>, orphans: map<Hash, Orphan>)
    requires QueueOk(env.mempool, queue0, popped, orphans0) && DependersOk(orphans0, dependers)
    requires AllTracked(env, index, isFinal, queue0, popped, orphans0, done)
             && OnlyEligible(env, index, depth, isFinal, queue0, popped, orphans0)
    ensures QueueOk(env.mempool, queue, popped, orphans) && DependersOk(orphans, dependers)
    ensures AllTracked(env, index, isFinal, queue, popped, orphans, done + {hash})
            && OnlyEligible(env, index, depth, isFinal, queue, popped, orphans)
        ensures |queue| + |Pending(orphans)| == |queue0| + |Pending(orphans0)|
    ensures queue0 <= queue && WaitedFor(env, index, hash, queue[|queue0|..])
  {
    hide QueueOk, Pending, AllTracked, OnlyEligible, Gained, WaitedFor;

    queue, orphans := queue0, orphans0;
    GainedNone(queue, orphans);
    if hash in dependers {
      queue, orphans := Release(env.mempool, hash, dependers[hash], queue0, popped, orphans0);
    }
        Informed(orphans0, orphans, dependers, hash);
    hide DependersOk;
    ReleasedWaited(env, index, depth, isFinal, queue0, queue, popped, orphans0, orphans, done, hash);
    ReleaseKeepsTrack(env, index, depth, isFinal, queue0, queue, popped, orphans0, orphans, done, hash);
  }

  lemma Informed(orphans0: map<Hash, Orphan>, orphans: map<Hash, Orphan>, dependers: map<Hash, seq<Hash>>, hash: Hash)
    requires DependersOk(orphans0, dependers) && orphans.Keys == orphans0.Keys
    requires if hash in dependers then
               forall g :: g in orphans0 ==>
                 orphans[g] == orphans0[g].(dependsOn := Reduced(orphans0[g], g in dependers[hash], hash))
             else orphans == orphans0
    ensures forall g :: g in orphans ==> orphans[g] == orphans0[g].(dependsOn := orphans0[g].dependsOn - {hash})
    ensures DependersOk(orphans, dependers)
  {
  }

  lemma ReleaseKeepsTrack(env: Env, index: Index, depth: Hash -> int, isFinal: Tx -> bool, queue0: seq<Candidate>,
                          queue: seq<Candidate>, popped: seq<Hash>,
                          orphans0: map<Hash, Orphan>, orphans: map<Hash, Orphan>, done: set<Hash>, hash: Hash)
    requires AllTracked(env, index, isFinal, queue0, popped, orphans0, done)
             && OnlyEligible(env, index, depth, isFinal, queue0, popped, orphans0)
    requires orphans.Keys == orphans0.Keys && Gained(queue0, queue, orphans0, orphans)
    requires forall g :: g in orphans ==> orphans[g] == orphans0[g].(dependsOn := orphans0[g].dependsOn - {hash})
    ensures AllTracked(env, index, isFinal, queue, popped, orphans, done + {hash})
            && OnlyEligible(env, index, depth, isFinal, queue, popped, orphans)
  {
    hide Tracked, Ranked;
    forall h | Eligible(env, isFinal, h) ensures Tracked(env, index, queue, popped, orphans, done + {hash}, h) {
      TrackReleased(env, index, queue0, queue, popped, orphans0, orphans, done, hash, h);
    }
    forall i | 0 <= i < |queue| ensures Eligible(env, isFinal, queue[i].hash) && Ranked(env, index, depth, queue[i]) {
      if i < |queue0| {
        assert queue[i] == queue0[i];
      } else {
        var g := queue[i].hash;
        assert Freed(orphans0, orphans, g);
        assert queue[i] == AsCandidate(g, orphans0[g]);
      }
    }
    forall h | h in orphans ensures Eligible(env, isFinal, h) && Ranked(env, index, depth, AsCandidate(h, orphans[h])) {
      assert AsCandidate(h, orphans[h]) == AsCandidate(h, orphans0[h]);
    }
  }

    lemma ReleasedWaited(env: Env, index: Index, depth: Hash -> int, isFinal: Tx -> bool, queue0: seq<Candidate>,
                       queue: seq<Candidate>, popped: seq<Hash>, orphans0: map<Hash, Orphan>,
                       orphans: map<Hash, Orphan>, done: set<Hash>, hash: Hash)
    requires AllTracked(env, index, isFinal, queue0, popped, orphans0, done)
             && OnlyEligible(env, index, depth, isFinal, queue0, popped, orphans0)
             && QueueOk(env.mempool, queue0, popped, orphans0)
        requires Gained(queue0, queue, orphans0, orphans) && orphans.Keys == orphans0.Keys
    requires forall g :: g in orphans ==> orphans[g] == orphans0[g].(dependsOn := orphans0[g].dependsOn - {hash})
    ensures queue0 <= queue && WaitedFor(env, index, hash, queue[|queue0|..])
  {
    hide Depends, Ranked, Tracked, QueueOk;
    forall i | |queue0| <= i < |queue|
      ensures queue[i].hash in env.mempool && hash in Depends(env, index, env.mempool[queue[i].hash])
    {
      var g := queue[i].hash;
      assert Freed(orphans0, orphans, g);
      FreedWaited(env, index, queue0, popped, orphans0, done, g);
    }
  }

  lemma FreedWaited(env: Env, index: Index, queue: seq<Candidate>, popped: seq<Hash>, orphans: map<Hash, Orphan>,
                    done: set<Hash>, g: Hash)
    requires g in env.mempool && Tracked(env, index, queue, popped, orphans, done, g)
    requires QueueOk(env.mempool, queue, popped, orphans) && g in orphans && orphans[g].dependsOn != {}
    ensures orphans[g].dependsOn <= Depends(env, index, env.mempool[g])
  {
    hide Depends;
    assert g in Pending(orphans);
  }


  lemma TrackingEnds(env: Env, index: Index, depth: Hash -> int, isFinal: Tx -> bool, popped: seq<Hash>,
                     orphans: map<Hash, Orphan>, done: set<Hash>)
    requires AllTracked(env, index, isFinal, [], popped, orphans, done)
             && OnlyEligible(env, index, depth, isFinal, [], popped, orphans)
    ensures forall h :: Eligible(env, isFinal, h) ==>
              h in popped || exists d :: d in Depends(env, index, env.mempool[h]) && d !in done
    ensures forall i :: 0 <= i < |popped| ==> Eligible(env, isFinal, popped[i])
  {
    hide Tracked, Depends;
    forall h | Eligible(env, isFinal, h)
      ensures h in popped || exists d :: d in Depends(env, index, env.mempool[h]) && d !in done
    {
      TrackedEnds(env, index, popped, orphans, done, h);
    }
  }

  lemma WithinFacts(policy: Policy, tx: Tx, size: nat, sigOps: nat)
    ensures WithinLimits(policy, tx, size, sigOps) ==> size + tx.size < policy.maxSize
  {
  }

  lemma SizeNone()
    ensures SizeOf([]) == 0
  {
  }

  lemma MinerNone(env: Env, ctx: Context, index: Index)
    ensures MinerTxs(env, ctx, index, []) == Some(Picked(index, 0, 0))
  {
  }

  // ----- The highest rank first -----

  /** The rank of a pool transaction. */
  function RankOf(env: Env, index: Index, depth: Hash -> int, h: Hash): Candidate {
    if h in env.mempool && env.mempool[h].size > 0 then
      Candidate(h, Priority(env, index, depth, env.mempool[h]), FeePerKb(env, index, env.mempool[h]))
    else Candidate(h, 0.0, 0.0)
  }

  /** Everything the transaction depends on was in the block when popped[i] was taken. */
  ghost predicate InQueue(env: Env, index: Index, txs: seq<Tx>, popped: seq<Hash>, i: nat, h: Hash)
    requires i <= |popped|
  {
    h in env.mempool && forall d :: d in Depends(env, index, env.mempool[h]) ==> d in Hashes(txs) && d in popped[..i]
  }

  /** Nothing that could have been taken instead of popped[i] outranks it: by priority up to s, then by fee. */
  ghost predicate TakenInOrder(env: Env, index: Index, depth: Hash -> int, txs: seq<Tx>, popped: seq<Hash>, s: nat) {
    forall i, j :: 0 <= i < j < |popped| && InQueue(env, index, txs, popped, i, popped[j]) ==>
      !Less(RankOf(env, index, depth, popped[i]), RankOf(env, index, depth, popped[j]), i >= s)
  }

  /** marks[i] transactions were in the block when popped[i] was taken. */
  ghost predicate Marks(txs: seq<Tx>, popped: seq<Hash>, marks: seq<nat>) {
    |marks| == |popped| &&
    forall i :: 0 <= i < |popped| ==>
      marks[i] <= |txs| && forall k :: 0 <= k < |txs| ==> (txs[k].hash in popped[..i] <==> k < marks[i])
  }

  /** With n transactions in the block, h fits the limits and ends the part that is sorted by priority. */
  ghost predicate EndsPriority(env: Env, ctx: Context, policy: Policy, index: Index, depth: Hash -> int, txs: seq<Tx>,
                               h: Hash, n: nat) {
    && n <= |txs| && h in env.mempool && MinerTxs(env, ctx, index, txs[..n]).Some?
    && var tx, size := env.mempool[h], RESERVED_SIZE + SizeOf(txs[..n]);
    && WithinLimits(policy, tx, size, RESERVED_SIGOPS + MinerTxs(env, ctx, index, txs[..n]).value.sigOps)
    && (size + tx.size >= policy.prioritySize
        || RankOf(env, index, depth, h).priority < (COIN * 144 / 250) as real)
  }

  /** The first s transactions are taken in priority order: up to the first that ends it. */
  ghost predicate SwitchesAt(env: Env, ctx: Context, policy: Policy, index: Index, depth: Hash -> int, txs: seq<Tx>,
                             popped: seq<Hash>, marks: seq<nat>, s: nat)
    requires |marks| == |popped|
  {
    && s <= |popped|
    && (policy.prioritySize == 0 ==> s == 0)
    && (forall i :: 0 <= i < s - 1 ==> !EndsPriority(env, ctx, policy, index, depth, txs, popped[i], marks[i]))
    && (policy.prioritySize != 0 && s < |popped| ==>
          s > 0 && EndsPriority(env, ctx, policy, index, depth, txs, popped[s - 1], marks[s - 1]))
  }

  /** The whole order in which the queue was emptied. */
  ghost predicate Ordered(env: Env, ctx: Context, policy: Policy, index: Index, depth: Hash -> int, txs: seq<Tx>,
                          popped: seq<Hash>, marks: seq<nat>, s: nat) {
    && Marks(txs, popped, marks) && TakenInOrder(env, index, depth, txs, popped, s)
    && SwitchesAt(env, ctx, policy, index, depth, txs, popped, marks, s)
  }

  ghost predicate BestFirst(env: Env, ctx: Context, policy: Policy, index: Index, depth: Hash -> int, txs: seq<Tx>,
                            popped: seq<Hash>) {
    exists marks: seq<nat>, s: nat :: Ordered(env, ctx, policy, index, depth, txs, popped, marks, s)
  }

  /** No element of the queue outranks what was taken while it was there. */
  ghost predicate QueueInOrder(env: Env, index: Index, depth: Hash -> int, txs: seq<Tx>, popped: seq<Hash>, s: nat,
                               queue: seq<Candidate>) {
    forall i, k :: 0 <= i < |popped| && 0 <= k < |queue| && InQueue(env, index, txs, popped, i, queue[k].hash) ==>
      !Less(RankOf(env, index, depth, popped[i]), queue[k], i >= s)
  }

  /** The switch as far as it is decided: all of popped in priority order, or s at the end of that part. */
  ghost predicate SwitchSoFar(env: Env, ctx: Context, policy: Policy, index: Index, depth: Hash -> int, txs: seq<Tx>,
                              popped: seq<Hash>, marks: seq<nat>, s: nat, byFee: bool)
    requires |marks| == |popped|
  {
    && s <= |popped|
    && (forall i :: 0 <= i < s - 1 ==> !EndsPriority(env, ctx, policy, index, depth, txs, popped[i], marks[i]))
    && (policy.prioritySize == 0 ==> s == 0 && byFee)
    && (policy.prioritySize != 0 && byFee ==>
          s > 0 && EndsPriority(env, ctx, policy, index, depth, txs, popped[s - 1], marks[s - 1]))
    && (!byFee ==> s == |popped| && (s > 0 ==>
          !EndsPriority(env, ctx, policy, index, depth, txs, popped[s - 1], marks[s - 1])))
  }

  ghost predicate InOrder(env: Env, ctx: Context, policy: Policy, index: Index, depth: Hash -> int, txs: seq<Tx>,
                          popped: seq<Hash>, marks: seq<nat>, s: nat, byFee: bool, queue: seq<Candidate>) {
    && Marks(txs, popped, marks) && TakenInOrder(env, index, depth, txs, popped, s)
    && SwitchSoFar(env, ctx, policy, index, depth, txs, popped, marks, s, byFee)
    && QueueInOrder(env, index, depth, txs, popped, s, queue)
  }

  lemma OrderStarts(env: Env, ctx: Context, policy: Policy, index: Index, depth: Hash -> int, queue: seq<Candidate>)
    ensures InOrder(env, ctx, policy, index, depth, [], [], [], 0, policy.prioritySize == 0, queue)
  {
  }

  lemma OrderEnds(env: Env, ctx: Context, policy: Policy, index: Index, depth: Hash -> int, txs: seq<Tx>,
                  popped: seq<Hash>, marks: seq<nat>, s: nat, byFee: bool)
    requires InOrder(env, ctx, policy, index, depth, txs, popped, marks, s, byFee, [])
    ensures BestFirst(env, ctx, policy, index, depth, txs, popped)
  {
    hide Marks, TakenInOrder, EndsPriority;
    assert Ordered(env, ctx, policy, index, depth, txs, popped, marks, s);
  }

    /** The tests of the loop, by what they decide. */
  lemma SwitchTests(env: Env, ctx: Context, policy: Policy, index: Index, depth: Hash -> int, txs: seq<Tx>,
                    best: Candidate, byFee: bool)
    requires best.hash in env.mempool && best == RankOf(env, index, depth, best.hash)
    requires MinerTxs(env, ctx, index, txs).Some?
    ensures var tx, size := env.mempool[best.hash], RESERVED_SIZE + SizeOf(txs);
            var within := WithinLimits(policy, tx, size, RESERVED_SIGOPS + MinerTxs(env, ctx, index, txs).value.sigOps);
            && (byFee || EndsPriority(env, ctx, policy, index, depth, txs, best.hash, |txs|)
                <==> byFee || (within && SwitchToFee(policy, byFee, best, size, tx.size)))
            && (SkipFree(policy, byFee, best, size, tx.size) ==> byFee)
  {
    hide MinerTxs, SizeOf, WithinLimits, Priority, FeePerKb;
    assert txs[..|txs|] == txs;
  }

  // ----- Taking the best keeps the order -----


  lemma MarksPop(pool: map<Hash, Tx>, txs: seq<Tx>, popped: seq<Hash>, marks: seq<nat>, h: Hash)
    requires Marks(txs, popped, marks) && FromPool(pool, txs, popped)
    ensures Marks(txs, popped + [h], marks + [|txs|])
  {
    var popped', marks' := popped + [h], marks + [|txs|];
    forall i | 0 <= i < |popped'|
      ensures marks'[i] <= |txs| && forall k :: 0 <= k < |txs| ==> (txs[k].hash in popped'[..i] <==> k < marks'[i])
    {
      assert popped'[..i] == popped[..i];
      if i == |popped| { assert popped[..i] == popped; }
    }
  }

  lemma MarksAdd(txs: seq<Tx>, popped: seq<Hash>, marks: seq<nat>, tx: Tx)
    requires Marks(txs, popped, marks) && popped != [] && tx.hash == popped[|popped| - 1]
    requires forall i, j :: 0 <= i < j < |popped| ==> popped[i] != popped[j]
    ensures Marks(txs + [tx], popped, marks)
  {
    var txs' := txs + [tx];
    forall i | 0 <= i < |popped|
      ensures forall k :: 0 <= k < |txs'| ==> (txs'[k].hash in popped[..i] <==> k < marks[i])
    {
      assert tx.hash !in popped[..i];
    }
  }

  lemma TakenPops(env: Env, index: Index, depth: Hash -> int, txs: seq<Tx>, popped: seq<Hash>, s: nat, s': nat,
                  queue: seq<Candidate>, k: nat)
    requires TakenInOrder(env, index, depth, txs, popped, s) && QueueInOrder(env, index, depth, txs, popped, s, queue)
    requires k < |queue| && queue[k] == RankOf(env, index, depth, queue[k].hash)
    requires s' == s || s' > s == |popped|
    ensures TakenInOrder(env, index, depth, txs, popped + [queue[k].hash], s')
  {
    hide RankOf, Less, Depends, Hashes;
    var popped' := popped + [queue[k].hash];
    forall i, j | 0 <= i < j < |popped'| && InQueue(env, index, txs, popped', i, popped'[j])
      ensures !Less(RankOf(env, index, depth, popped'[i]), RankOf(env, index, depth, popped'[j]), i >= s')
    {
      assert popped'[..i] == popped[..i];
      assert popped'[j] == if j < |popped| then popped[j] else queue[k].hash;
      assert InQueue(env, index, txs, popped, i, popped'[j]);
    }
  }

  lemma QueuePops(env: Env, index: Index, depth: Hash -> int, txs: seq<Tx>, popped: seq<Hash>, s: nat, s': nat,
                  queue: seq<Candidate>, k: nat)
    requires QueueInOrder(env, index, depth, txs, popped, s, queue)
    requires k < |queue| && queue[k] == RankOf(env, index, depth, queue[k].hash)
    requires s' == s || s' > s == |popped|
    requires forall j :: 0 <= j < |queue| ==> !Less(queue[k], queue[j], |popped| >= s')
    ensures QueueInOrder(env, index, depth, txs, popped + [queue[k].hash], s', queue[..k] + queue[k + 1..])
  {
    hide RankOf, Less, Depends, Hashes;
    var popped', q := popped + [queue[k].hash], queue[..k] + queue[k + 1..];
    forall i, j | 0 <= i < |popped'| && 0 <= j < |q| && InQueue(env, index, txs, popped', i, q[j].hash)
      ensures !Less(RankOf(env, index, depth, popped'[i]), q[j], i >= s')
    {
      assert popped'[..i] == popped[..i];
      assert q[j] == if j < k then queue[j] else queue[j + 1];
      assert InQueue(env, index, txs, popped, i, q[j].hash);
    }
  }

  lemma SwitchPops(env: Env, ctx: Context, policy: Policy, index: Index, depth: Hash -> int, txs: seq<Tx>,
                   popped: seq<Hash>, marks: seq<nat>, s: nat, byFee: bool, h: Hash)
    requires |marks| == |popped| && SwitchSoFar(env, ctx, policy, index, depth, txs, popped, marks, s, byFee)
    ensures SwitchSoFar(env, ctx, policy, index, depth, txs, popped + [h], marks + [|txs|],
                        if byFee then s else |popped| + 1,
                        byFee || EndsPriority(env, ctx, policy, index, depth, txs, h, |txs|))
  {
    hide EndsPriority;
  }

  /** The step of the loop that takes queue[k], the best under the order in force. */
  lemma OrderPops(env: Env, ctx: Context, policy: Policy, index: Index, depth: Hash -> int, txs: seq<Tx>,
                  popped: seq<Hash>, marks: seq<nat>, s: nat, byFee: bool, queue: seq<Candidate>, k: nat)
    requires InOrder(env, ctx, policy, index, depth, txs, popped, marks, s, byFee, queue)
    requires FromPool(env.mempool, txs, popped)
    requires k < |queue| && queue[k] == RankOf(env, index, depth, queue[k].hash)
    requires forall j :: 0 <= j < |queue| ==> !Less(queue[k], queue[j], byFee)
    ensures InOrder(env, ctx, policy, index, depth, txs, popped + [queue[k].hash], marks + [|txs|],
                    if byFee then s else |popped| + 1,
                    byFee || EndsPriority(env, ctx, policy, index, depth, txs, queue[k].hash, |txs|),
                    queue[..k] + queue[k + 1..])
  {
    hide Marks, TakenInOrder, QueueInOrder, EndsPriority, FromPool, RankOf, Less;
    var s' := if byFee then s else |popped| + 1;
    MarksPop(env.mempool, txs, popped, marks, queue[k].hash);
    assert |popped| >= s' <==> byFee;
    TakenPops(env, index, depth, txs, popped, s, s', queue, k);
    QueuePops(env, index, depth, txs, popped, s, s', queue, k);
    SwitchPops(env, ctx, policy, index, depth, txs, popped, marks, s, byFee, queue[k].hash);
  }

  // ----- Adding to the block keeps the order -----

  lemma InQueueKept(env: Env, index: Index, txs: seq<Tx>, popped: seq<Hash>, tx: Tx, i: nat, h: Hash)
    requires i < |popped| && tx.hash == popped[|popped| - 1]
    requires forall i, j :: 0 <= i < j < |popped| ==> popped[i] != popped[j]
    ensures InQueue(env, index, txs + [tx], popped, i, h) <==> InQueue(env, index, txs, popped, i, h)
    ensures h in env.mempool && tx.hash in Depends(env, index, env.mempool[h]) ==>
              !InQueue(env, index, txs + [tx], popped, i, h)
  {
    hide Depends, Hashes;
    HashesGrow(txs, tx);
    assert tx.hash !in popped[..i];
  }

  lemma EndsKept(env: Env, ctx: Context, policy: Policy, index: Index, depth: Hash -> int, txs: seq<Tx>, tx: Tx,
                 h: Hash, n: nat)
    requires n <= |txs|
    ensures EndsPriority(env, ctx, policy, index, depth, txs + [tx], h, n)
       <==> EndsPriority(env, ctx, policy, index, depth, txs, h, n)
  {
    assert (txs + [tx])[..n] == txs[..n];
  }

  lemma SwitchAdds(env: Env, ctx: Context, policy: Policy, index: Index, depth: Hash -> int, txs: seq<Tx>,
                   popped: seq<Hash>, marks: seq<nat>, s: nat, byFee: bool, tx: Tx)
    requires Marks(txs, popped, marks) && SwitchSoFar(env, ctx, policy, index, depth, txs, popped, marks, s, byFee)
    ensures SwitchSoFar(env, ctx, policy, index, depth, txs + [tx], popped, marks, s, byFee)
  {
    hide EndsPriority;
    forall i | 0 <= i < |popped|
      ensures EndsPriority(env, ctx, policy, index, depth, txs + [tx], popped[i], marks[i])
         <==> EndsPriority(env, ctx, policy, index, depth, txs, popped[i], marks[i])
    {
      EndsKept(env, ctx, policy, index, depth, txs, tx, popped[i], marks[i]);
    }
  }

  /** The step that adds the taken transaction and queues what waited for nothing else. */
  lemma OrderAdds(env: Env, ctx: Context, policy: Policy, index: Index, depth: Hash -> int, txs: seq<Tx>,
                  popped: seq<Hash>, marks: seq<nat>, s: nat, byFee: bool, queue: seq<Candidate>, tx: Tx,
                  queue': seq<Candidate>)
    requires InOrder(env, ctx, policy, index, depth, txs, popped, marks, s, byFee, queue)
    requires popped != [] && tx.hash == popped[|popped| - 1]
    requires forall i, j :: 0 <= i < j < |popped| ==> popped[i] != popped[j]
    requires queue <= queue' && WaitedFor(env, index, tx.hash, queue'[|queue|..])
    ensures InOrder(env, ctx, policy, index, depth, txs + [tx], popped, marks, s, byFee, queue')
  {
    hide EndsPriority, RankOf, Less, InQueue, SwitchSoFar, Depends;
    MarksAdd(txs, popped, marks, tx);
    SwitchAdds(env, ctx, policy, index, depth, txs, popped, marks, s, byFee, tx);
    hide Marks;
    forall i, j | 0 <= i < j < |popped| && InQueue(env, index, txs + [tx], popped, i, popped[j])
      ensures !Less(RankOf(env, index, depth, popped[i]), RankOf(env, index, depth, popped[j]), i >= s)
    {
      InQueueKept(env, index, txs, popped, tx, i, popped[j]);
    }
    forall i, k | 0 <= i < |popped| && 0 <= k < |queue'| && InQueue(env, index, txs + [tx], popped, i, queue'[k].hash)
      ensures !Less(RankOf(env, index, depth, popped[i]), queue'[k], i >= s)
    {
            if k < |queue| {
        assert queue'[k] == queue[k];
      } else {
        assert queue'[k] == queue'[|queue|..][k - |queue|];
      }
      InQueueKept(env, index, txs, popped, tx, i, queue'[k].hash);

    }
  }

  /** All of them depend on that transaction. */
  ghost predicate WaitedFor(env: Env, index: Index, hash: Hash, queue: seq<Candidate>) {
    forall i :: 0 <= i < |queue| ==>
      queue[i].hash in env.mempool && hash in Depends(env, index, env.mempool[queue[i].hash])
  }

  /** In particular, a transaction that depends on none of the pool never outranks one taken before it. */
  lemma IndependentInOrder(env: Env, ctx: Context, policy: Policy, index: Index, depth: Hash -> int, txs: seq<Tx>,
                           popped: seq<Hash>, marks: seq<nat>, s: nat, i: nat, j: nat)
    requires Ordered(env, ctx, policy, index, depth, txs, popped, marks, s) && i < j < |popped|
    requires popped[j] in env.mempool && Depends(env, index, env.mempool[popped[j]]) == {}
    ensures !Less(RankOf(env, index, depth, popped[i]), RankOf(env, index, depth, popped[j]), i >= s)
  {
    hide Less, RankOf, Marks, SwitchesAt, Depends, Hashes;
    assert InQueue(env, index, txs, popped, i, popped[j]);
  }
}
