/**
 * The five indexes of the address manager as one value, what makes them
 * consistent, and the elementary updates that keep them so.
 * Source: src/addrman.h, CAddrMan and CAddrInfo; src/addrman.cpp.
 */
module AddrTables {
  import opened Bytes

  type NetAddr = nat

  const TRIED_BUCKET_COUNT := 64
  const TRIED_BUCKET_SIZE := 64
  const NEW_BUCKET_COUNT := 256
  const NEW_BUCKET_SIZE := 64
  const NEW_BUCKETS_PER_ADDRESS := 4

  /** CAddrInfo: address, port, services and last-seen time, then the statistics. */
  datatype AddrInfo = AddrInfo(
    ip: NetAddr, port: nat, services: nat, time: int, source: NetAddr,
    lastSuccess: int, lastTry: int, attempts: int,
    refCount: int, inTried: bool, randomPos: int)

  /** The two keyed hashes that spread addresses over buckets. */
  datatype Hashes = Hashes(tried: (seq<Byte>, NetAddr, nat) -> nat, untried: (seq<Byte>, NetAddr, NetAddr) -> nat)

  datatype State = State(
    hashes: Hashes, key: seq<Byte>, idCount: int,
    info: map<int, AddrInfo>, addr: map<NetAddr, int>, random: seq<int>,
    nTried: int, tried: seq<seq<int>>, nNew: int, untried: seq<set<int>>)

  function TriedBucket(hashes: Hashes, key: seq<Byte>, a: AddrInfo): (b: nat)
    ensures b < TRIED_BUCKET_COUNT
  {
    hashes.tried(key, a.ip, a.port) % TRIED_BUCKET_COUNT
  }

  function NewBucket(hashes: Hashes, key: seq<Byte>, a: AddrInfo, source: NetAddr): (b: nat)
    ensures b < NEW_BUCKET_COUNT
  {
    hashes.untried(key, a.ip, source) % NEW_BUCKET_COUNT
  }

  // ----- Consistency -----

  function BucketsOf(untried: seq<set<int>>, id: int): set<int> {
    set b | 0 <= b < |untried| && id in untried[b]
  }

  function TriedIds(info: map<int, AddrInfo>): set<int> { set id | id in info && info[id].inTried }

  function NewIds(info: map<int, AddrInfo>): set<int> { set id | id in info && !info[id].inTried }

  /** vRandom is a permutation of the ids and nRandomPos its inverse. */
  ghost predicate RandomOk(info: map<int, AddrInfo>, random: seq<int>) {
    && (forall id :: id in info ==> 0 <= info[id].randomPos < |random| && random[info[id].randomPos] == id)
    && (forall i :: 0 <= i < |random| ==> random[i] in info && info[random[i]].randomPos == i)
  }

  /** mapAddr is the inverse of mapInfo. */
  ghost predicate AddrOk(info: map<int, AddrInfo>, addr: map<NetAddr, int>) {
    && (forall id :: id in info ==> info[id].ip in addr && addr[info[id].ip] == id)
    && (forall a :: a in addr ==> addr[a] in info && info[addr[a]].ip == a)
  }

  /** Bucket numbers and sizes. */
  ghost predicate ShapeOk(tried: seq<seq<int>>, untried: seq<set<int>>) {
    && |tried| == TRIED_BUCKET_COUNT && |untried| == NEW_BUCKET_COUNT
    && (forall b :: 0 <= b < |tried| ==> |tried[b]| <= TRIED_BUCKET_SIZE)
    && (forall b :: 0 <= b < |untried| ==> |untried[b]| <= NEW_BUCKET_SIZE)
  }

  /** New buckets hold untried ids; reference counts count buckets, one more for the pending id. */
  ghost predicate NewOk(info: map<int, AddrInfo>, untried: seq<set<int>>, pending: int) {
    && (forall b, id :: 0 <= b < |untried| && id in untried[b] ==> id in info && !info[id].inTried)
    && (forall id :: id in info && !info[id].inTried ==> RefCountOk(info[id].refCount, untried, id, pending))
  }

  ghost predicate RefCountOk(refCount: int, untried: seq<set<int>>, id: int, pending: int) {
    && refCount == |BucketsOf(untried, id)| + (if id == pending then 1 else 0)
    && 1 <= refCount <= NEW_BUCKETS_PER_ADDRESS
  }

  /** Tried buckets hold exactly the tried ids, each once and in the bucket its hash says. */
  ghost predicate TriedOk(hashes: Hashes, key: seq<Byte>, info: map<int, AddrInfo>, tried: seq<seq<int>>) {
    && (forall b, id :: 0 <= b < |tried| && id in tried[b] ==>
          id in info && info[id].inTried && TriedBucket(hashes, key, info[id]) == b)
    && (forall id :: id in info && info[id].inTried ==>
          info[id].refCount == 0 && InBucket(tried, TriedBucket(hashes, key, info[id]), id))
    && (forall b :: 0 <= b < |tried| ==> NoRepeats(tried[b]))
  }

  ghost predicate InBucket(tried: seq<seq<int>>, b: nat, id: int) { b < |tried| && id in tried[b] }

  ghost predicate NoRepeats(s: seq<int>) { forall x :: multiset(s)[x] <= 1 }

  ghost predicate CountsOk(info: map<int, AddrInfo>, nTried: int, nNew: int) {
    nTried == |TriedIds(info)| && nNew == |NewIds(info)|
  }

  ghost predicate IdsOk(info: map<int, AddrInfo>, idCount: int) {
    0 <= idCount && forall id :: id in info ==> 0 <= id < idCount
  }

  /** Everything Check_ looks for, and more; pending is an id about to enter one more new bucket, or NONE. */
  ghost predicate Consistent(st: State, pending: int) {
    && RandomOk(st.info, st.random) && AddrOk(st.info, st.addr) && ShapeOk(st.tried, st.untried)
    && NewOk(st.info, st.untried, pending) && TriedOk(st.hashes, st.key, st.info, st.tried)
    && CountsOk(st.info, st.nTried, st.nNew) && IdsOk(st.info, st.idCount)
  }

  const NONE := -1

  // ----- Which parts an update can disturb -----

  /** a and b differ only in statistics and in their place in vRandom. */
  predicate SamePlace(a: AddrInfo, b: AddrInfo) {
    a.ip == b.ip && a.port == b.port && a.refCount == b.refCount && a.inTried == b.inTried
  }

  /** b is a at a possibly different place in vRandom and with a possibly different reference count. */
  predicate SameStatistics(a: AddrInfo, b: AddrInfo) {
    b == a.(randomPos := b.randomPos, refCount := b.refCount)
  }

  predicate SamePlaces(info: map<int, AddrInfo>, info': map<int, AddrInfo>) {
    info.Keys == info'.Keys && forall id :: id in info ==> SamePlace(info[id], info'[id])
  }

  /** The tried tables only depend on the tried entries. */
  lemma TriedFrame(hashes: Hashes, key: seq<Byte>, info: map<int, AddrInfo>, info': map<int, AddrInfo>,
                   tried: seq<seq<int>>)
    requires TriedOk(hashes, key, info, tried)
    requires forall id :: id in info && info[id].inTried ==> id in info' && SamePlace(info[id], info'[id])
    requires forall id :: id in info' && info'[id].inTried ==> id in info && info[id].inTried
    ensures TriedOk(hashes, key, info', tried)
  {
    hide NoRepeats;
    forall id | id in info' && info'[id].inTried
      ensures info'[id].refCount == 0 && InBucket(tried, TriedBucket(hashes, key, info'[id]), id)
    {
      assert InBucket(tried, TriedBucket(hashes, key, info[id]), id);
    }
  }

  lemma CountsFrame(info: map<int, AddrInfo>, info': map<int, AddrInfo>, nTried: int, nNew: int)
    requires CountsOk(info, nTried, nNew) && SamePlaces(info, info')
    ensures CountsOk(info', nTried, nNew)
  {
    assert forall id :: id in info ==> SamePlace(info[id], info'[id]);
    assert TriedIds(info') == TriedIds(info) && NewIds(info') == NewIds(info);
  }

  lemma NewFrame(info: map<int, AddrInfo>, info': map<int, AddrInfo>, untried: seq<set<int>>, pending: int)
    requires NewOk(info, untried, pending) && SamePlaces(info, info')
    ensures NewOk(info', untried, pending)
  {
    hide RefCountOk;
  }

  lemma AddrFrame(info: map<int, AddrInfo>, info': map<int, AddrInfo>, addr: map<NetAddr, int>)
    requires AddrOk(info, addr) && SamePlaces(info, info')
    ensures AddrOk(info', addr)
  {
  }

  lemma PlacesFrame(st: State, st': State, pending: int)
    requires Consistent(st, pending) && SamePlaces(st.info, st'.info) && RandomOk(st'.info, st'.random)
    requires st' == st.(info := st'.info, random := st'.random)
    ensures Consistent(st', pending)
  {
    hide RandomOk, AddrOk, ShapeOk, NewOk, TriedOk, CountsOk;
    TriedFrame(st.hashes, st.key, st.info, st'.info, st.tried);
    CountsFrame(st.info, st'.info, st.nTried, st.nNew);
    NewFrame(st.info, st'.info, st.untried, pending);
    AddrFrame(st.info, st'.info, st.addr);
  }

  // ----- Updates that leave the tables alone -----

  function SetInfo(st: State, id: int, a: AddrInfo): State { st.(info := st.info[id := a]) }

  lemma StatisticsDontMatter(st: State, id: int, a: AddrInfo, pending: int)
    requires Consistent(st, pending) && id in st.info && SamePlace(st.info[id], a)
             && a.randomPos == st.info[id].randomPos
    ensures Consistent(SetInfo(st, id, a), pending)
  {
    hide AddrOk, ShapeOk, NewOk, TriedOk, CountsOk;
    PlacesFrame(st, SetInfo(st, id, a), pending);
  }

  /** SwapRandom. */
  function Swap(st: State, i: nat, j: nat): State
    requires i < |st.random| && j < |st.random| && st.random[i] in st.info && st.random[j] in st.info
  {
    if i == j then st
    else
      var a, b := st.random[i], st.random[j];
      var info1 := st.info[a := st.info[a].(randomPos := j)];
      var info2 := info1[b := info1[b].(randomPos := i)];
      st.(info := info2, random := st.random[i := b][j := a])
  }

  lemma SwapKeeps(st: State, i: nat, j: nat, pending: int)
    requires Consistent(st, pending) && i < |st.random| && j < |st.random|
    ensures Consistent(Swap(st, i, j), pending)
    ensures forall x :: x in st.info ==> SameStatistics(st.info[x], Swap(st, i, j).info[x])
    ensures SamePlaces(st.info, Swap(st, i, j).info) && |Swap(st, i, j).random| == |st.random|
    ensures Swap(st, i, j).random[i] == st.random[j] && Swap(st, i, j).random[j] == st.random[i]
    ensures forall k :: 0 <= k < |st.random| && k != i && k != j ==> Swap(st, i, j).random[k] == st.random[k]
  {
    hide AddrOk, ShapeOk, NewOk, TriedOk, CountsOk;
    PlacesFrame(st, Swap(st, i, j), pending);
  }

  // ----- Creating and deleting entries -----

  /** Create with the ++nNew and ++nRefCount that follow it: the new id is pending for its first bucket. */
  function CreateState(st: State, a: AddrInfo): State {
    var id := st.idCount;
    st.(idCount := id + 1,
        info := st.info[id := a.(refCount := 1, inTried := false, randomPos := |st.random|)],
        addr := st.addr[a.ip := id],
        random := st.random + [id],
        nNew := st.nNew + 1)
  }

  lemma CreateKeeps(st: State, a: AddrInfo)
    requires Consistent(st, NONE) && a.ip !in st.addr
    ensures Consistent(CreateState(st, a), st.idCount)
    ensures forall b :: 0 <= b < |st.untried| ==> st.idCount !in st.untried[b]
  {
    hide ShapeOk, NewOk, TriedOk, CountsOk;
    var st', id := CreateState(st, a), st.idCount;
    assert id !in st.info;
    TriedFrame(st.hashes, st.key, st.info, st'.info, st.tried);
    CreateCounts(st.info, id, st'.info[id], st.nTried, st.nNew);
    CreateNew(st.info, st'.info, id, st.untried);
  }

  lemma CreateIds(info: map<int, AddrInfo>, id: int, a: AddrInfo)
    requires id !in info && !a.inTried
    ensures id !in NewIds(info) && NewIds(info[id := a]) == NewIds(info) + {id}
            && TriedIds(info[id := a]) == TriedIds(info)
  {
  }

  lemma CreateCounts(info: map<int, AddrInfo>, id: int, a: AddrInfo, nTried: int, nNew: int)
    requires CountsOk(info, nTried, nNew) && id !in info && !a.inTried
    ensures CountsOk(info[id := a], nTried, nNew + 1)
  {
    hide NewIds, TriedIds;
    CreateIds(info, id, a);
  }

  lemma CreateNew(info: map<int, AddrInfo>, info': map<int, AddrInfo>, id: int, untried: seq<set<int>>)
    requires NewOk(info, untried, NONE) && id !in info && forall x :: x in info ==> x >= 0
    requires id in info' && !info'[id].inTried && info'[id].refCount == 1 && info' == info[id := info'[id]]
    ensures NewOk(info', untried, id)
    ensures forall b :: 0 <= b < |untried| ==> id !in untried[b]
  {
    assert BucketsOf(untried, id) == {};
    forall x | x in info && !info[x].inTried ensures RefCountOk(info'[x].refCount, untried, x, id) {
      assert RefCountOk(info[x].refCount, untried, x, NONE) && x >= 0;
    }
  }

  /** Raises the reference count of an untried id that is to enter one more bucket. */
  function Raise(st: State, id: int): State
    requires id in st.info
  {
    SetInfo(st, id, st.info[id].(refCount := st.info[id].refCount + 1))
  }

  lemma RaiseKeeps(st: State, id: int)
    requires Consistent(st, NONE) && id in st.info && !st.info[id].inTried
             && st.info[id].refCount < NEW_BUCKETS_PER_ADDRESS
    ensures Consistent(Raise(st, id), id)
  {
    hide ShapeOk, TriedOk, NewOk, CountsOk, AddrOk;
    var st' := Raise(st, id);
    TriedFrame(st.hashes, st.key, st.info, st'.info, st.tried);
    RefCountOnly(st.info, st'.info, id, st.nTried, st.nNew, st.addr);
    RaiseNew(st.info, st'.info, st.untried, id);
  }

  lemma RefCountOnly(info: map<int, AddrInfo>, info': map<int, AddrInfo>, id: int, nTried: int, nNew: int,
                     addr: map<NetAddr, int>)
    requires CountsOk(info, nTried, nNew) && AddrOk(info, addr) && id in info && id in info'
    requires info' == info[id := info[id].(refCount := info'[id].refCount)]
    ensures CountsOk(info', nTried, nNew) && AddrOk(info', addr)
  {
    assert TriedIds(info') == TriedIds(info) && NewIds(info') == NewIds(info);
  }

  lemma RaiseNew(info: map<int, AddrInfo>, info': map<int, AddrInfo>, untried: seq<set<int>>, id: int)
    requires NewOk(info, untried, NONE) && id in info && !info[id].inTried
             && info[id].refCount < NEW_BUCKETS_PER_ADDRESS
    requires info' == info[id := info[id].(refCount := info[id].refCount + 1)]
    requires forall x :: x in info ==> x >= 0
    ensures NewOk(info', untried, id)
  {
    forall x | x in info && !info[x].inTried ensures RefCountOk(info'[x].refCount, untried, x, id) {
      assert RefCountOk(info[x].refCount, untried, x, NONE);
      assert x >= 0;
    }
  }

  function Insert(st: State, b: nat, id: int): State
    requires b < |st.untried|
  {
    st.(untried := st.untried[b := st.untried[b] + {id}])
  }

  /** The pending id enters the bucket it was raised for. */
  lemma InsertKeeps(st: State, b: nat, id: int)
    requires Consistent(st, id) && id in st.info && !st.info[id].inTried
    requires b < NEW_BUCKET_COUNT && id !in st.untried[b] && |st.untried[b]| < NEW_BUCKET_SIZE
    ensures Consistent(Insert(st, b, id), NONE)
  {
    hide RandomOk, AddrOk, TriedOk, CountsOk;
    var untried' := st.untried[b := st.untried[b] + {id}];
    assert BucketsOf(untried', id) == BucketsOf(st.untried, id) + {b};
    forall x | x in st.info && !st.info[x].inTried ensures RefCountOk(st.info[x].refCount, untried', x, NONE) {
      assert RefCountOk(st.info[x].refCount, st.untried, x, id);
      if x != id { assert BucketsOf(untried', x) == BucketsOf(st.untried, x); }
    }
  }

  /** Removal of an id whose last bucket is b: out of every index. */
  function Erase(st: State, b: nat, id: int): State
    requires b < |st.untried| && id in st.info && st.random != []
    requires 0 <= st.info[id].randomPos < |st.random| && st.random[|st.random| - 1] in st.info
    requires st.random[st.info[id].randomPos] == id
  {
    var n := |st.random|;
    var s := Swap(st, st.info[id].randomPos, n - 1);
    s.(random := s.random[..n - 1], addr := s.addr - {s.info[id].ip}, info := s.info - {id}, nNew := s.nNew - 1,
       untried := s.untried[b := s.untried[b] - {id}])
  }

  lemma EraseKeeps(st: State, b: nat, id: int, pending: int)
    requires Consistent(st, pending) && b < NEW_BUCKET_COUNT && id in st.untried[b] && id != pending
    requires id in st.info && st.info[id].refCount == 1
    ensures st.random != [] && 0 <= st.info[id].randomPos < |st.random| && st.random[|st.random| - 1] in st.info
    ensures st.random[st.info[id].randomPos] == id
    ensures Consistent(Erase(st, b, id), pending)
    ensures Erase(st, b, id).info.Keys == st.info.Keys - {id}
    ensures forall x :: x in st.info && x != id ==>
              SamePlace(st.info[x], Erase(st, b, id).info[x]) && SameStatistics(st.info[x], Erase(st, b, id).info[x])
  {
    hide AddrOk, NewOk, TriedOk, CountsOk, SamePlace;
    var n := |st.random|;
    SwapKeeps(st, st.info[id].randomPos, n - 1, pending);
    var s, st' := Swap(st, st.info[id].randomPos, n - 1), Erase(st, b, id);
    assert SamePlace(st.info[id], s.info[id]);
    SamePlaceRef(st.info[id], s.info[id]);
    assert s.info[id].refCount == 1;
    EraseTables(s, st', b, id, pending);
  }

  lemma SamePlaceRef(a: AddrInfo, b: AddrInfo)
    requires SamePlace(a, b)
    ensures a.refCount == b.refCount
  {
  }

  lemma OnlyBucket(untried: seq<set<int>>, b: nat, id: int)
    requires b < |untried| && id in untried[b] && |BucketsOf(untried, id)| == 1
    ensures forall c :: 0 <= c < |untried| && c != b ==> id !in untried[c]
  {
    var s := BucketsOf(untried, id);
    assert b in s && |s - {b}| == 0;
    assert forall c :: 0 <= c < |untried| && c != b && id in untried[c] ==> c in s - {b};
  }

  lemma EraseTables(s: State, st': State, b: nat, id: int, pending: int)
    requires Consistent(s, pending) && b < NEW_BUCKET_COUNT && id in s.untried[b] && id != pending
    requires id in s.info && s.info[id].refCount == 1
    requires s.random != [] && s.random[|s.random| - 1] == id
    requires st' == s.(random := s.random[..|s.random| - 1], addr := s.addr - {s.info[id].ip}, info := s.info - {id},
                       nNew := s.nNew - 1, untried := s.untried[b := s.untried[b] - {id}])
    ensures Consistent(st', pending)
  {
    hide NewOk, TriedOk, CountsOk;
    EraseNew(s.info, s.untried, b, id, pending);
    EraseCounts(s.info, id, s.nTried, s.nNew);
    TriedFrame(s.hashes, s.key, s.info, st'.info, s.tried);
  }

  lemma EraseNew(info: map<int, AddrInfo>, untried: seq<set<int>>, b: nat, id: int, pending: int)
    requires NewOk(info, untried, pending) && b < |untried| && id in untried[b] && id != pending
    requires id in info && info[id].refCount == 1
    ensures !info[id].inTried
    ensures NewOk(info - {id}, untried[b := untried[b] - {id}], pending)
  {
    assert RefCountOk(info[id].refCount, untried, id, pending);
    OnlyBucket(untried, b, id);
    var untried' := untried[b := untried[b] - {id}];
    forall x | x in info - {id} && !info[x].inTried ensures RefCountOk(info[x].refCount, untried', x, pending) {
      assert RefCountOk(info[x].refCount, untried, x, pending);
      assert BucketsOf(untried', x) == BucketsOf(untried, x);
    }
  }

  lemma EraseCounts(info: map<int, AddrInfo>, id: int, nTried: int, nNew: int)
    requires CountsOk(info, nTried, nNew) && id in info && !info[id].inTried
    ensures CountsOk(info - {id}, nTried, nNew - 1)
  {
    assert NewIds(info - {id}) == NewIds(info) - {id} && TriedIds(info - {id}) == TriedIds(info);
  }

  /** Removal of an id from one of several buckets. */
  function Release(st: State, b: nat, id: int): State
    requires b < |st.untried| && id in st.info
  {
    st.(info := st.info[id := st.info[id].(refCount := st.info[id].refCount - 1)],
        untried := st.untried[b := st.untried[b] - {id}])
  }

  lemma ReleaseKeeps(st: State, b: nat, id: int, pending: int)
    requires Consistent(st, pending) && b < NEW_BUCKET_COUNT && id in st.untried[b] && id != pending
    requires id in st.info && st.info[id].refCount > 1
    ensures Consistent(Release(st, b, id), pending)
  {
    hide TriedOk, NewOk, CountsOk, AddrOk;
    var st' := Release(st, b, id);
    ReleaseNew(st.info, st.untried, b, id, pending);
    TriedFrame(st.hashes, st.key, st.info, st'.info, st.tried);
    RefCountOnly(st.info, st'.info, id, st.nTried, st.nNew, st.addr);
  }

  lemma ReleaseNew(info: map<int, AddrInfo>, untried: seq<set<int>>, b: nat, id: int, pending: int)
    requires NewOk(info, untried, pending) && b < |untried| && id in untried[b] && id != pending
    requires id in info && info[id].refCount > 1
    ensures !info[id].inTried
    ensures NewOk(info[id := info[id].(refCount := info[id].refCount - 1)], untried[b := untried[b] - {id}], pending)
  {
    var info' := info[id := info[id].(refCount := info[id].refCount - 1)];
    var untried' := untried[b := untried[b] - {id}];
    assert b in BucketsOf(untried, id);
    assert BucketsOf(untried', id) == BucketsOf(untried, id) - {b};
    forall x | x in info && !info[x].inTried ensures RefCountOk(info'[x].refCount, untried', x, pending) {
      assert RefCountOk(info[x].refCount, untried, x, pending);
      if x != id { assert BucketsOf(untried', x) == BucketsOf(untried, x); }
    }
  }

  // ----- Moving entries to the tried table -----

  /** id taken out of every new bucket. */
  function Cleared(untried: seq<set<int>>, id: int): (r: seq<set<int>>)
    ensures |r| == |untried| && forall b :: 0 <= b < |untried| ==> r[b] == untried[b] - {id}
  {
    seq(|untried|, b requires 0 <= b < |untried| => untried[b] - {id})
  }

  function AsTried(a: AddrInfo): AddrInfo { a.(refCount := 0, inTried := true) }

  function AsNew(a: AddrInfo): AddrInfo { a.(refCount := 1, inTried := false) }

  /** id moves to the end of its tried bucket. */
  function AppendTried(st: State, id: int): State
    requires id in st.info && |st.tried| == TRIED_BUCKET_COUNT
  {
    var b := TriedBucket(st.hashes, st.key, st.info[id]);
    st.(info := st.info[id := AsTried(st.info[id])], untried := Cleared(st.untried, id),
        tried := st.tried[b := st.tried[b] + [id]], nNew := st.nNew - 1, nTried := st.nTried + 1)
  }

  /** id takes the place of a tried entry, which goes back to the new bucket `back`. */
  function EvictTried(st: State, id: int, pos: nat, back: nat): State
    requires id in st.info && |st.tried| == TRIED_BUCKET_COUNT && back < |st.untried|
    requires pos < |st.tried[TriedBucket(st.hashes, st.key, st.info[id])]|
    requires st.tried[TriedBucket(st.hashes, st.key, st.info[id])][pos] in st.info
  {
    var b := TriedBucket(st.hashes, st.key, st.info[id]);
    var other := st.tried[b][pos];
    var cleared := Cleared(st.untried, id);
    st.(info := st.info[id := AsTried(st.info[id])][other := AsNew(st.info[other])],
        untried := cleared[back := cleared[back] + {other}],
        tried := st.tried[b := st.tried[b][pos := id]])
  }

  lemma MoveRandom(info: map<int, AddrInfo>, info': map<int, AddrInfo>, random: seq<int>, addr: map<NetAddr, int>,
                   idCount: int)
    requires RandomOk(info, random) && AddrOk(info, addr) && IdsOk(info, idCount) && info'.Keys == info.Keys
    requires forall x :: x in info ==> info'[x].ip == info[x].ip && info'[x].randomPos == info[x].randomPos
    ensures RandomOk(info', random) && AddrOk(info', addr) && IdsOk(info', idCount)
  {
  }

  lemma AppendKeeps(st: State, id: int)
    requires Consistent(st, NONE) && id in st.info && !st.info[id].inTried
    requires |st.tried[TriedBucket(st.hashes, st.key, st.info[id])]| < TRIED_BUCKET_SIZE
    ensures Consistent(AppendTried(st, id), NONE)
  {
    hide RandomOk, AddrOk, NewOk, TriedOk, CountsOk, IdsOk;
    var st' := AppendTried(st, id);
    MoveRandom(st.info, st'.info, st.random, st.addr, st.idCount);
    ClearShape(st.untried, id);
    AppendCounts(st.info, id, st.nTried, st.nNew);
    ClearNew(st.info, st.untried, id);
    AppendTables(st.hashes, st.key, st.info, st.tried, id);
  }

  lemma ClearShape(untried: seq<set<int>>, id: int)
    requires forall b :: 0 <= b < |untried| ==> |untried[b]| <= NEW_BUCKET_SIZE
    ensures forall b :: 0 <= b < |untried| ==> |Cleared(untried, id)[b]| <= |untried[b]|
    ensures forall b :: 0 <= b < |untried| && id in untried[b] ==> |Cleared(untried, id)[b]| < |untried[b]|
  {
  }

  lemma AppendIds(info: map<int, AddrInfo>, id: int)
    requires id in info && !info[id].inTried
    ensures var info' := info[id := AsTried(info[id])];
            && id in NewIds(info) && id !in TriedIds(info)
            && NewIds(info') == NewIds(info) - {id} && TriedIds(info') == TriedIds(info) + {id}
  {
  }

  lemma AppendCounts(info: map<int, AddrInfo>, id: int, nTried: int, nNew: int)
    requires CountsOk(info, nTried, nNew) && id in info && !info[id].inTried
    ensures CountsOk(info[id := AsTried(info[id])], nTried + 1, nNew - 1)
  {
    hide NewIds, TriedIds;
    AppendIds(info, id);
  }

  lemma ClearNew(info: map<int, AddrInfo>, untried: seq<set<int>>, id: int)
    requires NewOk(info, untried, NONE) && id in info
    ensures NewOk(info[id := AsTried(info[id])], Cleared(untried, id), NONE)
  {
    var cleared := Cleared(untried, id);
    forall x | x in info && x != id && !info[x].inTried ensures RefCountOk(info[x].refCount, cleared, x, NONE) {
      assert RefCountOk(info[x].refCount, untried, x, NONE);
      assert BucketsOf(cleared, x) == BucketsOf(untried, x);
    }
  }

  lemma AppendTables(hashes: Hashes, key: seq<Byte>, info: map<int, AddrInfo>, tried: seq<seq<int>>, id: int)
    requires TriedOk(hashes, key, info, tried) && id in info && !info[id].inTried && |tried| == TRIED_BUCKET_COUNT
    ensures var b := TriedBucket(hashes, key, info[id]);
            TriedOk(hashes, key, info[id := AsTried(info[id])], tried[b := tried[b] + [id]])
  {
    var b := TriedBucket(hashes, key, info[id]);
    var info', tried' := info[id := AsTried(info[id])], tried[b := tried[b] + [id]];
    assert id !in tried[b];
    forall x | x in info' && info'[x].inTried
      ensures info'[x].refCount == 0 && InBucket(tried', TriedBucket(hashes, key, info'[x]), x)
    {
      if x != id {
        assert InBucket(tried, TriedBucket(hashes, key, info[x]), x);
      } else {
        assert tried'[b][|tried[b]|] == id;
      }
    }
    forall c | 0 <= c < |tried'| ensures NoRepeats(tried'[c]) {
      assert NoRepeats(tried[c]);
      if c == b { assert multiset(tried'[b]) == multiset(tried[b]) + multiset{id}; }
    }
  }

  lemma EvictKeeps(st: State, id: int, pos: nat, back: nat)
    requires Consistent(st, NONE) && id in st.info && !st.info[id].inTried && back < NEW_BUCKET_COUNT
    requires pos < |st.tried[TriedBucket(st.hashes, st.key, st.info[id])]|
    requires |Cleared(st.untried, id)[back]| < NEW_BUCKET_SIZE
    ensures st.tried[TriedBucket(st.hashes, st.key, st.info[id])][pos] in st.info
    ensures Consistent(EvictTried(st, id, pos, back), NONE)
  {
    var b := TriedBucket(st.hashes, st.key, st.info[id]);
    var other := st.tried[b][pos];
    EvictedFacts(st.hashes, st.key, st.info, st.tried, b, pos);
    hide RandomOk, AddrOk, NewOk, TriedOk, CountsOk, IdsOk;
    var st' := EvictTried(st, id, pos, back);
    hide Cleared, TriedBucket, AsTried, AsNew;
    MoveRandom(st.info, st'.info, st.random, st.addr, st.idCount);
    EvictCounts(st.info, id, other, st.nTried, st.nNew);
    EvictTables(st.hashes, st.key, st.info, st.tried, id, pos);
    EvictUntried(st.info, st.untried, id, other, back);
    ClearShape(st.untried, id);
    EvictShape(st, id, pos, back);
    hide ShapeOk;
  }

  lemma EvictUntried(info: map<int, AddrInfo>, untried: seq<set<int>>, id: int, other: int, back: nat)
    requires NewOk(info, untried, NONE) && id in info && other in info && info[other].inTried && id != other
    requires other >= 0 && back < |untried|
    ensures NewOk(info[id := AsTried(info[id])][other := AsNew(info[other])],
                  Cleared(untried, id)[back := Cleared(untried, id)[back] + {other}], NONE)
  {
    hide NewOk;
    ClearNew(info, untried, id);
    EvictNew(info[id := AsTried(info[id])], Cleared(untried, id), other, back);
  }

  lemma EvictShape(st: State, id: int, pos: nat, back: nat)
    requires ShapeOk(st.tried, st.untried) && id in st.info && back < NEW_BUCKET_COUNT
    requires pos < |st.tried[TriedBucket(st.hashes, st.key, st.info[id])]|
    requires st.tried[TriedBucket(st.hashes, st.key, st.info[id])][pos] in st.info
    requires |Cleared(st.untried, id)[back]| < NEW_BUCKET_SIZE
    requires ShapeOk(st.tried, Cleared(st.untried, id))
    ensures ShapeOk(EvictTried(st, id, pos, back).tried, EvictTried(st, id, pos, back).untried)
  {
  }

  lemma EvictedFacts(hashes: Hashes, key: seq<Byte>, info: map<int, AddrInfo>, tried: seq<seq<int>>, b: nat, pos: nat)
    requires TriedOk(hashes, key, info, tried) && b < |tried| && pos < |tried[b]|
    ensures var x := tried[b][pos]; x in info && info[x].inTried && TriedBucket(hashes, key, info[x]) == b
  {
    assert tried[b][pos] in tried[b];
  }

  lemma EvictIds(info: map<int, AddrInfo>, id: int, other: int)
    requires id in info && !info[id].inTried && other in info && info[other].inTried
    ensures var info' := info[id := AsTried(info[id])][other := AsNew(info[other])];
            && NewIds(info') == NewIds(info) - {id} + {other} && TriedIds(info') == TriedIds(info) + {id} - {other}
            && id in NewIds(info) && other !in NewIds(info) && id !in TriedIds(info) && other in TriedIds(info)
  {
  }

  lemma EvictCounts(info: map<int, AddrInfo>, id: int, other: int, nTried: int, nNew: int)
    requires CountsOk(info, nTried, nNew) && id in info && !info[id].inTried && other in info && info[other].inTried
    ensures CountsOk(info[id := AsTried(info[id])][other := AsNew(info[other])], nTried, nNew)
  {
    hide NewIds, TriedIds;
    EvictIds(info, id, other);
    assert |NewIds(info) - {id} + {other}| == |NewIds(info)|;
    assert |TriedIds(info) + {id} - {other}| == |TriedIds(info)|;
  }

  lemma EvictNew(info: map<int, AddrInfo>, untried: seq<set<int>>, other: int, back: nat)
    requires NewOk(info, untried, NONE) && other in info && info[other].inTried && other >= 0 && back < |untried|
    ensures NewOk(info[other := AsNew(info[other])], untried[back := untried[back] + {other}], NONE)
  {
    var info', untried' := info[other := AsNew(info[other])], untried[back := untried[back] + {other}];
    assert BucketsOf(untried', other) == {back};
    forall x | x in info && x != other && !info[x].inTried ensures RefCountOk(info[x].refCount, untried', x, NONE) {
      assert RefCountOk(info[x].refCount, untried, x, NONE);
      assert BucketsOf(untried', x) == BucketsOf(untried, x);
    }
  }

  lemma EvictTables(hashes: Hashes, key: seq<Byte>, info: map<int, AddrInfo>, tried: seq<seq<int>>, id: int, pos: nat)
    requires TriedOk(hashes, key, info, tried) && id in info && !info[id].inTried && |tried| == TRIED_BUCKET_COUNT
    requires pos < |tried[TriedBucket(hashes, key, info[id])]|
    requires tried[TriedBucket(hashes, key, info[id])][pos] in info
    ensures var b := TriedBucket(hashes, key, info[id]);
            var other := tried[b][pos];
            TriedOk(hashes, key, info[id := AsTried(info[id])][other := AsNew(info[other])],
                    tried[b := tried[b][pos := id]])
  {
    var b := TriedBucket(hashes, key, info[id]);
    var other := tried[b][pos];
    var info' := info[id := AsTried(info[id])][other := AsNew(info[other])];
    var tried' := tried[b := tried[b][pos := id]];
    EvictedFacts(hashes, key, info, tried, b, pos);
    assert id !in tried[b];
    ReplaceOne(tried[b], pos, id);
    forall c, x | 0 <= c < |tried'| && x in tried'[c]
      ensures x in info' && info'[x].inTried && TriedBucket(hashes, key, info'[x]) == c
    {
      if c == b && x != id { assert x in tried[b] && x != other; }
    }
    forall x | x in info' && info'[x].inTried
      ensures info'[x].refCount == 0 && InBucket(tried', TriedBucket(hashes, key, info'[x]), x)
    {
      if x != id { assert InBucket(tried, TriedBucket(hashes, key, info[x]), x); }
    }
    forall c | 0 <= c < |tried'| ensures NoRepeats(tried'[c]) { assert NoRepeats(tried[c]); }
  }

  /** Replacing one element of a list without repeats by a new one. */
  lemma ReplaceOne(s: seq<int>, pos: nat, id: int)
    requires NoRepeats(s) && pos < |s| && id !in s
    ensures NoRepeats(s[pos := id])
    ensures forall x :: x in s[pos := id] <==> x == id || (x in s && x != s[pos])
  {
    var r := s[pos := id];
    ReplaceCounts(s, pos, id);
    assert s[pos] in multiset(s) && multiset(s)[id] == 0;
    forall x ensures x in r <==> x == id || (x in s && x != s[pos]) {
      assert x in r <==> multiset(r)[x] > 0;
      assert x in s <==> multiset(s)[x] > 0;
    }
  }

  lemma ReplaceCounts(s: seq<int>, pos: nat, id: int)
    requires pos < |s|
    ensures multiset(s[pos := id]) == multiset(s) - multiset{s[pos]} + multiset{id}
  {
    assert s == s[..pos] + [s[pos]] + s[pos + 1..];
    assert s[pos := id] == s[..pos] + [id] + s[pos + 1..];
  }

  /** Reordering a tried bucket. */
  lemma PermuteKeeps(st: State, b: nat, perm: seq<int>, pending: int)
    requires Consistent(st, pending) && b < TRIED_BUCKET_COUNT && multiset(perm) == multiset(st.tried[b])
    ensures Consistent(st.(tried := st.tried[b := perm]), pending)
  {
    hide RandomOk, AddrOk, NewOk, CountsOk, IdsOk;
    assert |perm| == |multiset(perm)| == |st.tried[b]|;
    assert forall x :: x in perm <==> x in st.tried[b] by {
      forall x ensures x in perm <==> x in st.tried[b] {
        assert x in perm <==> x in multiset(perm);
        assert x in st.tried[b] <==> x in multiset(st.tried[b]);
      }
    }
    var tried' := st.tried[b := perm];
    forall x | x in st.info && st.info[x].inTried
      ensures InBucket(tried', TriedBucket(st.hashes, st.key, st.info[x]), x)
    {
      assert InBucket(st.tried, TriedBucket(st.hashes, st.key, st.info[x]), x);
    }
    forall c | 0 <= c < |tried'| ensures NoRepeats(tried'[c]) { assert NoRepeats(st.tried[c]); }
  }
}
