/**
 * The address manager: every operation keeps its indexes consistent, whatever
 * the random choices.  Random numbers are arbitrary choices, time a parameter.
 * Source: src/addrman.cpp, src/addrman.h.
 */
module AddrMan {
  import opened Bytes
  import opened AddrTables
  import opened AddrChoice

  /** A CAddress as it arrives from the network. */
  datatype Address = Address(ip: NetAddr, port: nat, services: nat, time: int)

  const HORIZON_DAYS := 30
  const RETRIES := 3
  const MAX_FAILURES := 10
  const MIN_FAIL_DAYS := 7
  const GETADDR_MAX_PCT := 23
  const GETADDR_MAX := 2500

  predicate IsTerrible(a: AddrInfo, now: int) {
    if a.lastTry != 0 && a.lastTry >= now - 60 then false
    else
      || a.time > now + 10 * 60
      || a.time == 0 || now - a.time > HORIZON_DAYS * 86400
      || (a.lastSuccess == 0 && a.attempts >= RETRIES)
      || (now - a.lastSuccess > MIN_FAIL_DAYS * 86400 && a.attempts >= MAX_FAILURES)
  }

  /** The time stamps Check_ insists on. */
  ghost predicate TimesOk(info: map<int, AddrInfo>) {
    forall id :: id in info ==> TimeOk(info[id])
  }

  predicate TimeOk(a: AddrInfo) {
    a.lastTry >= 0 && a.lastSuccess >= 0 && (a.inTried ==> a.lastSuccess != 0)
  }

  function Max0(x: int): int { if x < 0 then 0 else x }

  /** bitwise or of service flags, bit by bit */
  function OrBits(a: nat, b: nat): nat
    decreases a + b
  {
    if a == 0 then b else if b == 0 then a
    else (if a % 2 == 1 || b % 2 == 1 then 1 else 0) + 2 * OrBits(a / 2, b / 2)
  }

  // ----- Sorted traversal of a std::set or std::map -----

  lemma PickOne<T>(s: set<T>) returns (x: T)
    requires s != {}
    ensures x in s
  {
    x :| x in s;
  }

  lemma {:induction false} MinExists(s: set<int>)
    requires s != {}
    ensures exists m :: m in s && forall y :: y in s ==> m <= y
    decreases |s|
  {
    var x := PickOne(s);
    var t := s - {x};
    if t == {} {
      assert s == {x} + t;
    } else {
      MinExists(t);
      var m :| m in t && forall y :: y in t ==> m <= y;
      var k := if x < m then x else m;
      assert k in s;
      forall y | y in s ensures k <= y { assert y == x || y in t; }
    }
  }

  function Min(s: set<int>): (m: int)
    requires s != {}
    ensures m in s && forall y :: y in s ==> m <= y
  {
    MinExists(s);
    var m :| m in s && forall y :: y in s ==> m <= y;
    m
  }

  /** The elements in increasing order. */
  function Sorted(s: set<int>): (r: seq<int>)
    ensures |r| == |s|
    ensures forall i :: 0 <= i < |r| ==> r[i] in s
    decreases |s|
  {
    if s == {} then [] else [Min(s)] + Sorted(s - {Min(s)})
  }

  lemma {:induction false} SortedOrder(s: set<int>)
    ensures forall i, j :: 0 <= i < j < |Sorted(s)| ==> Sorted(s)[i] < Sorted(s)[j]
    decreases |s|
  {
    if s != {} {
      var m := Min(s);
      SortedOrder(s - {m});
      var rest := Sorted(s - {m});
      forall j | 0 <= j < |rest| ensures m < rest[j] { assert rest[j] in s - {m}; }
    }
  }

  lemma {:induction false} SortedCovers(s: set<int>, x: int)
    requires x in s
    ensures x in Sorted(s)
    decreases |s|
  {
    if x != Min(s) { SortedCovers(s - {Min(s)}, x); }
  }

  // ----- Facts read off a consistent state -----

  lemma EntriesKnown(st: State, b: nat, pending: int)
    requires Consistent(st, pending) && b < TRIED_BUCKET_COUNT
    ensures b < |st.tried| && (forall x :: x in st.tried[b] ==> x in st.info) && Known(st.info, st.tried[b])
    ensures NoRepeats(st.tried[b])
  {
    hide NoRepeats, NewOk, RandomOk, AddrOk, CountsOk;
    var list := st.tried[b];
    forall i | 0 <= i < |list| ensures list[i] in st.info && list[i] != NONE {
      var x := list[i];
      assert x in st.tried[b];
    }
  }

  lemma BucketEntry(st: State, b: nat, id: int, pending: int)
    requires Consistent(st, pending) && b < NEW_BUCKET_COUNT && id in st.untried[b]
    ensures id in st.info && !st.info[id].inTried && st.info[id].refCount >= 1
    ensures |st.tried| == TRIED_BUCKET_COUNT && |st.untried| == NEW_BUCKET_COUNT
  {
    assert RefCountOk(st.info[id].refCount, st.untried, id, pending);
  }

  lemma BucketKnown(st: State, b: nat, pending: int)
    requires Consistent(st, pending) && b < NEW_BUCKET_COUNT
    ensures b < |st.untried| && forall x :: x in st.untried[b] ==> x in st.info && x >= 0
  {
    forall x | x in st.untried[b] ensures x in st.info && x >= 0 {
      assert x in st.info;
    }
  }

  function BucketsFrom(untried: seq<set<int>>, id: int, from: nat): set<int> {
    set b | from <= b < |untried| && id in untried[b]
  }

  lemma BucketsStep(untried: seq<set<int>>, id: int, from: nat)
    requires from < |untried|
    ensures |BucketsFrom(untried, id, from)|
         == |BucketsFrom(untried, id, from + 1)| + if id in untried[from] then 1 else 0
  {
    var rest := BucketsFrom(untried, id, from + 1);
    if id in untried[from] {
      assert BucketsFrom(untried, id, from) == rest + {from};
    } else {
      assert BucketsFrom(untried, id, from) == rest;
    }
  }

  lemma NoBucketsLeft(untried: seq<set<int>>, id: int)
    ensures |BucketsFrom(untried, id, |untried|)| == 0
  {
    assert BucketsFrom(untried, id, |untried|) == {};
  }

  lemma RefCountIs(st: State, id: int)
    requires Consistent(st, NONE) && id in st.info && !st.info[id].inTried
    ensures st.info[id].refCount == |BucketsFrom(st.untried, id, 0)|
  {
    assert RefCountOk(st.info[id].refCount, st.untried, id, NONE) && id >= 0;
    assert BucketsFrom(st.untried, id, 0) == BucketsOf(st.untried, id);
  }

  lemma InSomeBucket(st: State, id: int)
    requires Consistent(st, NONE) && id in st.info && !st.info[id].inTried
    ensures |st.untried| == NEW_BUCKET_COUNT && exists b :: 0 <= b < |st.untried| && id in st.untried[b]
  {
    assert RefCountOk(st.info[id].refCount, st.untried, id, NONE) && id >= 0;
    var b := PickOne(BucketsOf(st.untried, id));
  }

  function Wrap(m: nat, start: nat, n: nat): (b: nat)
    requires n > 0
    ensures b < n
  {
    (m + start) % n
  }

  lemma WrapIs(m: nat, start: nat, n: nat, b: nat)
    requires b < n && (m + start == b || m + start == b + n)
    ensures Wrap(m, start, n) == b
  {
  }

  /** A walk that starts anywhere and wraps around visits every bucket. */
  lemma RotationCovers(untried: seq<set<int>>, id: int, start: nat)
    requires untried != [] && start < |untried|
    requires forall m :: 0 <= m < |untried| ==> id !in untried[Wrap(m, start, |untried|)]
    ensures forall b :: 0 <= b < |untried| ==> id !in untried[b]
  {
    var n := |untried|;
    forall b | 0 <= b < n ensures id !in untried[b] {
      if b >= start { WrapIs(b - start, start, n, b); } else { WrapIs(b - start + n, start, n, b); }
    }
  }

  class CAddrMan {
    const hashes: Hashes
    var key: seq<Byte>
    var idCount: int
    var info: map<int, AddrInfo>
    var addr: map<NetAddr, int>
    var random: seq<int>
    var nTried: int
    var tried: seq<seq<int>>
    var nNew: int
    var untried: seq<set<int>>

    ghost function View(): State
      reads this
    {
      State(hashes, key, idCount, info, addr, random, nTried, tried, nNew, untried)
    }

    ghost predicate Valid()
      reads this
    {
      Consistent(View(), NONE)
    }

    constructor (hashes: Hashes, key: seq<Byte>)
      ensures Valid() && info == map[] && addr == map[] && this.key == key
    {
      this.hashes, this.key := hashes, key;
      idCount, info, addr, random, nTried, nNew := 0, map[], map[], [], 0, 0;
      tried := seq(TRIED_BUCKET_COUNT, _ => []);
      untried := seq(NEW_BUCKET_COUNT, _ => {});
      new;
      assert TriedIds(info) == {} && NewIds(info) == {};
    }

    /** Id of a known network address. */
    function Find(ip: NetAddr): (r: Option<int>)
      reads this
    {
      if ip in addr && addr[ip] in info then Some(addr[ip]) else None
    }

    /** The bail-out for an address whose id has no entry is never taken. */
    lemma FindIsComplete(ip: NetAddr)
      requires Valid()
      ensures Find(ip).Some? <==> ip in addr
      ensures Find(ip).Some? ==> info[Find(ip).value].ip == ip
    {
    }

    method SwapRandom(i: nat, j: nat, ghost pending: int)
      requires Consistent(View(), pending) && i < |random| && j < |random|
      modifies this`info, this`random
      ensures View() == Swap(old(View()), i, j) && Consistent(View(), pending)
    {
      hide ShapeOk, NewOk, TriedOk, CountsOk, AddrOk;
      SwapKeeps(View(), i, j, pending);
      if i == j { return; }
      var a, b := random[i], random[j];
      assert a in info && b in info;
      info := info[a := info[a].(randomPos := j)];
      info := info[b := info[b].(randomPos := i)];
      random := random[i := b];
      random := random[j := a];
    }

    /** Shuffles the front of a tried bucket by the draws and returns where its oldest entry was drawn from. */
    method SelectTried(b: nat, draws: seq<nat>) returns (pos: nat)
      requires b < |tried| && tried[b] != [] && Known(info, tried[b])
      requires DrawsOk(draws, |tried[b]|) && |draws| == Inspected(|tried[b]|)
      modifies this`tried
      ensures tried == old(tried)[b := Shuffled(old(tried)[b], draws, |draws|)]
      ensures pos == SelectedPos(info, old(tried)[b], draws)
      ensures multiset(tried[b]) == multiset(old(tried)[b]) && pos < |tried[b]| == |old(tried)[b]|
    {
      hide Shuffled, OldestOf;
      var oldest, oldestPos: int := NONE, -1;
      ghost var was := tried[b];
      var list := tried[b];
      NothingShuffled(was, draws);
      var i := 0;
      while i < TRIED_ENTRIES_INSPECT_ON_EVICT && i < |list|
        invariant 0 <= i <= |draws| && tried == old(tried) && |list| == |was|
        invariant list == Shuffled(was, draws, i) && Known(info, list)
        invariant if i == 0 then oldest == NONE
                  else var k := OldestOf(info, list, i); oldest == list[k] && oldestPos == draws[k]
      {
        ShuffleStep(info, was, draws, i);
        var n := draws[i];
        var temp := list[n];
        list := list[n := list[i]];
        list := list[i := temp];
        if oldest == NONE || info[temp].lastSuccess < info[oldest].lastSuccess {
          oldest := temp;
          oldestPos := n;
        }
        i := i + 1;
      }
      ShuffleKeeps(was, draws, |draws|);
      tried := tried[b := list];
      pos := oldestPos;
    }

    /** Takes id out of new bucket b, and out of every index when that was its last bucket. */
    method DropNew(b: nat, id: int, ghost pending: int)
      requires Consistent(View(), pending) && b < NEW_BUCKET_COUNT && id in untried[b] && id != pending
      modifies this
      ensures Consistent(View(), pending) && key == old(key) && idCount == old(idCount)
      ensures untried == old(untried)[b := old(untried)[b] - {id}]
      ensures info.Keys == old(info).Keys || info.Keys == old(info).Keys - {id}
      ensures forall x :: x in old(info) && x != id ==> x in info && SamePlace(old(info)[x], info[x])
      ensures forall x :: x in info ==> SameStatistics(old(info)[x], info[x])
      ensures tried == old(tried)
    {
      hide NewOk, TriedOk, CountsOk, AddrOk, RandomOk;
      ghost var st := View();
      BucketEntry(st, b, id, pending);
      var n := info[id].refCount - 1;
      if n == 0 {
        EraseEntry(b, id, pending);
      } else {
        ReleaseKeeps(st, b, id, pending);
        info := info[id := info[id].(refCount := n)];
        untried := untried[b := untried[b] - {id}];
        assert View() == Release(st, b, id);
      }
    }

    /** Deletes an entry that is in no bucket but b. */
    method EraseEntry(b: nat, id: int, ghost pending: int)
      requires Consistent(View(), pending) && b < NEW_BUCKET_COUNT && id in untried[b] && id != pending
      requires id in info && info[id].refCount == 1
      modifies this
      ensures Consistent(View(), pending) && key == old(key) && idCount == old(idCount) && tried == old(tried)
      ensures untried == old(untried)[b := old(untried)[b] - {id}] && info.Keys == old(info).Keys - {id}
      ensures forall x :: x in info ==> SamePlace(old(info)[x], info[x]) && SameStatistics(old(info)[x], info[x])
    {
      hide NewOk, TriedOk, CountsOk, AddrOk, RandomOk, SamePlace, SameStatistics;
      ghost var st := View();
      EraseKeeps(st, b, id, pending);
      SwapRandom(info[id].randomPos, |random| - 1, pending);
      random := random[..|random| - 1];
      addr := addr - {info[id].ip};
      info := info - {id};
      nNew := nNew - 1;
      untried := untried[b := untried[b] - {id}];
      assert View() == Erase(st, b, id);
    }

    /** Makes room in a new bucket: a terrible entry if there is one, else one of up to four picked at random. */
    method ShrinkNew(b: nat, now: int, draws: seq<nat>, ghost pending: int) returns (code: int, ghost gone: int)
      requires Consistent(View(), pending) && b < NEW_BUCKET_COUNT && untried[b] != {} && pending !in untried[b]
      requires |draws| == 4 && forall i :: 0 <= i < 4 ==> draws[i] < |untried[b]|
      modifies this
      ensures Consistent(View(), pending) && key == old(key) && idCount == old(idCount) && tried == old(tried)
      ensures gone in old(untried)[b] && untried == old(untried)[b := old(untried)[b] - {gone}]
      ensures forall x :: x in old(info) && x != gone ==> x in info && SamePlace(old(info)[x], info[x])
      ensures info.Keys <= old(info).Keys && forall x :: x in info ==> SameStatistics(old(info)[x], info[x])
      ensures code == 0 <==> exists x :: x in old(untried)[b] && x in old(info) && IsTerrible(old(info)[x], now)
      ensures code == 0 || code == 1
      ensures gone in old(info) && (code == 0 ==> IsTerrible(old(info)[gone], now))
      ensures code == 1 ==> IsOldestDrawn(old(info), Sorted(old(untried)[b]), draws, gone)
    {
      hide RandomOk, NewOk, TriedOk, CountsOk, AddrOk, Sorted, IsTerrible, SamePlace, SameStatistics;
      ghost var st := View();
      var ids := Sorted(untried[b]);
      BucketKnown(st, b, pending);
      for k := 0 to |ids|
        invariant View() == st
        invariant forall i :: 0 <= i < k ==> ids[i] in info && !IsTerrible(info[ids[i]], now)
      {
        var id := ids[k];
        assert id in untried[b];
        if IsTerrible(info[id], now) {
          gone := id;
          DropNew(b, id, pending);
          return 0, gone;
        }
      }
      AllMet(untried[b], info, now);
      var oldest := OldestDrawn(b, ids, draws);
      gone := oldest;
      DropNew(b, oldest, pending);
      code := 1;
    }

    /** The second loop of ShrinkNew: the drawn entry with the least time. */
    method OldestDrawn(b: nat, ids: seq<int>, draws: seq<nat>) returns (oldest: int)
      requires b < |untried| && |ids| == |untried[b]| && |draws| == 4 && forall i :: 0 <= i < 4 ==> draws[i] < |ids|
      requires forall i :: 0 <= i < |ids| ==> ids[i] in untried[b] && ids[i] in info && ids[i] != NONE
      ensures oldest in untried[b] && IsOldestDrawn(info, ids, draws, oldest)
    {
      oldest := NONE;
      ghost var at: nat := 0;
      for k := 0 to |ids|
        invariant oldest != NONE ==> at < k && oldest == ids[at] && IsDrawn(draws, at)
        invariant forall i :: 0 <= i < k && IsDrawn(draws, i) ==>
                  oldest != NONE && info[oldest].time <= info[ids[i]].time
      {
        if k == draws[0] || k == draws[1] || k == draws[2] || k == draws[3] {
          if oldest == NONE || info[ids[k]].time < info[oldest].time {
            oldest := ids[k];
            at := k;
          }
        }
      }
      assert IsDrawn(draws, draws[0]);
      assert oldest in untried[b];
    }

    /** Removes id from all new buckets; its reference count drops to zero. */
    method LeaveNewBuckets(id: int)
      requires Valid() && id in info && !info[id].inTried
      modifies this`info, this`untried, this`nNew
      ensures View() == old(View()).(info := old(info)[id := old(info)[id].(refCount := 0)],
                                     untried := Cleared(old(untried), id), nNew := old(nNew) - 1)
    {
      hide RandomOk, TriedOk, CountsOk, AddrOk, NewOk, ShapeOk, IdsOk, BucketsFrom;
      ghost var st := View();
      var count := info[id].refCount;
      RefCountIs(st, id);
      for b := 0 to |untried|
        invariant |untried| == |st.untried|
        invariant forall c :: 0 <= c < |untried| ==> untried[c] == if c < b then st.untried[c] - {id} else st.untried[c]
        invariant count == |BucketsFrom(st.untried, id, b)|
        invariant View() == st.(untried := untried)
      {
        BucketsStep(st.untried, id, b);
        if id in untried[b] {
          untried := untried[b := untried[b] - {id}];
          count := count - 1;
        }
      }
      assert untried == Cleared(st.untried, id);
      NoBucketsLeft(st.untried, id);
      assert count == 0;
      info := info[id := info[id].(refCount := count)];
      nNew := nNew - 1;
    }

    /** Moves an entry from the new buckets to its tried bucket, evicting another one if that is full. */
    method MakeTried(id: int, origin: nat)
      requires Valid() && id in info && origin < NEW_BUCKET_COUNT && id in untried[origin]
      modifies this
      ensures Valid() && info.Keys == old(info).Keys && addr == old(addr) && key == old(key) && random == old(random)
      ensures info[id].inTried && nTried + nNew == old(nTried + nNew)
      ensures forall x :: x in old(info) ==>
                info[x] == old(info)[x].(refCount := info[x].refCount, inTried := info[x].inTried)
      ensures forall x :: x in old(info) && info[x].inTried ==> x == id || old(info)[x].inTried
      ensures Moved(old(View()), View(), id, origin)
    {
      hide RandomOk, NewOk, TriedOk, CountsOk, AddrOk, IdsOk, TriedBucket;
      ghost var st0 := View();
      BucketEntry(st0, origin, id, NONE);
      var b := TriedBucket(hashes, key, info[id]);
      EntriesKnown(st0, b, NONE);
      LeaveNewBuckets(id);
      if |tried[b]| < TRIED_BUCKET_SIZE {
        AppendKeeps(st0, id);
        tried := tried[b := tried[b] + [id]];
        nTried := nTried + 1;
        info := info[id := info[id].(inTried := true)];
        assert View() == AppendTried(st0, id);
        return;
      }
      Evict(id, origin, b, st0);
    }

    /** Puts id, already out of the new buckets, in the place of another tried entry. */
    method Evict(id: int, origin: nat, b: nat, ghost st0: State)
      requires Consistent(st0, NONE) && id in st0.info && !st0.info[id].inTried && origin < NEW_BUCKET_COUNT
      requires id in st0.untried[origin] && b == TriedBucket(hashes, key, st0.info[id]) && st0.tried[b] != []
      requires View() == st0.(info := st0.info[id := st0.info[id].(refCount := 0)],
                              untried := Cleared(st0.untried, id), nNew := st0.nNew - 1)
      modifies this
      ensures Valid() && info.Keys == st0.info.Keys && addr == old(addr) && key == old(key) && random == old(random)
      ensures info[id].inTried && nTried + nNew == st0.nTried + st0.nNew
      ensures forall x :: x in st0.info ==>
                info[x] == st0.info[x].(refCount := info[x].refCount, inTried := info[x].inTried)
      ensures forall x :: x in st0.info && info[x].inTried ==> x == id || st0.info[x].inTried
      ensures exists draws :: Swapped(st0, View(), id, origin, draws)
    {
      hide RandomOk, NewOk, TriedOk, CountsOk, AddrOk, IdsOk, TriedBucket, NewBucket, NoRepeats;
      hide Swapped, ReturnBucket, Cleared, Shuffled, SelectedPos, NoRepeats, Known;
      EntriesKnown(st0, b, NONE);
      var draws := DrawPositions(|tried[b]|);
      KnownStill(st0.info, info, tried[b]);
      var pos := SelectTried(b, draws);
      ghost var st := st0.(tried := tried);
      PermuteKeeps(st0, b, tried[b], NONE);
      EvictedFacts(hashes, key, st.info, tried, b, pos);
      var other := tried[b][pos];
      ClearShape(st.untried, id);
      SameChoice(info, st0.info, id, st0.tried[b], draws);
      var back := NewBucket(hashes, key, info[other], info[other].source);
      ReturnBucketIs(st0, info[other], untried, origin);
      if |untried[back]| >= NEW_BUCKET_SIZE { back := origin; }
      EvictKeeps(st, id, pos, back);
      EvictedState(st0, draws, id, origin, back);
      hide EvictTried;
      Exchange(id, b, pos, back, st);
    }

    /** id takes position pos of tried bucket b; the entry there goes to new bucket back. */
    method Exchange(id: int, b: nat, pos: nat, back: nat, ghost st: State)
      requires id in st.info && !st.info[id].inTried && |st.tried| == TRIED_BUCKET_COUNT && back < |st.untried|
      requires b == TriedBucket(hashes, key, st.info[id]) && pos < |st.tried[b]|
      requires st.tried[b][pos] in st.info && st.info[st.tried[b][pos]].inTried
      requires View() == st.(info := st.info[id := st.info[id].(refCount := 0)],
                             untried := Cleared(st.untried, id), nNew := st.nNew - 1)
      modifies this
      ensures View() == EvictTried(st, id, pos, back)
    {
      hide TriedBucket;
      var other := tried[b][pos];
      info := info[other := info[other].(inTried := false, refCount := 1)];
      untried := untried[back := untried[back] + {other}];
      nNew := nNew + 1;
      tried := tried[b := tried[b][pos := id]];
      info := info[id := info[id].(inTried := true)];
      assert info == st.info[id := AsTried(st.info[id])][other := AsNew(st.info[other])];
    }

    /** Marks an address as good and moves it to the tried table. */
    method Good(ip: NetAddr, port: nat, time: int)
      requires Valid()
      modifies this
      ensures Valid() && info.Keys == old(info).Keys && addr == old(addr) && key == old(key)
      ensures old(ip in addr && info[addr[ip]].port == port) ==>
                info[addr[ip]] == old(info[addr[ip]]).(
                  lastSuccess := time, lastTry := time, time := time, attempts := 0, inTried := true, refCount := 0)
      ensures forall x :: x in info && x in old(info) && info[x].ip != ip ==>
                info[x] == old(info)[x].(refCount := info[x].refCount, inTried := info[x].inTried)
      ensures !old(ip in addr && info[addr[ip]].port == port) ==> View() == old(View())
      ensures old(TimesOk(info)) && time > 0 ==> TimesOk(info)
    {
      hide RandomOk, NewOk, TriedOk, CountsOk, IdsOk;
      var found := Find(ip);
      FindIsComplete(ip);
      if found.None? { return; }
      var id := found.value;
      if info[id].port != port { return; }
      ghost var st := View();
      var updated := info[id].(lastSuccess := time, lastTry := time, time := time, attempts := 0);
      StatisticsDontMatter(st, id, updated, NONE);
      info := info[id := updated];
      assert View() == SetInfo(st, id, updated);
      if info[id].inTried {
        TriedHasNoReferences(View(), id);
        return;
      }
      var bucket := FindNewBucket(id);
      ghost var before := info;
      MakeTried(id, bucket);
      TriedHasNoReferences(View(), id);
      if old(TimesOk(info)) && time > 0 { GoodTimes(before, info, id); }
    }

    /** Some new bucket that holds id; one always exists. */
    method FindNewBucket(id: int) returns (bucket: nat)
      requires Valid() && id in info && !info[id].inTried
      ensures bucket < NEW_BUCKET_COUNT && bucket < |untried| && id in untried[bucket]
    {
      hide RandomOk, TriedOk, CountsOk, IdsOk, AddrOk, NewOk;
      var start: nat := *;
      InSomeBucket(View(), id);
      var rnd := start % |untried|;
      for n := 0 to |untried|
        invariant forall m :: 0 <= m < n ==> id !in untried[Wrap(m, rnd, |untried|)]
      {
        var b := Wrap(n, rnd, |untried|);
        if id in untried[b] { return b; }
      }
      RotationCovers(untried, id, rnd);
      assert false;
    }

    /** Updates time and services of a known entry; go tells whether it may enter one more bucket. */
    method Refresh(id: int, a: Address, penalty: int, now: int, draw: nat) returns (go: bool)
      requires Valid() && id in info
      modifies this`info
      ensures Valid() && info.Keys == old(info).Keys && SamePlaces(old(info), info)
      ensures info == old(info)[id := Refreshed(old(info)[id], a, penalty, now)]
      ensures go <==> MayGain(info[id], a) && draw % Pow2(info[id].refCount) == 0
      ensures go ==> !info[id].inTried && info[id].refCount < NEW_BUCKETS_PER_ADDRESS
      ensures old(TimesOk(info)) ==> TimesOk(info)
    {
      hide RandomOk, NewOk, TriedOk, CountsOk, IdsOk, AddrOk;
      ghost var st := View();
      var online := now - a.time < 24 * 60 * 60;
      var interval := if online then 60 * 60 else 24 * 60 * 60;
      var p := info[id];
      hide OrBits;
      if a.time != 0 && (p.time == 0 || p.time < a.time - interval - penalty) {
        p := p.(time := Max0(a.time - penalty));
      }
      p := p.(services := OrBits(p.services, a.services));
      StatisticsDontMatter(st, id, p, NONE);
      info := info[id := p];
      assert View() == SetInfo(st, id, p);
      go := false;
      if a.time == 0 || (p.time != 0 && a.time <= p.time) { return; }
      if p.inTried { return; }
      CountInRange(View(), id);
      if p.refCount == NEW_BUCKETS_PER_ADDRESS { return; }
      if Pow2(p.refCount) > 1 && draw % Pow2(p.refCount) != 0 { return; }
      go := true;
    }

    /** A new entry, counted as new but not yet in any bucket. */
    method Create(a: Address, source: NetAddr, penalty: int) returns (id: int)
      requires Valid() && a.ip !in addr
      modifies this
      ensures id == old(idCount) && id !in old(info) && key == old(key) && tried == old(tried)
              && untried == old(untried)
      ensures info == old(info)[id := NewInfo(a, source, penalty, |old(random)|)] && addr == old(addr)[a.ip := id]
      ensures Unplaced(View(), id) && forall b :: 0 <= b < |untried| ==> id !in untried[b]
      ensures old(TimesOk(info)) ==> TimesOk(info)
    {
      hide RandomOk, NewOk, TriedOk, CountsOk, AddrOk, ShapeOk, IdsOk;
      ghost var st := View();
      CreateKeeps(st, NewInfo(a, source, penalty, 0));
      IdIsNew(st);
      id := idCount;
      idCount := idCount + 1;
      info := info[id := NewInfo(a, source, 0, NONE)];
      addr := addr[a.ip := id];
      info := info[id := info[id].(randomPos := |random|)];
      random := random + [id];
      info := info[id := info[id].(time := Max0(a.time - penalty))];
      nNew := nNew + 1;
      assert info == st.info[id := NewInfo(a, source, penalty, |st.random|)];
      CreatedIsUnplaced(st, View(), a, source, penalty);
    }

    /** Puts an entry into the bucket its source selects, making room if necessary. */
    method AddToBucket(id: int, source: NetAddr, now: int)
      requires Unplaced(View(), id)
      requires Valid() || forall b :: 0 <= b < |untried| ==> id !in untried[b]
      modifies this
      ensures Valid() && key == old(key) && id in info && SameStatistics(old(info)[id], info[id])
      ensures Placed(old(untried), untried, NewBucket(hashes, key, old(info)[id], source), id)
      ensures info.Keys <= old(info).Keys && forall x :: x in info ==> SameStatistics(old(info)[x], info[x])
      ensures forall x :: x in old(info) && x !in info ==>
                Displaced(old(untried), untried, NewBucket(hashes, key, old(info)[id], source), x)
      ensures tried == old(tried) && idCount == old(idCount)
      ensures old(TimesOk(info)) ==> TimesOk(info)
    {
      hide RandomOk, NewOk, TriedOk, CountsOk, IdsOk, AddrOk, NewBucket;
      hide Placed, TimesOk;
      var b := NewBucket(hashes, key, info[id], source);
      BucketCount(hashes, key, info[id], source, untried);
      PlacedAlready(untried, b, id);
      if id in untried[b] { return; }
      ghost var st := View();
      info := info[id := info[id].(refCount := info[id].refCount + 1)];
      assert View() == Raise(st, id);
      TimesKept(st.info, info);
      PlacedNow(untried, b, id);
      if |untried[b]| == NEW_BUCKET_SIZE { MakeRoom(b, id, now); }
      InsertKeeps(View(), b, id);
      untried := untried[b := untried[b] + {id}];
    }

    /** Drops an entry from a full bucket that id is about to enter. */
    method MakeRoom(b: nat, id: int, now: int)
      requires Consistent(View(), id) && id in info && b < NEW_BUCKET_COUNT && id !in untried[b]
      requires |untried[b]| == NEW_BUCKET_SIZE
      modifies this
      ensures Consistent(View(), id) && key == old(key) && idCount == old(idCount) && tried == old(tried)
      ensures |untried| == NEW_BUCKET_COUNT && |untried[b]| < NEW_BUCKET_SIZE && id !in untried[b]
      ensures Placed(old(untried), untried[b := untried[b] + {id}], b, id)
      ensures id in info && SamePlace(old(info)[id], info[id])
      ensures info.Keys <= old(info).Keys && forall x :: x in info ==> SameStatistics(old(info)[x], info[x])
      ensures forall x :: x in old(info) && x !in info ==> x in old(untried)[b] - untried[b]
      ensures old(TimesOk(info)) ==> TimesOk(info)
    {
      hide RandomOk, NewOk, TriedOk, CountsOk, IdsOk, AddrOk, Placed, TimesOk, SamePlace, SameStatistics, IsTerrible;
      ghost var was, before := untried, info;
      var n0: nat, n1: nat, n2: nat, n3: nat := *, *, *, *;
      var size := |untried[b]|;
      var _, gone := ShrinkNew(b, now, [n0 % size, n1 % size, n2 % size, n3 % size], id);
      TimesKept(before, info);
      PlacedFor(was, b, id, gone);
    }

    /** Adds an address heard about from source. */
    method Add(a: Address, source: NetAddr, penalty: int, now: int, routable: bool) returns (isNew: bool)
      requires Valid()
      modifies this
      ensures Valid() && key == old(key)
      ensures isNew == (routable && a.ip !in old(addr))
      ensures !routable ==> View() == old(View())
      ensures routable ==> a.ip in addr && addr[a.ip] in info
      ensures isNew ==> SameStatistics(NewInfo(a, source, penalty, 0), info[addr[a.ip]])
      ensures isNew ==> InNewBucket(untried, NewBucket(hashes, key, info[addr[a.ip]], source), addr[a.ip])
      ensures routable && !isNew ==>
                && old(addr[a.ip] in info)
                && SameStatistics(Refreshed(old(info[addr[a.ip]]), a, penalty, now), info[addr[a.ip]])
      ensures forall x :: x in old(info) && x !in info ==>
                Displaced(old(untried), untried, NewBucket(hashes, key, info[addr[a.ip]], source), x)
      ensures untried == old(untried)
              || Placed(old(untried), untried, NewBucket(hashes, key, info[addr[a.ip]], source), addr[a.ip])
      ensures tried == old(tried) && forall x :: x in info && x in old(info) && info[x].ip != a.ip ==>
                SameStatistics(old(info)[x], info[x])
      ensures old(TimesOk(info)) ==> TimesOk(info)
    {
      hide RandomOk, NewOk, TriedOk, CountsOk, IdsOk, AddrOk, TimesOk, NewBucket, Refreshed;
      isNew := false;
      if !routable { return; }
      var found := Find(a.ip);
      FindIsComplete(a.ip);
      var id;
      if found.Some? {
        id := found.value;
        var draw: nat := *;
        var go := Refresh(id, a, penalty, now, draw);
        if !go { return; }
        RaiseKeeps(View(), id);
      } else {
        id := Create(a, source, penalty);
        isNew := true;
      }
      ghost var mid := info;
      assert mid[id].ip == a.ip;
      AddToBucket(id, source, now);
      AddressKnown(View(), id);
      BucketByAddress(hashes, key, mid[id], info[id], source);
    }

    /** Notes a connection attempt. */
    method Attempt(ip: NetAddr, port: nat, time: int)
      requires Valid()
      modifies this`info
      ensures Valid() && SamePlaces(old(info), info)
      ensures forall id :: id in info && !(info[id].ip == ip && info[id].port == port) ==> info[id] == old(info)[id]
      ensures forall id :: id in info && info[id].ip == ip && info[id].port == port ==>
                info[id] == old(info)[id].(lastTry := time, attempts := old(info)[id].attempts + 1)
      ensures old(TimesOk(info)) && time >= 0 ==> TimesOk(info)
    {
      hide RandomOk, NewOk, TriedOk, CountsOk, IdsOk;
      var found := Find(ip);
      FindIsComplete(ip);
      if found.None? || info[found.value].port != port { return; }
      var id := found.value;
      var updated := info[id].(lastTry := time, attempts := info[id].attempts + 1);
      StatisticsDontMatter(View(), id, updated, NONE);
      ghost var st := View();
      info := info[id := updated];
      assert View() == SetInfo(st, id, updated);
    }

    /** Refreshes the time stamp of a connected node, at most every twenty minutes. */
    method Connected(ip: NetAddr, port: nat, time: int)
      requires Valid()
      modifies this`info
      ensures Valid() && SamePlaces(old(info), info)
      ensures forall id :: id in info ==>
                var p := old(info)[id];
                info[id] == if p.ip == ip && p.port == port && time - p.time > 20 * 60 then p.(time := time) else p
      ensures old(TimesOk(info)) ==> TimesOk(info)
    {
      hide RandomOk, NewOk, TriedOk, CountsOk, IdsOk;
      var found := Find(ip);
      FindIsComplete(ip);
      if found.None? || info[found.value].port != port { return; }
      var id := found.value;
      if time - info[id].time > 20 * 60 {
        var updated := info[id].(time := time);
        StatisticsDontMatter(View(), id, updated, NONE);
        ghost var st := View();
        info := info[id := updated];
        assert View() == SetInfo(st, id, updated);
      }
    }

    /** A random selection of at most 23 percent of the addresses, and at most 2500, without repeats. */
    method GetAddr() returns (ids: seq<int>)
      requires Valid()
      modifies this`info, this`random
      ensures Valid() && SamePlaces(old(info), info)
      ensures var share := GETADDR_MAX_PCT * |random| / 100;
              |ids| == if share > GETADDR_MAX then GETADDR_MAX else share
      ensures |random| == old(|random|) && forall i :: 0 <= i < |ids| ==> ids[i] in info
      ensures forall i, j :: 0 <= i < j < |ids| ==> ids[i] != ids[j]
    {
      hide NewOk, TriedOk, CountsOk, IdsOk, AddrOk, ShapeOk;
      ids := [];
      var nodes := GETADDR_MAX_PCT * |random| / 100;
      if nodes > GETADDR_MAX { nodes := GETADDR_MAX; }
      for n := 0 to nodes
        invariant Valid() && SamePlaces(old(info), info) && |random| == old(|random|)
        invariant |ids| == n && forall i :: 0 <= i < n ==> ids[i] == random[i]
      {
        var k :| n <= k < |random|;
        ghost var st := View();
        SwapKeeps(st, n, k, NONE);
        SwapRandom(n, k, NONE);
        ids := ids + [random[n]];
      }
      RandomDistinct(info, random);
    }
  }

  lemma AllMet(bucket: set<int>, info: map<int, AddrInfo>, now: int)
    requires forall i :: 0 <= i < |Sorted(bucket)| ==>
              Sorted(bucket)[i] in info && !IsTerrible(info[Sorted(bucket)[i]], now)
    ensures forall x :: x in bucket && x in info ==> !IsTerrible(info[x], now)
  {
    forall x | x in bucket && x in info ensures !IsTerrible(info[x], now) {
      SortedCovers(bucket, x);
      var i :| 0 <= i < |Sorted(bucket)| && Sorted(bucket)[i] == x;
    }
  }

  /** A CAddrInfo for a new address: no statistics, time reduced by the penalty. */
  function NewInfo(a: Address, source: NetAddr, penalty: int, pos: int): AddrInfo {
    AddrInfo(a.ip, a.port, a.services, Max0(a.time - penalty), source, 0, 0, 0, 0, false, pos)
  }

  /** The new bucket an evicted entry returns to: the one of its source if there is room, else id's. */
  function ReturnBucket(st: State, other: AddrInfo, untried: seq<set<int>>, origin: nat): nat {
    var back := NewBucket(st.hashes, st.key, other, other.source);
    if back < |untried| && |untried[back]| < NEW_BUCKET_SIZE then back else origin
  }

  /** After the draws, id took the selected position of its shuffled tried bucket. */
  ghost predicate Swapped(st: State, st': State, id: int, origin: nat, draws: seq<nat>) {
    && id in st.info && |st.tried| == TRIED_BUCKET_COUNT
    && var b := TriedBucket(st.hashes, st.key, st.info[id]);
    && var list := st.tried[b];
    && Known(st.info, list) && DrawsOk(draws, |list|) && draws != [] && |draws| == Inspected(|list|)
    && var shuffled, pos := Shuffled(list, draws, |draws|), SelectedPos(st.info, list, draws);
    && shuffled[pos] in st.info
    && var back := ReturnBucket(st, st.info[shuffled[pos]], Cleared(st.untried, id), origin);
    && back < |st.untried|
    && st' == EvictTried(st.(tried := st.tried[b := shuffled]), id, pos, back)
  }

  /** The entry that gives way is the oldest inspected one exactly when that was drawn from its own place. */
  lemma GivesWay(st: State, st': State, id: int, origin: nat, draws: seq<nat>)
    requires Consistent(st, NONE) && Swapped(st, st', id, origin, draws) && !st.info[id].inTried
    ensures var b := TriedBucket(st.hashes, st.key, st.info[id]);
            var k := OldestInspected(st.info, st.tried[b], draws);
            var oldest := Shuffled(st.tried[b], draws, |draws|)[k];
            oldest in st.info && oldest in st'.info && (!st'.info[oldest].inTried <==> draws[k] == k)
  {
    hide RandomOk, NewOk, CountsOk, AddrOk, IdsOk, ShapeOk, NoRepeats, Shuffled, ReturnBucket, Cleared;
    var b := TriedBucket(st.hashes, st.key, st.info[id]);
    var list, k := st.tried[b], OldestInspected(st.info, st.tried[b], draws);
    ShuffleKeeps(list, draws, |draws|);
    KnownKept(st.info, list, Shuffled(list, draws, |draws|));
    SelectsOldestIff(st.info, list, draws);
    var oldest := Shuffled(list, draws, |draws|)[k];
    assert oldest in multiset(list);
    assert oldest in list;
  }

  lemma KnownStill(info: map<int, AddrInfo>, info': map<int, AddrInfo>, list: seq<int>)
    requires Known(info, list) && info.Keys == info'.Keys
    ensures Known(info', list)
  {
  }

  method DrawPositions(size: nat) returns (draws: seq<nat>)
    requires size > 0
    ensures DrawsOk(draws, size) && |draws| == Inspected(size)
  {
    draws := [];
    while |draws| < Inspected(size)
      invariant |draws| <= Inspected(size) && DrawsOk(draws, size)
    {
      var rnd: nat := *;
      draws := draws + [rnd % (size - |draws|) + |draws|];
    }
  }

  lemma NothingShuffled(list: seq<int>, draws: seq<nat>)
    requires DrawsOk(draws, |list|)
    ensures Shuffled(list, draws, 0) == list
  {
  }

  /** One swap keeps what was inspected before and adds the drawn entry. */
  lemma ShuffleStep(info: map<int, AddrInfo>, list: seq<int>, draws: seq<nat>, i: nat)
    requires DrawsOk(draws, |list|) && i < |draws| && Known(info, Shuffled(list, draws, i))
    ensures var s, t := Shuffled(list, draws, i), Shuffled(list, draws, i + 1);
            && t == s[draws[i] := s[i]][i := s[draws[i]]] && Known(info, t)
            && OldestOf(info, t, i + 1) == (
                 if i == 0 || info[t[i]].lastSuccess < info[t[OldestOf(info, s, i)]].lastSuccess then i
                 else OldestOf(info, s, i))
            && (i > 0 ==> t[OldestOf(info, s, i)] == s[OldestOf(info, s, i)])
  {
    var s, t := Shuffled(list, draws, i), Shuffled(list, draws, i + 1);
    assert t == s[draws[i] := s[i]][i := s[draws[i]]];
    hide Shuffled;
    if i > 0 { OldestFrame(info, s, t, i); }
  }

  /** The choice depends on the last success times only. */
  lemma SameChoice(info: map<int, AddrInfo>, info0: map<int, AddrInfo>, id: int, list: seq<int>, draws: seq<nat>)
    requires id in info0 && info == info0[id := info0[id].(refCount := 0)]
    requires DrawsOk(draws, |list|) && draws != [] && Known(info, list)
    ensures Known(info0, list) && SelectedPos(info, list, draws) == SelectedPos(info0, list, draws)
  {
    var s := Shuffled(list, draws, |draws|);
    ShuffleKeeps(list, draws, |draws|);
    KnownKept(info, list, s);
    SameOldest(info, info0, s, |draws|);
  }

  lemma {:induction false} SameOldest(info: map<int, AddrInfo>, info0: map<int, AddrInfo>, s: seq<int>, n: nat)
    requires 0 < n <= |s| && forall i :: 0 <= i < n ==> s[i] in info && s[i] in info0
    requires forall i :: 0 <= i < n ==> info[s[i]].lastSuccess == info0[s[i]].lastSuccess
    ensures OldestOf(info, s, n) == OldestOf(info0, s, n)
  {
    if n > 1 { SameOldest(info, info0, s, n - 1); }
  }

  predicate IsDrawn(draws: seq<nat>, i: nat) { i in draws }

  /** id is one of the drawn entries, none of which has an earlier time. */
  ghost predicate IsOldestDrawn(info: map<int, AddrInfo>, ids: seq<int>, draws: seq<nat>, id: int) {
    && id in info && (exists i :: 0 <= i < |ids| && IsDrawn(draws, i) && ids[i] == id)
    && forall i :: 0 <= i < |ids| && IsDrawn(draws, i) ==> ids[i] in info && info[id].time <= info[ids[i]].time
  }

  lemma ReturnBucketIs(st: State, other: AddrInfo, untried: seq<set<int>>, origin: nat)
    requires |untried| == NEW_BUCKET_COUNT
    ensures ReturnBucket(st, other, untried, origin)
         == var back := NewBucket(st.hashes, st.key, other, other.source);
            if |untried[back]| < NEW_BUCKET_SIZE then back else origin
  {
  }

  /** What the exchange leaves alone. */
  lemma EvictedState(st: State, draws: seq<nat>, id: int, origin: nat, back: nat)
    requires id in st.info && !st.info[id].inTried && |st.tried| == TRIED_BUCKET_COUNT && back < |st.untried|
    requires var list := st.tried[TriedBucket(st.hashes, st.key, st.info[id])];
             && Known(st.info, list) && DrawsOk(draws, |list|) && draws != [] && |draws| == Inspected(|list|)
             && var x := Shuffled(list, draws, |draws|)[SelectedPos(st.info, list, draws)];
             && x in st.info && st.info[x].inTried
             && back == ReturnBucket(st, st.info[x], Cleared(st.untried, id), origin)
    ensures var b := TriedBucket(st.hashes, st.key, st.info[id]);
            var pos := SelectedPos(st.info, st.tried[b], draws);
            var v := EvictTried(st.(tried := st.tried[b := Shuffled(st.tried[b], draws, |draws|)]), id, pos, back);
            && Swapped(st, v, id, origin, draws)
            && v.info.Keys == st.info.Keys && v.info[id].inTried
            && (forall x :: x in st.info ==>
                  v.info[x] == st.info[x].(refCount := v.info[x].refCount, inTried := v.info[x].inTried))
            && (forall x :: x in st.info && v.info[x].inTried ==> x == id || st.info[x].inTried)
  {
    hide TriedBucket, ReturnBucket, Shuffled, SelectedPos, Known;
  }

  /** id moved to its tried bucket: appended if there was room, else in place of another entry. */
  ghost predicate Moved(st: State, st': State, id: int, origin: nat) {
    && id in st.info && |st.tried| == TRIED_BUCKET_COUNT
    && if |st.tried[TriedBucket(st.hashes, st.key, st.info[id])]| < TRIED_BUCKET_SIZE then st' == AppendTried(st, id)
       else exists draws :: Swapped(st, st', id, origin, draws)
  }

  ghost predicate InNewBucket(untried: seq<set<int>>, b: nat, id: int) { b < |untried| && id in untried[b] }

  /** x was in bucket b and left it. */
  ghost predicate Displaced(before: seq<set<int>>, after: seq<set<int>>, b: nat, x: int) {
    b < |before| == |after| && x in before[b] && x !in after[b]
  }

  /** id is in bucket b; another entry left it only if it was full; no other bucket changed. */
  ghost predicate Placed(before: seq<set<int>>, after: seq<set<int>>, b: nat, id: int) {
    && |before| == |after| && b < |after| && id in after[b]
    && (forall c :: 0 <= c < |after| && c != b ==> after[c] == before[c])
    && after[b] - {id} <= before[b] && |before[b] - after[b]| <= 1
    && (|before[b]| < NEW_BUCKET_SIZE ==> before[b] <= after[b])
  }

  lemma BucketCount(hashes: Hashes, key: seq<Byte>, a: AddrInfo, source: NetAddr, untried: seq<set<int>>)
    ensures NewBucket(hashes, key, a, source) < NEW_BUCKET_COUNT
  {
  }

  lemma PlacedAlready(untried: seq<set<int>>, b: nat, id: int)
    requires b < |untried|
    ensures id in untried[b] ==> Placed(untried, untried, b, id)
  {
    assert untried[b] - untried[b] == {};
  }

  lemma PlacedNow(untried: seq<set<int>>, b: nat, id: int)
    requires b < |untried|
    ensures Placed(untried, untried[b := untried[b] + {id}], b, id)
  {
    assert untried[b] - (untried[b] + {id}) == {};
  }

  lemma PlacedFor(untried: seq<set<int>>, b: nat, id: int, gone: int)
    requires b < |untried| && gone in untried[b] && id !in untried[b] && |untried[b]| >= NEW_BUCKET_SIZE
    ensures var mid := untried[b := untried[b] - {gone}]; Placed(untried, mid[b := mid[b] + {id}], b, id)
  {
    assert untried[b] - (untried[b] - {gone} + {id}) == {gone};
  }

  lemma TriedHasNoReferences(st: State, id: int)
    requires Consistent(st, NONE) && id in st.info && st.info[id].inTried
    ensures st.info[id].refCount == 0
  {
  }

  /** News of a known address that may put it in one more bucket: a newer time, not tried, room for a reference. */
  predicate MayGain(p: AddrInfo, a: Address) {
    a.time != 0 && (p.time == 0 || a.time > p.time) && !p.inTried && p.refCount < NEW_BUCKETS_PER_ADDRESS
  }

  /** A known entry after the address was heard of again: services are joined, an old time is updated. */
  function Refreshed(p: AddrInfo, a: Address, penalty: int, now: int): AddrInfo {
    var interval := if now - a.time < 24 * 60 * 60 then 60 * 60 else 24 * 60 * 60;
    var stale := a.time != 0 && (p.time == 0 || p.time < a.time - interval - penalty);
    p.(time := if stale then Max0(a.time - penalty) else p.time, services := OrBits(p.services, a.services))
  }

  /** Raising id's reference count makes it pending in an otherwise consistent state. */
  ghost predicate Unplaced(st: State, id: int) {
    id in st.info && !st.info[id].inTried && Consistent(Raise(st, id), id)
  }

  lemma IdIsNew(st: State)
    requires Consistent(st, NONE)
    ensures st.idCount !in st.info
  {
  }

  lemma CreatedIsUnplaced(st: State, st': State, a: Address, source: NetAddr, penalty: int)
    requires Consistent(CreateState(st, NewInfo(a, source, penalty, 0)), st.idCount)
    requires st' == st.(idCount := st.idCount + 1,
                        info := st.info[st.idCount := NewInfo(a, source, penalty, |st.random|)],
                        addr := st.addr[a.ip := st.idCount], random := st.random + [st.idCount], nNew := st.nNew + 1)
    ensures Unplaced(st', st.idCount)
  {
    hide Consistent;
    var id := st.idCount;
    assert Raise(st', id).info == CreateState(st, NewInfo(a, source, penalty, 0)).info;
  }

  lemma TimesKept(before: map<int, AddrInfo>, after: map<int, AddrInfo>)
    requires after.Keys <= before.Keys && forall x :: x in after ==> SameStatistics(before[x], after[x])
    ensures TimesOk(before) ==> TimesOk(after)
  {
    if TimesOk(before) {
      forall x | x in after ensures TimeOk(after[x]) {
        assert TimeOk(before[x]) && SameStatistics(before[x], after[x]);
      }
    }
  }

  /** Only the entry marked as good, which now has a success time, can have become tried. */
  lemma GoodTimes(before: map<int, AddrInfo>, after: map<int, AddrInfo>, id: int)
    requires TimesOk(before) && before.Keys == after.Keys && id in before && before[id].lastSuccess != 0
    requires forall x :: x in before ==>
              after[x] == before[x].(refCount := after[x].refCount, inTried := after[x].inTried)
    requires forall x :: x in before && after[x].inTried ==> x == id || before[x].inTried
    ensures TimesOk(after)
  {
    forall x | x in after ensures TimeOk(after[x]) {
      assert TimeOk(before[x]);
    }
  }

  lemma CountInRange(st: State, id: int)
    requires Consistent(st, NONE) && id in st.info && !st.info[id].inTried
    ensures 1 <= st.info[id].refCount <= NEW_BUCKETS_PER_ADDRESS
  {
    assert RefCountOk(st.info[id].refCount, st.untried, id, NONE);
  }

  lemma BucketByAddress(hashes: Hashes, key: seq<Byte>, x: AddrInfo, y: AddrInfo, source: NetAddr)
    requires x.ip == y.ip
    ensures NewBucket(hashes, key, x, source) == NewBucket(hashes, key, y, source)
  {
  }

  lemma AddressKnown(st: State, id: int)
    requires Consistent(st, NONE) && id in st.info
    ensures st.info[id].ip in st.addr && st.addr[st.info[id].ip] == id
  {
  }

  lemma RandomDistinct(info: map<int, AddrInfo>, random: seq<int>)
    requires RandomOk(info, random)
    ensures forall i, j :: 0 <= i < j < |random| ==> random[i] != random[j]
    ensures forall i :: 0 <= i < |random| ==> random[i] in info
  {
  }
}
