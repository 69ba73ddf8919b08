/**
 * The two halves of the address manager's serialisation body as the loops
 * they are, against FileOf and Loaded.  Source: src/addrman.h, IMPLEMENT_SERIALIZE.
 */
module AddrStream {
  import opened Bytes
  import opened AddrTables
  import opened AddrMan
  import opened AddrCheck
  import opened AddrFile

  // ----- Writing -----

  /** The ids of one kind, in list order. */
  function Kind(info: map<int, AddrInfo>, ids: seq<int>, inTried: bool): (r: seq<int>)
    requires forall i :: 0 <= i < |ids| ==> ids[i] in info
    ensures forall i :: 0 <= i < |r| ==> r[i] in ids && r[i] in info
  {
    if ids == [] then []
    else
      var n := |ids| - 1;
      Kind(info, ids[..n], inTried) + (if info[ids[n]].inTried == inTried then [ids[n]] else [])
  }

  function KindSet(info: map<int, AddrInfo>,
                   inTried: bool): set<int> { if inTried then TriedIds(info) else NewIds(info) }

  ghost predicate Increasing(list: seq<int>) { forall i, j :: 0 <= i < j < |list| ==> list[i] < list[j] }

  lemma {:induction false} StrictIsSorted(list: seq<int>, s: set<int>)
    requires Increasing(list)
    requires forall x :: x in list <==> x in s
    ensures list == Sorted(s)
    decreases |list|
  {
    hide Sorted, Min;
    SortedStep(s);
    if list == [] {
      assert s == {};
    } else {
      var first, rest := list[0], list[1..];
      assert list == [first] + rest;
      assert first in list;
      FirstIsMin(list, s);
      forall i | 0 <= i < |rest| ensures rest[i] > first {}
      forall x ensures x in rest <==> x in s - {first} {}
      StrictIsSorted(rest, s - {first});
    }
  }

  lemma SortedStep(s: set<int>)
    ensures s == {} ==> Sorted(s) == []
    ensures s != {} ==> Sorted(s) == [Min(s)] + Sorted(s - {Min(s)})
  {
  }

  lemma FirstIsMin(list: seq<int>, s: set<int>)
    requires Increasing(list) && list != [] && s != {} && forall x :: x in list <==> x in s
    ensures Min(s) == list[0]
  {
    hide Min;
    var m := Min(s);
    assert m in list;
    var k :| 0 <= k < |list| && list[k] == m;
    var first := list[0];
    assert first in list;
    assert k > 0 ==> first < m;
  }

  lemma {:induction false} KindFacts(info: map<int, AddrInfo>, ids: seq<int>, inTried: bool)
    requires forall i :: 0 <= i < |ids| ==> ids[i] in info
    requires Increasing(ids)
    ensures forall x :: x in Kind(info, ids, inTried) <==> x in ids && info[x].inTried == inTried
    ensures Increasing(Kind(info, ids, inTried))
    decreases |ids|
  {
    if ids != [] {
      var n := |ids| - 1;
      var init, last := ids[..n], ids[n];
      KindFacts(info, init, inTried);
      var prev := Kind(info, init, inTried);
      forall i | 0 <= i < |prev| ensures prev[i] < last {
        assert prev[i] in init;
        var k :| 0 <= k < n && init[k] == prev[i];
        assert ids[k] < ids[n];
      }
      assert Increasing(prev + [last]);
      assert ids == init + [last];
      assert Kind(info, ids, inTried) == prev + (if info[last].inTried == inTried then [last] else []);
      hide Kind, Increasing;
    }
  }

  lemma {:induction false} KindPrefix(info: map<int, AddrInfo>, ids: seq<int>, k: nat, inTried: bool)
    requires k <= |ids| && forall i :: 0 <= i < |ids| ==> ids[i] in info
    ensures Kind(info, ids[..k], inTried) <= Kind(info, ids, inTried)
    decreases |ids|
  {
    var n := |ids| - 1;
    if k == |ids| {
      assert ids[..k] == ids;
    } else {
      KindPrefix(info, ids[..n], k, inTried);
      assert ids[..n][..k] == ids[..k];
    }
  }

  /** Walking the ids in order meets the ids of one kind in sorted order. */
  lemma KindIsSorted(info: map<int, AddrInfo>, inTried: bool)
    ensures Kind(info, Sorted(info.Keys), inTried) == Sorted(KindSet(info, inTried))
  {
    hide Sorted, Kind;
    var ids := Sorted(info.Keys);
    SortedOrder(info.Keys);
    KindFacts(info, ids, inTried);
    forall x | x in info ensures x in ids { SortedCovers(info.Keys, x); }
    StrictIsSorted(Kind(info, ids, inTried), KindSet(info, inTried));
  }

  /** The number of new ids met before an id is its rank among them. */
  lemma KindCountsRank(info: map<int, AddrInfo>, k: nat)
    requires k < |info.Keys|
    ensures |Kind(info, Sorted(info.Keys)[..k], false)| == Rank(NewIds(info), Sorted(info.Keys)[k])
  {
    hide Sorted, Kind;
    var ids := Sorted(info.Keys);
    SortedOrder(info.Keys);
    var front := ids[..k];
    KindFacts(info, front, false);
    var below := set x | x in NewIds(info) && x < ids[k];
    forall x ensures x in Kind(info, front, false) <==> x in below {
      if x in below {
        SortedCovers(info.Keys, x);
        var i :| 0 <= i < |ids| && ids[i] == x;
        assert front[i] == x;
      }
      if x in front { var i :| 0 <= i < |front| && front[i] == x; assert ids[i] == x; }
    }
    StrictIsSorted(Kind(info, front, false), below);
  }

  lemma KindStep(info: map<int, AddrInfo>, ids: seq<int>, k: nat, inTried: bool)
    requires k < |ids| && forall i :: 0 <= i < |ids| ==> ids[i] in info
    ensures Kind(info, ids[..k + 1], inTried)
         == Kind(info, ids[..k], inTried) + (if info[ids[k]].inTried == inTried then [ids[k]] else [])
  {
    assert ids[..k + 1][..k] == ids[..k];
  }

  lemma NewHasReferences(st: State, id: int)
    requires Consistent(st, NONE) && id in st.info
    ensures st.info[id].refCount != 0 <==> !st.info[id].inTried
    ensures st.nNew == |NewIds(st.info)| && st.nTried == |TriedIds(st.info)|
  {
    if !st.info[id].inTried { CountInRange(st, id); }
  }

  lemma CountsAre(st: State)
    requires Consistent(st, NONE)
    ensures st.nNew == |NewIds(st.info)| && st.nTried == |TriedIds(st.info)|
  {
  }

  /** First loop: entries with references, and the index of every new id. */
  method WriteNew(am: CAddrMan) returns (entries: seq<Saved>, unkIds: map<int, int>)
    requires am.Valid()
    ensures entries == SaveList(am.info, Sorted(NewIds(am.info)))
    ensures forall id :: id in NewIds(am.info) ==> id in unkIds && unkIds[id] == Rank(NewIds(am.info), id)
  {
    hide Consistent, Sorted, Kind, Rank;
    entries, unkIds := [], map[];
    var ids, nIds, k := Sorted(am.info.Keys), 0, 0;
    ghost var done: seq<int> := [];
    assert ids[..0] == [] && Kind(am.info, [], false) == [] by { KindNone(am.info, false); }
    KindIsSorted(am.info, false);
    CountsAre(am.View());
    while k < |ids|
      invariant 0 <= k <= |ids|
      invariant done == Kind(am.info, ids[..k], false) && nIds == |done|
      invariant entries == SaveList(am.info, done)
      invariant forall i :: 0 <= i < k ==> ids[i] in unkIds && unkIds[ids[i]] == Rank(NewIds(am.info), ids[i])
    {
      if nIds == am.nNew { break; }
      KindCountsRank(am.info, k);
      SortedIncreases(am.info.Keys, k);
      unkIds := unkIds[ids[k] := nIds];
      KindStep(am.info, ids, k, false);
      NewHasReferences(am.View(), ids[k]);
      if am.info[ids[k]].refCount != 0 {
        entries, nIds := entries + [Save(am.info[ids[k]])], nIds + 1;
        done := done + [ids[k]];
      }
      k := k + 1;
    }
    KindPrefix(am.info, ids, k, false);
    assert k == |ids| ==> ids[..k] == ids;
    assert done == Sorted(NewIds(am.info));
    NewIdsMet(am.info, k);
  }

  lemma KindNone(info: map<int, AddrInfo>, inTried: bool)
    ensures Kind(info, [], inTried) == []
  {
  }

  lemma SortedIncreases(s: set<int>, k: nat)
    requires k < |s|
    ensures forall i :: 0 <= i < k ==> Sorted(s)[i] < Sorted(s)[k]
  {
    SortedOrder(s);
  }

  /** When all new ids are written, each has been met. */
  lemma NewIdsMet(info: map<int, AddrInfo>, k: nat)
    requires k <= |info.Keys| && Kind(info, Sorted(info.Keys)[..k], false) == Sorted(NewIds(info))
    ensures forall id :: id in NewIds(info) ==> id in Sorted(info.Keys)[..k]
  {
    hide Kind, Sorted;
    forall id | id in NewIds(info) ensures id in Sorted(info.Keys)[..k] {
      SortedCovers(NewIds(info), id);
      var i :| 0 <= i < |Sorted(NewIds(info))| && Sorted(NewIds(info))[i] == id;
    }
  }

  /** Second loop: the tried entries. */
  method WriteTried(am: CAddrMan) returns (entries: seq<Saved>)
    requires am.Valid()
    ensures entries == SaveList(am.info, Sorted(TriedIds(am.info)))
  {
    hide Consistent, Sorted, Kind;
    entries := [];
    var ids, nIds, k := Sorted(am.info.Keys), 0, 0;
    ghost var done: seq<int> := [];
    assert ids[..0] == [] && Kind(am.info, [], true) == [] by { KindNone(am.info, true); }
    KindIsSorted(am.info, true);
    CountsAre(am.View());
    while k < |ids|
      invariant 0 <= k <= |ids|
      invariant done == Kind(am.info, ids[..k], true) && nIds == |done|
      invariant entries == SaveList(am.info, done)
    {
      if nIds == am.nTried { break; }
      KindStep(am.info, ids, k, true);
      if am.info[ids[k]].inTried {
        entries, nIds := entries + [Save(am.info[ids[k]])], nIds + 1;
        done := done + [ids[k]];
      }
      k := k + 1;
    }
    KindPrefix(am.info, ids, k, true);
    assert k == |ids| ==> ids[..k] == ids;
    assert done == Sorted(TriedIds(am.info));
  }

  /** One new bucket: the index of each of its ids. */
  method WriteBucket(bucket: set<int>, ghost news: set<int>, unkIds: map<int, int>) returns (indexes: seq<int>)
    requires forall id :: id in bucket ==> id in unkIds && unkIds[id] == Rank(news, id)
    ensures indexes == RankList(news, Sorted(bucket))
  {
    hide Sorted, Rank;
    var ids, k := Sorted(bucket), 0;
    assert forall i :: 0 <= i < |ids| ==> ids[i] in bucket;
    indexes := [];
    while k < |ids|
      invariant 0 <= k <= |ids| && |indexes| == k
      invariant forall i :: 0 <= i < k ==> indexes[i] == Rank(news, ids[i])
    {
      var id := ids[k];
      assert id in bucket;
      indexes := indexes + [unkIds[id]];
      k := k + 1;
    }
  }

  method Serialize(am: CAddrMan) returns (f: File)
    requires am.Valid()
    ensures f == FileOf(am.View())
  {
    hide Sorted, Rank, RandomOk, AddrOk, TriedOk, IdsOk, CountsOk, RefCountOk;
    var entries, unkIds := WriteNew(am);
    var triedEntries := WriteTried(am);
    var buckets, b := [], 0;
    while b < |am.untried|
      invariant 0 <= b <= |am.untried| && |buckets| == b
      invariant forall c :: 0 <= c < b ==> buckets[c] == RankList(NewIds(am.info), Sorted(am.untried[c]))
    {
      var indexes := WriteBucket(am.untried[b], NewIds(am.info), unkIds);
      buckets, b := buckets + [indexes], b + 1;
    }
    f := File(am.key, am.nNew, am.nTried, entries, triedEntries, buckets);
  }

  // ----- Reading -----

  /** A file as its own counts describe it. */
  ghost predicate Framed(f: File) { |f.entries| == f.nNew && |f.triedEntries| == f.nTried }

  function NewEntry(f: File, i: nat): AddrInfo
    requires i < |f.entries|
  {
    Load(f.entries[i]).(refCount := if SameCount(f) then 0 else 1, randomPos := i)
  }

  function TriedEntry(f: File, i: nat): AddrInfo
    requires |f.entries| <= i < Count(f)
  {
    Load(EntryAt(f, i)).(inTried := true, randomPos := i)
  }

  /** Entries below k, before the new buckets are read. */
  function EntriesUpTo(f: File, k: nat): map<int, AddrInfo>
    requires k <= Count(f)
  {
    map i | 0 <= i < k :: if i < |f.entries| then NewEntry(f, i) else TriedEntry(f, i)
  }

  lemma NewUpToStep(hashes: Hashes, f: File, k: nat)
    requires k < |f.entries|
    ensures SameCount(f) ==> NewUpTo(hashes, f, k + 1) == NewUpTo(hashes, f, k)
    ensures var b, u := SourceBucket(hashes, f, k), NewUpTo(hashes, f, k);
            !SameCount(f) ==> NewUpTo(hashes, f, k + 1) == u[b := u[b] + {k}]
  {
    var b, u := SourceBucket(hashes, f, k), NewUpTo(hashes, f, k);
    forall c | 0 <= c < NEW_BUCKET_COUNT && !SameCount(f)
      ensures NewUpTo(hashes, f, k + 1)[c] == if c == b then u[c] + {k} else u[c]
    {
    }
  }

  function Count0(n: nat): seq<int> { seq(n, i => i) }

  /** New buckets after the first k entries. */
  function NewUpTo(hashes: Hashes, f: File, k: nat): (r: seq<set<int>>)
    requires k <= |f.entries|
    ensures |r| == NEW_BUCKET_COUNT
  {
    seq(NEW_BUCKET_COUNT, b requires 0 <= b => if SameCount(f) then {} else Rehashed(hashes, f, b, k))
  }

  method ReadNew(am: CAddrMan, f: File)
    requires Framed(f) && am.key == f.key
    modifies am
    ensures am.key == f.key && am.idCount == f.nNew && am.nNew == old(am.nNew) && am.nTried == old(am.nTried)
    ensures am.info == EntriesUpTo(f, f.nNew) && am.addr == AddrUpTo(f, f.nNew) && am.random == Count0(f.nNew)
    ensures am.tried == seq(TRIED_BUCKET_COUNT, _ => []) && am.untried == NewUpTo(am.hashes, f, f.nNew)
  {
    hide Rehashed, SourceBucket, NewEntry, TriedEntry, NewUpTo, EntriesUpTo;
    am.idCount, am.info, am.addr, am.random := 0, map[], map[], [];
    am.tried := seq(TRIED_BUCKET_COUNT, _ => []);
    am.untried := seq(NEW_BUCKET_COUNT, _ => {});
    NoEntries(am.hashes, f);
    var n := 0;
    while n < f.nNew
      invariant 0 <= n <= f.nNew && am.key == f.key && am.nNew == old(am.nNew) && am.nTried == old(am.nTried)
      invariant am.info == EntriesUpTo(f, n) && am.addr == AddrUpTo(f, n) && am.random == Count0(n)
      invariant am.tried == seq(TRIED_BUCKET_COUNT, _ => []) && am.untried == NewUpTo(am.hashes, f, n)
    {
      NewUpToStep(am.hashes, f, n);
      NewEntriesStep(am.hashes, f, n);
      var a := Load(f.entries[n]);
      am.addr := am.addr[a.ip := n];
      a := a.(randomPos := |am.random|);
      am.random := am.random + [n];
      if |f.buckets| != NEW_BUCKET_COUNT {
        var b := NewBucket(am.hashes, am.key, a, a.source);
        am.untried := am.untried[b := am.untried[b] + {n}];
        a := a.(refCount := a.refCount + 1);
      }
      am.info := am.info[n := a];
      n := n + 1;
    }
    am.idCount := f.nNew;
  }

  lemma NoEntries(hashes: Hashes, f: File)
    ensures NewUpTo(hashes, f, 0) == seq(NEW_BUCKET_COUNT, _ => {}) && EntriesUpTo(f, 0) == map[]
  {
    forall b: nat | b < NEW_BUCKET_COUNT ensures Rehashed(hashes, f, b, 0) == {} {}
  }

  lemma NewEntriesStep(hashes: Hashes, f: File, k: nat)
    requires k < |f.entries|
    ensures EntriesUpTo(f, k + 1) == EntriesUpTo(f, k)[k := NewEntry(f, k)]
    ensures NewEntry(f, k) == Load(f.entries[k]).(randomPos := k, refCount := if SameCount(f) then 0 else 1)
    ensures forall pos: int :: SourceBucket(hashes, f, k)
                               == NewBucket(hashes, f.key, Load(f.entries[k]).(randomPos := pos), f.entries[k].source)
  {
  }

  /** Tried bucket lists only grow, so a file without overfull buckets loses nothing on the way. */
  lemma {:induction false} TriedGrows(hashes: Hashes, f: File, b: nat, k: nat, n: nat)
    requires |f.entries| <= k <= n <= Count(f)
    ensures |TriedUpTo(hashes, f, b, k)| <= |TriedUpTo(hashes, f, b, n)|
    decreases n
  {
    hide SavedBucket;
    if k < n { TriedGrows(hashes, f, b, k, n - 1); }
  }

  function AllTried(hashes: Hashes, f: File, k: nat): (r: seq<seq<int>>)
    requires |f.entries| <= k <= Count(f)
    ensures |r| == TRIED_BUCKET_COUNT
  {
    seq(TRIED_BUCKET_COUNT, b requires 0 <= b => TriedUpTo(hashes, f, b, k))
  }

  /** Reading entry k appends it to its bucket, which has room. */
  lemma TriedStep(hashes: Hashes, f: File, k: nat)
    requires GoodFile(hashes, f) && |f.entries| <= k < Count(f)
    ensures var b, t := SavedBucket(hashes, f, k), AllTried(hashes, f, k);
            b < TRIED_BUCKET_COUNT && |t[b]| < TRIED_BUCKET_SIZE && AllTried(hashes, f, k + 1) == t[b := t[b] + [k]]
  {
    var b := SavedBucket(hashes, f, k);
    TriedGrows(hashes, f, b, k + 1, Count(f));
    var t := AllTried(hashes, f, k);
    var t' := t[b := t[b] + [k]];
    forall c | 0 <= c < TRIED_BUCKET_COUNT ensures AllTried(hashes, f, k + 1)[c] == t'[c] {}
  }

  lemma EntriesStep(f: File, k: nat)
    requires |f.entries| <= k < Count(f)
    ensures EntriesUpTo(f, k + 1) == EntriesUpTo(f, k)[k := TriedEntry(f, k)]
    ensures Count0(k + 1) == Count0(k) + [k] && |Count0(k)| == k
    ensures TriedEntry(f, k) == Load(f.triedEntries[k - |f.entries|]).(randomPos := k, inTried := true)
    ensures AddrUpTo(f, k + 1) == AddrUpTo(f, k)[TriedEntry(f, k).ip := k]
  {
  }

  /** The state after k entries, when none was lost. */
  ghost predicate AfterEntries(am: CAddrMan, f: File, k: nat)
    requires |f.entries| <= k <= Count(f)
    reads am
  {
    && am.key == f.key && am.idCount == k
    && am.info == EntriesUpTo(f, k) && am.addr == AddrUpTo(f, k) && am.random == Count0(k)
    && am.tried == AllTried(am.hashes, f, k) && am.untried == NewUpTo(am.hashes, f, |f.entries|)
  }

  method ReadTried(am: CAddrMan, f: File) returns (nLost: nat)
    requires Framed(f) && AfterEntries(am, f, f.nNew)
    modifies am
    ensures GoodFile(am.hashes, f) ==> nLost == 0 && AfterEntries(am, f, Count(f))
    ensures am.nTried == old(am.nTried) && am.nNew == old(am.nNew) && am.key == f.key && am.untried == old(am.untried)
  {
    hide GoodFile, AllTried, NewUpTo, SavedBucket, EntriesUpTo, Count0, AddrUpTo, TriedEntry;
    nLost := 0;
    var n := 0;
    while n < f.nTried
      invariant 0 <= n <= f.nTried && am.key == f.key && |am.tried| == TRIED_BUCKET_COUNT
      invariant GoodFile(am.hashes, f) ==> nLost == 0 && AfterEntries(am, f, f.nNew + n)
      invariant am.nTried == old(am.nTried) && am.nNew == old(am.nNew) && am.untried == old(am.untried)
    {
      var a := Load(f.triedEntries[n]);
      var b := TriedBucket(am.hashes, am.key, a);
      TriedAt(am.hashes, f, f.nNew + n);
      EntriesStep(f, f.nNew + n);
      if GoodFile(am.hashes, f) { TriedStep(am.hashes, f, f.nNew + n); }
      if |am.tried[b]| < TRIED_BUCKET_SIZE {
        a := a.(randomPos := |am.random|, inTried := true);
        am.random := am.random + [am.idCount];
        am.info := am.info[am.idCount := a];
        am.addr := am.addr[a.ip := am.idCount];
        am.tried := am.tried[b := am.tried[b] + [am.idCount]];
        am.idCount := am.idCount + 1;
      } else {
        nLost := nLost + 1;
      }
      n := n + 1;
    }
  }

  lemma TriedAt(hashes: Hashes, f: File, k: nat)
    requires |f.entries| <= k < Count(f)
    ensures SavedBucket(hashes, f, k) == TriedBucket(hashes, f.key, Load(f.triedEntries[k - |f.entries|]))
  {
  }

  // ----- Reading the new buckets -----

  /** The buckets read so far that name i: all below b, and b if among its first n indexes. */
  function Met(f: File, b: nat, n: nat, i: int): set<int>
    requires b < |f.buckets| ==> n <= |f.buckets[b]|
  {
    (set c | 0 <= c < b && c < |f.buckets| && i in f.buckets[c])
    + if b < |f.buckets| && i in f.buckets[b][..n] then {b} else {}
  }

  function InfoAt(f: File, b: nat, n: nat): (r: map<int, AddrInfo>)
    requires b < |f.buckets| ==> n <= |f.buckets[b]|
    ensures forall i :: i in r <==> 0 <= i < Count(f)
  {
    map i | 0 <= i < Count(f) ::
      if i < |f.entries| then
        if SameCount(f) then NewEntry(f, i).(refCount := |Met(f, b, n, i)|) else NewEntry(f, i)
      else TriedEntry(f, i)
  }

  function NewAt(hashes: Hashes, f: File, b: nat, n: nat): seq<set<int>>
    requires b < |f.buckets| ==> n <= |f.buckets[b]|
  {
    seq(NEW_BUCKET_COUNT, c requires 0 <= c < NEW_BUCKET_COUNT =>
      if !SameCount(f) then Rehashed(hashes, f, c, |f.entries|)
      else if c < b then BucketAt(f, c)
      else if c == b then set x | x in f.buckets[b][..n] else {})
  }

  lemma MetStep(hashes: Hashes, f: File, b: nat, n: nat, i: int)
    requires GoodFile(hashes, f) && b < |f.buckets| && n < |f.buckets[b]|
    ensures i == f.buckets[b][n] ==>
              |Met(f, b, n + 1, i)| == |Met(f, b, n, i)| + 1 && |Met(f, b, n, i)| < NEW_BUCKETS_PER_ADDRESS
    ensures i != f.buckets[b][n] ==> Met(f, b, n + 1, i) == Met(f, b, n, i)
  {
    var list := f.buckets[b];
    assert list[..n + 1] == list[..n] + [list[n]];
    GoodIndex(hashes, f, b, n);
    hide GoodFile;
    if i == list[n] {
      assert Met(f, b, n + 1, i) == Met(f, b, n, i) + {b};
      assert Met(f, b, n + 1, i) <= RefBuckets(f, i);
      SubsetSize(Met(f, b, n + 1, i), RefBuckets(f, i));
    }
  }

  lemma GoodIndex(hashes: Hashes, f: File, b: nat, n: nat)
    requires GoodFile(hashes, f) && b < |f.buckets| && n < |f.buckets[b]|
    ensures f.buckets[b][n] !in f.buckets[b][..n] && |RefBuckets(f, f.buckets[b][n])| <= NEW_BUCKETS_PER_ADDRESS
  {
    hide TriedUpTo, RefBuckets;
    assert 0 <= f.buckets[b][n] < |f.entries|;
  }

  lemma SubsetSize(a: set<int>, b: set<int>)
    requires a <= b
    ensures |a| <= |b|
  {
    assert b == a + (b - a);
  }

  lemma InfoStep(hashes: Hashes, f: File, b: nat, n: nat)
    requires GoodFile(hashes, f) && SameCount(f) && b < |f.buckets| && n < |f.buckets[b]|
    ensures var i, info := f.buckets[b][n], InfoAt(f, b, n);
            && i in info && info[i].refCount < NEW_BUCKETS_PER_ADDRESS
            && InfoAt(f, b, n + 1) == info[i := info[i].(refCount := info[i].refCount + 1)]
  {
    hide Met, NewEntry, TriedEntry;
    BucketRange(hashes, f, b, n);
    hide GoodFile;
    forall j | 0 <= j < |f.entries|
      ensures j != f.buckets[b][n] ==> Met(f, b, n + 1, j) == Met(f, b, n, j)
    {
      MetStep(hashes, f, b, n, j);
    }
    MetStep(hashes, f, b, n, f.buckets[b][n]);
  }

  lemma BucketRange(hashes: Hashes, f: File, b: nat, n: nat)
    requires GoodFile(hashes, f) && b < |f.buckets| && n < |f.buckets[b]|
    ensures 0 <= f.buckets[b][n] < |f.entries|
  {
  }

  lemma NewStep(hashes: Hashes, f: File, b: nat, n: nat)
    requires SameCount(f) && b < |f.buckets| && n < |f.buckets[b]|
    ensures var i, u := f.buckets[b][n], NewAt(hashes, f, b, n); NewAt(hashes, f, b, n + 1) == u[b := u[b] + {i}]
  {
    var list, u := f.buckets[b], NewAt(hashes, f, b, n);
    assert list[..n + 1] == list[..n] + [list[n]];
    var u' := u[b := u[b] + {list[n]}];
    forall c | 0 <= c < NEW_BUCKET_COUNT ensures NewAt(hashes, f, b, n + 1)[c] == u'[c] {}
  }

  /** Finishing bucket b is starting bucket b + 1. */
  lemma BucketDone(hashes: Hashes, f: File, b: nat)
    requires b < |f.buckets|
    ensures InfoAt(f, b, |f.buckets[b]|) == InfoAt(f, b + 1, 0)
    ensures NewAt(hashes, f, b, |f.buckets[b]|) == NewAt(hashes, f, b + 1, 0)
  {
    var list := f.buckets[b];
    assert list[..|list|] == list;
    forall i ensures Met(f, b, |list|, i) == Met(f, b + 1, 0, i) {}
    forall c | 0 <= c < NEW_BUCKET_COUNT ensures NewAt(hashes, f, b, |list|)[c] == NewAt(hashes, f, b + 1, 0)[c] {}
  }

  /** CAddrInfo(): what indexing mapInfo with a missing id inserts. */
  const BlankInfo := AddrInfo(0, 0, 1, 100000000, 0, 0, 0, 0, 0, false, NONE)

  method ReadBucket(am: CAddrMan, f: File, b: nat)
    requires b < |f.buckets| && (SameCount(f) ==> |am.untried| == NEW_BUCKET_COUNT)
    modifies am`info, am`untried
    ensures |am.untried| == old(|am.untried|)
    ensures GoodFile(am.hashes, f) && old(am.info == InfoAt(f, b, 0) && am.untried == NewAt(am.hashes, f, b, 0)) ==>
              am.info == InfoAt(f, b + 1, 0) && am.untried == NewAt(am.hashes, f, b + 1, 0)
  {
    hide GoodFile, InfoAt, NewAt;
    ghost var good := GoodFile(am.hashes, f) && am.info == InfoAt(f, b, 0) && am.untried == NewAt(am.hashes, f, b, 0);
    var n := 0;
    while n < |f.buckets[b]|
      invariant 0 <= n <= |f.buckets[b]| && |am.untried| == old(|am.untried|)
      invariant good ==> am.info == InfoAt(f, b, n) && am.untried == NewAt(am.hashes, f, b, n)
    {
      var i := f.buckets[b][n];
      if good { ReadStep(am.hashes, f, b, n); }
      if i !in am.info { am.info := am.info[i := BlankInfo]; }
      if |f.buckets| == NEW_BUCKET_COUNT && am.info[i].refCount < NEW_BUCKETS_PER_ADDRESS {
        am.info := am.info[i := am.info[i].(refCount := am.info[i].refCount + 1)];
        am.untried := am.untried[b := am.untried[b] + {i}];
      }
      n := n + 1;
    }
    BucketDone(am.hashes, f, b);
  }

  lemma ReadStep(hashes: Hashes, f: File, b: nat, n: nat)
    requires GoodFile(hashes, f) && b < |f.buckets| && n < |f.buckets[b]|
    ensures f.buckets[b][n] in InfoAt(f, b, n)
    ensures !SameCount(f) ==>
              InfoAt(f, b, n + 1) == InfoAt(f, b, n) && NewAt(hashes, f, b, n + 1) == NewAt(hashes, f, b, n)
    ensures var i, info, u := f.buckets[b][n], InfoAt(f, b, n), NewAt(hashes, f, b, n);
            SameCount(f) ==>
              && info[i].refCount < NEW_BUCKETS_PER_ADDRESS
              && InfoAt(f, b, n + 1) == info[i := info[i].(refCount := info[i].refCount + 1)]
              && NewAt(hashes, f, b, n + 1) == u[b := u[b] + {i}]
  {
    BucketRange(hashes, f, b, n);
    hide GoodFile, Met;
    var i := f.buckets[b][n];
    assert i in InfoAt(f, b, n);
    hide NewEntry, TriedEntry;
    if SameCount(f) {
      InfoStep(hashes, f, b, n);
      NewStep(hashes, f, b, n);
    } else {
      assert NewAt(hashes, f, b, n + 1) == NewAt(hashes, f, b, n);
      assert InfoAt(f, b, n + 1) == InfoAt(f, b, n);
    }
  }

  lemma BucketsStart(hashes: Hashes, f: File)
    ensures InfoAt(f, 0, 0) == EntriesUpTo(f, Count(f)) && NewAt(hashes, f, 0, 0) == NewUpTo(hashes, f, |f.entries|)
  {
    hide EntryAt;
    forall i ensures Met(f, 0, 0, i) == {} {}
    forall c | 0 <= c < NEW_BUCKET_COUNT ensures NewAt(hashes, f, 0, 0)[c] == NewUpTo(hashes, f, |f.entries|)[c] {}
  }

  lemma BucketsEnd(hashes: Hashes, f: File)
    ensures InfoAt(f, |f.buckets|, 0) == Loaded(hashes, f).info
            && NewAt(hashes, f, |f.buckets|, 0) == Loaded(hashes, f).untried
  {
    hide AddrUpTo, TriedUpTo;
    forall i ensures Met(f, |f.buckets|, 0, i) == RefBuckets(f, i) {}
    var info, info' := InfoAt(f, |f.buckets|, 0), Loaded(hashes, f).info;
    forall i | i in info ensures i in info' && info[i] == info'[i] {}
    assert info == info';
    forall c | 0 <= c < NEW_BUCKET_COUNT ensures NewAt(hashes, f, |f.buckets|, 0)[c] == Loaded(hashes, f).untried[c] {}
  }

  /** Loading: a file without overfull buckets gives exactly the state it describes, and nothing is lost. */
  method Deserialize(am: CAddrMan, f: File) returns (nLost: nat)
    requires Framed(f)
    modifies am
    ensures GoodFile(am.hashes, f) ==> nLost == 0 && am.View() == Loaded(am.hashes, f)
    ensures am.nTried == f.nTried - nLost && am.nNew == f.nNew && am.key == f.key
  {
    hide GoodFile, InfoAt, NewAt, AddrUpTo, EntriesUpTo, NewUpTo, AllTried, Loaded, Count0;
    am.key, am.nNew, am.nTried := f.key, f.nNew, f.nTried;
    ReadNew(am, f);
    NoneTried(am.hashes, f);
    nLost := ReadTried(am, f);
    am.nTried := am.nTried - nLost;
    BucketsStart(am.hashes, f);
    ghost var good := GoodFile(am.hashes, f);
    assert good ==> AfterEntries(am, f, Count(f));
    var b := 0;
    while b < |f.buckets|
      invariant 0 <= b <= |f.buckets| && |am.untried| == NEW_BUCKET_COUNT
      invariant am.nTried == f.nTried - nLost && am.nNew == f.nNew && am.key == f.key
      invariant good ==> am.info == InfoAt(f, b, 0) && am.untried == NewAt(am.hashes, f, b, 0)
      invariant good ==> am.idCount == Count(f) && am.addr == AddrUpTo(f, Count(f)) && am.random == Count0(Count(f))
      invariant good ==> am.tried == AllTried(am.hashes, f, Count(f))
    {
      ReadBucket(am, f, b);
      b := b + 1;
    }
    LoadedIs(am.hashes, f);
  }

  lemma NoneTried(hashes: Hashes, f: File)
    ensures AllTried(hashes, f, |f.entries|) == seq(TRIED_BUCKET_COUNT, _ => [])
  {
  }

  lemma LoadedIs(hashes: Hashes, f: File)
    ensures var n := Count(f);
            Loaded(hashes, f) == State(hashes, f.key, n, InfoAt(f, |f.buckets|, 0), AddrUpTo(f, n), Count0(n),
                                       f.nTried, AllTried(hashes, f, n), f.nNew, NewAt(hashes, f, |f.buckets|, 0))
  {
    hide InfoAt, NewAt, AddrUpTo, TriedUpTo, LoadedInfo, BucketAt, Rehashed;
    BucketsEnd(hashes, f);
    assert Loaded(hashes, f).tried == AllTried(hashes, f, Count(f));
  }

  /** Saving one manager and loading it into another: consistent again, nothing lost, every entry under its new id. */
  method SaveAndLoad(am: CAddrMan, other: CAddrMan) returns (nLost: nat)
    requires am.Valid() && other != am && other.hashes == am.hashes
    modifies other
    ensures nLost == 0 && other.Valid() && |other.info| == |am.info|
    ensures other.key == am.key && other.nNew == am.nNew && other.nTried == am.nTried
    ensures forall id :: id in am.info ==> LoadedAs(am.info, other.info, id)
    ensures forall b :: 0 <= b < NEW_BUCKET_COUNT ==> SameBucket(am.info, am.untried, other.untried, b)
    ensures forall b :: 0 <= b < TRIED_BUCKET_COUNT ==> SameTried(am.info, am.tried, other.tried, b)
  {
    hide Consistent, GoodFile, FileOf, Loaded, Rename, RenameSet;
    ghost var st := am.View();
    RoundTrip(st);
    var f := Serialize(am);
    assert am.View() == st && FileOf(st) == f;
    FramedFile(other.hashes, f);
    nLost := Deserialize(other, f);
    assert other.View() == Loaded(st.hashes, f);
    BucketNumbers(st);
    BucketNumbers(other.View());
  }

  lemma BucketNumbers(st: State)
    requires Consistent(st, NONE)
    ensures |st.tried| == TRIED_BUCKET_COUNT && |st.untried| == NEW_BUCKET_COUNT
  {
  }

  /** The entry of id, under its new id and without its last try. */
  ghost predicate LoadedAs(info: map<int, AddrInfo>, info': map<int, AddrInfo>, id: int)
    requires id in info
  {
    var r := Rename(info, id);
    r in info' && info'[r] == info[id].(lastTry := 0, randomPos := r)
  }

  ghost predicate SameBucket(info: map<int, AddrInfo>, untried: seq<set<int>>, untried': seq<set<int>>, b: int) {
    && 0 <= b < |untried| && b < |untried'| && (forall id :: id in untried[b] ==> id in info)
    && untried'[b] == RenameSet(info, untried[b])
  }

  ghost predicate SameTried(info: map<int, AddrInfo>, tried: seq<seq<int>>, tried': seq<seq<int>>, b: int) {
    && 0 <= b < |tried| && b < |tried'| && (forall id :: id in tried[b] ==> id in info)
    && Elements(tried'[b]) == RenameSet(info, Elements(tried[b])) && |tried'[b]| == |tried[b]|
  }

  lemma FramedFile(hashes: Hashes, f: File)
    requires GoodFile(hashes, f)
    ensures Framed(f)
  {
  }
}
