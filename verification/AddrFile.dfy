/**
 * Saving and loading the address manager.  The file keeps entries and new
 * buckets; ids, the address map, the random order and the tried buckets are
 * rebuilt.  Source: src/addrman.h, IMPLEMENT_SERIALIZE of CAddrMan.
 */
module AddrFile {
  import opened Bytes
  import opened AddrTables
  import opened AddrMan
  import opened AddrCheck

  /** The fields of an entry that are written. */
  datatype Saved = Saved(ip: NetAddr, port: nat, services: nat, time: int, source: NetAddr, lastSuccess: int,
                         attempts: int)

  function Save(a: AddrInfo): Saved { Saved(a.ip, a.port, a.services, a.time, a.source, a.lastSuccess, a.attempts) }

  function Load(s: Saved): AddrInfo {
    AddrInfo(s.ip, s.port, s.services, s.time, s.source, s.lastSuccess, 0, s.attempts, 0, false, NONE)
  }

  /** The stream, field by field: key, counts, entries, then the indexes in each new bucket. */
  datatype File = File(key: seq<Byte>, nNew: int, nTried: int, entries: seq<Saved>, triedEntries: seq<Saved>,
                       buckets: seq<seq<int>>)

  // ----- Positions in sorted order -----

  function Rank(s: set<int>, id: int): nat { |set x | x in s && x < id| }

  lemma RankOfSorted(s: set<int>, k: nat)
    requires k < |s|
    ensures Rank(s, Sorted(s)[k]) == k
  {
    hide Sorted, Min;
    var list := Sorted(s);
    SortedOrder(s);
    var below := set x | x in s && x < list[k];
    var front := list[..k];
    DistinctCount(front);
    forall x | x in below ensures x in front {
      SortedCovers(s, x);
      var i :| 0 <= i < |list| && list[i] == x;
      assert front[i] == x;
    }
    forall x | x in front ensures x in below {
      var i :| 0 <= i < |front| && front[i] == x;
      assert list[i] == x;
    }
    assert below == (set x | x in front);
  }

  lemma SortedOfRank(s: set<int>, id: int)
    requires id in s
    ensures Rank(s, id) < |s| && Sorted(s)[Rank(s, id)] == id
  {
    hide Sorted, Rank;
    SortedCovers(s, id);
    var k :| 0 <= k < |Sorted(s)| && Sorted(s)[k] == id;
    RankOfSorted(s, k);
  }

  // ----- What saving writes -----

  function SaveList(info: map<int, AddrInfo>, ids: seq<int>): (r: seq<Saved>)
    requires forall i :: 0 <= i < |ids| ==> ids[i] in info
    ensures |r| == |ids| && forall i :: 0 <= i < |ids| ==> r[i] == Save(info[ids[i]])
  {
    seq(|ids|, i requires 0 <= i < |ids| => Save(info[ids[i]]))
  }

  function RankList(s: set<int>, ids: seq<int>): (r: seq<int>)
    ensures |r| == |ids| && forall i :: 0 <= i < |ids| ==> r[i] == Rank(s, ids[i])
  {
    seq(|ids|, i requires 0 <= i < |ids| => Rank(s, ids[i]))
  }

  function FileOf(st: State): File {
    File(st.key, st.nNew, st.nTried,
         SaveList(st.info, Sorted(NewIds(st.info))), SaveList(st.info, Sorted(TriedIds(st.info))),
         seq(|st.untried|, b requires 0 <= b < |st.untried| => RankList(NewIds(st.info), Sorted(st.untried[b]))))
  }

  // ----- What loading builds -----

  function Count(f: File): nat { |f.entries| + |f.triedEntries| }

  function EntryAt(f: File, i: nat): Saved
    requires i < Count(f)
  {
    if i < |f.entries| then f.entries[i] else f.triedEntries[i - |f.entries|]
  }

  function BucketAt(f: File, b: nat): set<int>
    requires b < |f.buckets|
  {
    set x | x in f.buckets[b]
  }

  function RefBuckets(f: File, i: int): set<int> { set b | 0 <= b < |f.buckets| && i in f.buckets[b] }

  /** The file was written with the current number of new buckets; otherwise they are rebuilt. */
  predicate SameCount(f: File) { |f.buckets| == NEW_BUCKET_COUNT }

  /** Ids below k whose own source puts them in new bucket b. */
  function Rehashed(hashes: Hashes, f: File, b: nat, k: nat): set<int>
    requires k <= |f.entries|
  {
    set i | 0 <= i < k && SourceBucket(hashes, f, i) == b
  }

  function SourceBucket(hashes: Hashes, f: File, i: nat): nat
    requires i < |f.entries|
  {
    NewBucket(hashes, f.key, Load(f.entries[i]), f.entries[i].source)
  }

  function LoadedInfo(f: File, i: nat): AddrInfo
    requires i < Count(f)
  {
    var a := Load(EntryAt(f, i));
    if i < |f.entries| then a.(refCount := if SameCount(f) then |RefBuckets(f, i)| else 1, randomPos := i)
    else a.(inTried := true, randomPos := i)
  }

  function AddrUpTo(f: File, k: nat): map<NetAddr, int>
    requires k <= Count(f)
  {
    if k == 0 then map[] else AddrUpTo(f, k - 1)[EntryAt(f, k - 1).ip := k - 1]
  }

  function SavedBucket(hashes: Hashes, f: File, i: nat): nat
    requires i < Count(f)
  {
    TriedBucket(hashes, f.key, Load(EntryAt(f, i)))
  }

  /** Ids below k of tried entries that hash to bucket b. */
  function TriedUpTo(hashes: Hashes, f: File, b: nat, k: nat): seq<int>
    requires |f.entries| <= k <= Count(f)
    decreases k
  {
    if k == |f.entries| then []
    else TriedUpTo(hashes, f, b, k - 1) + (if SavedBucket(hashes, f, k - 1) == b then [k - 1] else [])
  }

  function Loaded(hashes: Hashes, f: File): State {
    var n := Count(f);
    State(hashes, f.key, n, map i | 0 <= i < n :: LoadedInfo(f, i), AddrUpTo(f, n), seq(n, i => i),
          f.nTried, seq(TRIED_BUCKET_COUNT, b requires 0 <= b => TriedUpTo(hashes, f, b, n)),
          f.nNew, seq(NEW_BUCKET_COUNT, b requires 0 <= b < NEW_BUCKET_COUNT =>
            if SameCount(f) then BucketAt(f, b) else Rehashed(hashes, f, b, |f.entries|)))
  }

  /** A file that loads without loss. */
  ghost predicate GoodFile(hashes: Hashes, f: File) {
    && |f.entries| == f.nNew && |f.triedEntries| == f.nTried
    && (forall b, i :: 0 <= b < |f.buckets| && 0 <= i < |f.buckets[b]| ==> 0 <= f.buckets[b][i] < |f.entries|)
    && (forall b, i, j :: 0 <= b < |f.buckets| && 0 <= i < j < |f.buckets[b]| ==> f.buckets[b][i] != f.buckets[b][j])
    && (forall i :: 0 <= i < |f.entries| ==> |RefBuckets(f, i)| <= NEW_BUCKETS_PER_ADDRESS)
    && (forall b: nat :: b < TRIED_BUCKET_COUNT ==> |TriedUpTo(hashes, f, b, Count(f))| <= TRIED_BUCKET_SIZE)
  }

  // ----- The renaming of ids -----

  /** New ids come first, then tried ids, each in increasing order. */
  function Rename(info: map<int, AddrInfo>, id: int): nat
    requires id in info
  {
    if info[id].inTried then |NewIds(info)| + Rank(TriedIds(info), id) else Rank(NewIds(info), id)
  }

  /** The old id of a new one. */
  function Original(info: map<int, AddrInfo>, i: nat): (id: int)
    requires i < |NewIds(info)| + |TriedIds(info)|
    ensures id in info && info[id].inTried == (i >= |NewIds(info)|)
  {
    var n := |NewIds(info)|;
    if i < n then Sorted(NewIds(info))[i] else Sorted(TriedIds(info))[i - n]
  }

  lemma RenameInverse(info: map<int, AddrInfo>)
    ensures forall id :: id in info ==>
              Rename(info, id) < |NewIds(info)| + |TriedIds(info)| && Original(info, Rename(info, id)) == id
    ensures forall i: nat :: i < |NewIds(info)| + |TriedIds(info)| ==> Rename(info, Original(info, i)) == i
  {
    forall id | id in info
      ensures Rename(info, id) < |NewIds(info)| + |TriedIds(info)| && Original(info, Rename(info, id)) == id
    {
      if info[id].inTried { SortedOfRank(TriedIds(info), id); } else { SortedOfRank(NewIds(info), id); }
    }
    forall i: nat | i < |NewIds(info)| + |TriedIds(info)| ensures Rename(info, Original(info, i)) == i {
      var n := |NewIds(info)|;
      if i < n { RankOfSorted(NewIds(info), i); } else { RankOfSorted(TriedIds(info), i - n); }
    }
  }

  /** The renaming keeps the order within the new ids and within the tried ids. */
  lemma RenameOrder(info: map<int, AddrInfo>, x: int, y: int)
    requires x in info && y in info && x < y && info[x].inTried == info[y].inTried
    ensures Rename(info, x) < Rename(info, y)
  {
    var s := if info[x].inTried then TriedIds(info) else NewIds(info);
    var below, upTo := set z | z in s && z < x, set z | z in s && z < y;
    assert x in s && x !in below && below + {x} <= upTo;
    assert upTo == (upTo - (below + {x})) + (below + {x});
  }

  // ----- Round trip -----

  lemma FileEntries(st: State, i: nat)
    requires CountsOk(st.info, st.nTried, st.nNew) && i < Count(FileOf(st))
    ensures Count(FileOf(st)) == |NewIds(st.info)| + |TriedIds(st.info)|
    ensures EntryAt(FileOf(st), i) == Save(st.info[Original(st.info, i)])
  {
  }

  lemma FileBuckets(st: State, b: nat, id: int)
    requires b < |st.untried| && id in st.info && !st.info[id].inTried
    requires forall x :: x in st.untried[b] ==> x in st.info && !st.info[x].inTried
    ensures Rename(st.info, id) in FileOf(st).buckets[b] <==> id in st.untried[b]
  {
    hide Sorted, Original, Rank;
    var news, list := NewIds(st.info), Sorted(st.untried[b]);
    RenameInverse(st.info);
    var r := Rename(st.info, id);
    if id in st.untried[b] {
      SortedCovers(st.untried[b], id);
      var k :| 0 <= k < |list| && list[k] == id;
      assert FileOf(st).buckets[b][k] == r;
    }
    if r in FileOf(st).buckets[b] {
      var k :| 0 <= k < |list| && FileOf(st).buckets[b][k] == r;
      assert list[k] in st.untried[b];
      assert Rename(st.info, list[k]) == r;
      assert Original(st.info, Rename(st.info, list[k])) == list[k];
    }
  }

  lemma FileRefs(st: State, id: int)
    requires NewOk(st.info, st.untried, NONE) && id in st.info && !st.info[id].inTried
    ensures RefBuckets(FileOf(st), Rename(st.info, id)) == BucketsOf(st.untried, id)
  {
    assert |FileOf(st).buckets| == |st.untried|;
    hide Rename, FileOf, NewOk;
    forall b | 0 <= b < |st.untried| ensures Rename(st.info, id) in FileOf(st).buckets[b] <==> id in st.untried[b] {
      NewEntries(st, b);
      FileBuckets(st, b, id);
    }
  }

  lemma NewEntries(st: State, b: nat)
    requires NewOk(st.info, st.untried, NONE) && b < |st.untried|
    ensures forall x :: x in st.untried[b] ==> x in st.info && !st.info[x].inTried
  {
    hide RefCountOk;
  }

  /** The loaded entry for id is the saved one, under its new id. */
  lemma LoadedEntry(st: State, id: int)
    requires Consistent(st, NONE) && id in st.info
    ensures Rename(st.info, id) < Count(FileOf(st))
    ensures LoadedInfo(FileOf(st), Rename(st.info, id)) == st.info[id].(lastTry := 0, randomPos := Rename(st.info, id))
  {
    hide RandomOk, AddrOk, IdsOk, RefCountOk, InBucket, NoRepeats, TriedBucket;
    RenameInverse(st.info);
    var r, f := Rename(st.info, id), FileOf(st);
    FileEntries(st, r);
    if !st.info[id].inTried { SavedRefs(st, id); }
    hide TriedIds, NewIds, RefBuckets, EntryAt, SaveList;
  }

  /** The buckets that name an entry in the file are as many as its reference count. */
  lemma SavedRefs(st: State, id: int)
    requires Consistent(st, NONE) && id in st.info && !st.info[id].inTried
    ensures |RefBuckets(FileOf(st), Rename(st.info, id))| == st.info[id].refCount
  {
    hide RandomOk, AddrOk, ShapeOk, IdsOk, TriedOk, CountsOk, Rename, FileOf;
    FileRefs(st, id);
    RefCountIs(st, id);
    assert BucketsFrom(st.untried, id, 0) == BucketsOf(st.untried, id);
  }

  /** The tried ids in a saved bucket, in file order. */
  lemma {:induction false} TriedUpToFacts(hashes: Hashes, f: File, b: nat, k: nat)
    requires |f.entries| <= k <= Count(f)
    ensures forall x :: x in TriedUpTo(hashes, f, b, k) <==> |f.entries| <= x < k && SavedBucket(hashes, f, x) == b
    ensures forall i, j :: 0 <= i < j < |TriedUpTo(hashes, f, b, k)| ==>
              TriedUpTo(hashes, f, b, k)[i] != TriedUpTo(hashes, f, b, k)[j]
    decreases k
  {
    hide SavedBucket;
    if k > |f.entries| {
      TriedUpToFacts(hashes, f, b, k - 1);
      var prev := TriedUpTo(hashes, f, b, k - 1);
      forall i | 0 <= i < |prev| ensures prev[i] < k - 1 { assert prev[i] in prev; }
    }
  }

  /** Each tried entry hashes to the bucket it was in. */
  lemma SavedTriedBucket(st: State, i: nat)
    requires Consistent(st, NONE) && |NewIds(st.info)| <= i < |NewIds(st.info)| + |TriedIds(st.info)|
    ensures Count(FileOf(st)) == |NewIds(st.info)| + |TriedIds(st.info)|
    ensures SavedBucket(st.hashes, FileOf(st), i) == TriedBucket(st.hashes, st.key, st.info[Original(st.info, i)])
  {
    FileEntries(st, i);
  }

  function RenameSet(info: map<int, AddrInfo>, s: set<int>): set<int>
    requires forall id :: id in s ==> id in info
  {
    set id | id in s :: Rename(info, id)
  }

  lemma {:induction false} RenameSetSize(info: map<int, AddrInfo>, s: set<int>)
    requires forall id :: id in s ==> id in info
    ensures |RenameSet(info, s)| == |s|
    decreases |s|
  {
    hide Rename;
    if s == {} {
      assert RenameSet(info, s) == {};
    } else {
      var x := PickOne(s);
      RenameSetSize(info, s - {x});
      RenameInverse(info);
      assert RenameSet(info, s) == RenameSet(info, s - {x}) + {Rename(info, x)};
      assert Rename(info, x) !in RenameSet(info, s - {x}) by {
        forall y | y in s - {x} ensures Rename(info, y) != Rename(info, x) {
          assert Original(info, Rename(info, y)) == y && Original(info, Rename(info, x)) == x;
        }
      }
    }
  }

  /** The loaded tried bucket holds the renamed entries of the old one. */
  lemma LoadedTried(st: State, b: nat)
    requires Consistent(st, NONE) && b < TRIED_BUCKET_COUNT
    ensures b < |st.tried| && (forall id :: id in st.tried[b] ==> id in st.info)
    ensures Elements(TriedUpTo(st.hashes, FileOf(st), b, Count(FileOf(st))))
         == RenameSet(st.info, Elements(st.tried[b]))
    ensures |TriedUpTo(st.hashes, FileOf(st), b, Count(FileOf(st)))| == |st.tried[b]|
  {
    hide RandomOk, AddrOk, NewOk, IdsOk, Rename, SavedBucket, Original, TriedUpTo, Sorted, SaveList, RankList,
         NoRepeats;
    var f, info := FileOf(st), st.info;
    var list, n := TriedUpTo(st.hashes, f, b, Count(f)), |NewIds(info)|;
    TriedUpToFacts(st.hashes, f, b, Count(f));
    RenameInverse(info);
    assert Count(f) == n + |TriedIds(info)| && |f.entries| == n;
    var here := Elements(st.tried[b]);
    forall x | x in Elements(list) ensures x in RenameSet(info, here) {
      SavedTriedBucket(st, x);
      var id := Original(info, x);
      assert InBucket(st.tried, TriedBucket(st.hashes, st.key, info[id]), id);
      assert Rename(info, id) == x;
    }
    forall id | id in here ensures Rename(info, id) in Elements(list) {
      TriedRange(info, id);
      SavedTriedBucket(st, Rename(info, id));
      assert Original(info, Rename(info, id)) == id;
    }
    DistinctCount(list);
    RenameSetSize(info, here);
    NoRepeatsCount(st.tried[b]);
  }

  lemma TriedRange(info: map<int, AddrInfo>, id: int)
    requires id in info && info[id].inTried
    ensures |NewIds(info)| <= Rename(info, id) < |NewIds(info)| + |TriedIds(info)|
  {
    RenameInverse(info);
  }

  lemma {:induction false} NoRepeatsCount(s: seq<int>)
    requires NoRepeats(s)
    ensures |Elements(s)| == |s|
    decreases |s|
  {
    if s != [] {
      var n := |s| - 1;
      var init, last := s[..n], s[n];
      assert s == init + [last];
      assert multiset(s) == multiset(init) + multiset{last};
      assert NoRepeats(init) by {
        forall x ensures multiset(init)[x] <= 1 { assert multiset(s)[x] <= 1; }
      }
      assert multiset(s)[last] <= 1;
      NoRepeatsCount(init);
      assert Elements(s) == Elements(init) + {last};
    }
  }

  /** The loaded new bucket holds the renamed ids of the old one. */
  lemma LoadedNew(st: State, b: nat)
    requires Consistent(st, NONE) && b < |st.untried|
    ensures forall id :: id in st.untried[b] ==> id in st.info
    ensures BucketAt(FileOf(st), b) == RenameSet(st.info, st.untried[b])
    ensures forall i :: 0 <= i < |FileOf(st).buckets[b]| ==> 0 <= FileOf(st).buckets[b][i] < |NewIds(st.info)|
    ensures forall i, j :: 0 <= i < j < |FileOf(st).buckets[b]| ==> FileOf(st).buckets[b][i] != FileOf(st).buckets[b][j]
  {
    hide RandomOk, AddrOk, TriedOk, CountsOk, IdsOk, Rename;
    var info, ids := st.info, Sorted(st.untried[b]);
    var list := FileOf(st).buckets[b];
    assert list == RankList(NewIds(info), ids);
    forall id | id in st.untried[b] ensures id in NewIds(info) {}
    RankListFacts(info, st.untried[b]);
    assert BucketAt(FileOf(st), b) == Elements(list);
  }

  /** Ranks of a sorted set of new ids: in range, without repeats, and the renamed set. */
  lemma RankListFacts(info: map<int, AddrInfo>, s: set<int>)
    requires forall id :: id in s ==> id in NewIds(info)
    ensures forall id :: id in s ==> id in info
    ensures var list := RankList(NewIds(info), Sorted(s));
            && Elements(list) == RenameSet(info, s)
            && (forall i :: 0 <= i < |list| ==> 0 <= list[i] < |NewIds(info)|)
            && (forall i, j :: 0 <= i < j < |list| ==> list[i] != list[j])
  {
    hide Sorted, Rank;
    var ids := Sorted(s);
    var list := RankList(NewIds(info), ids);
    SortedOrder(s);
    forall i | 0 <= i < |ids| ensures ids[i] in s && list[i] == Rename(info, ids[i]) && list[i] < |NewIds(info)| {
      SortedOfRank(NewIds(info), ids[i]);
    }
    forall i, j | 0 <= i < j < |list| ensures list[i] != list[j] {
      RenameOrder(info, ids[i], ids[j]);
    }
    forall x | x in Elements(list) ensures x in RenameSet(info, s) {
      var i :| 0 <= i < |list| && list[i] == x;
      assert ids[i] in s;
    }
    forall id | id in s ensures Rename(info, id) in Elements(list) {
      SortedCovers(s, id);
      var i :| 0 <= i < |ids| && ids[i] == id;
      assert list[i] in list;
    }
  }

  lemma SavedIsGood(st: State)
    requires Consistent(st, NONE)
    ensures GoodFile(st.hashes, FileOf(st)) && SameCount(FileOf(st))
    ensures forall i :: 0 <= i < |FileOf(st).entries| ==> |RefBuckets(FileOf(st), i)| >= 1
  {
    hide RandomOk, AddrOk, NewOk, TriedOk, IdsOk, Sorted, TriedUpTo, RefBuckets, Rename;
    var f := FileOf(st);
    forall b | 0 <= b < |f.buckets|
      ensures forall i :: 0 <= i < |f.buckets[b]| ==> 0 <= f.buckets[b][i] < |f.entries|
      ensures forall i, j :: 0 <= i < j < |f.buckets[b]| ==> f.buckets[b][i] != f.buckets[b][j]
    {
      LoadedNew(st, b);
    }
    forall i | 0 <= i < |f.entries| ensures 1 <= |RefBuckets(f, i)| <= NEW_BUCKETS_PER_ADDRESS {
      RenameInverse(st.info);
      var id := Original(st.info, i);
      SavedRefs(st, id);
      CountInRange(st, id);
    }
    forall b: nat | b < TRIED_BUCKET_COUNT ensures |TriedUpTo(st.hashes, f, b, Count(f))| <= TRIED_BUCKET_SIZE {
      LoadedTried(st, b);
    }
  }

  // ----- The loaded state is consistent -----

  lemma {:induction false} AddrUpToFacts(f: File, k: nat)
    requires k <= Count(f)
    requires forall i, j :: 0 <= i < j < Count(f) ==> EntryAt(f, i).ip != EntryAt(f, j).ip
    ensures forall i :: 0 <= i < k ==> EntryAt(f, i).ip in AddrUpTo(f, k) && AddrUpTo(f, k)[EntryAt(f, i).ip] == i
    ensures forall a :: a in AddrUpTo(f, k) ==> 0 <= AddrUpTo(f, k)[a] < k && EntryAt(f, AddrUpTo(f, k)[a]).ip == a
  {
    hide EntryAt;
    if k > 0 { AddrUpToFacts(f, k - 1); }
  }

  lemma SavedIpsDiffer(st: State)
    requires Consistent(st, NONE)
    ensures forall i, j :: 0 <= i < j < Count(FileOf(st)) ==> EntryAt(FileOf(st), i).ip != EntryAt(FileOf(st), j).ip
  {
    hide RandomOk, NewOk, TriedOk, ShapeOk, IdsOk, EntryAt, Original, Rename;
    forall i, j | 0 <= i < j < Count(FileOf(st)) ensures EntryAt(FileOf(st), i).ip != EntryAt(FileOf(st), j).ip {
      FileEntries(st, i);
      FileEntries(st, j);
      RenameInverse(st.info);
      var x, y := Original(st.info, i), Original(st.info, j);
      assert Rename(st.info, x) == i && Rename(st.info, y) == j;
      assert st.addr[st.info[x].ip] == x && st.addr[st.info[y].ip] == y;
    }
  }

  lemma LoadedIds(st: State)
    requires Consistent(st, NONE)
    ensures CountsOk(Loaded(st.hashes, FileOf(st)).info, st.nTried, st.nNew)
  {
    hide RandomOk, AddrOk, NewOk, TriedOk, ShapeOk, IdsOk, Rename, Original, LoadedInfo;
    var f, info := FileOf(st), st.info;
    var info' := Loaded(st.hashes, f).info;
    RenameInverse(info);
    forall id | id in info ensures Rename(info, id) in info' && info'[Rename(info, id)].inTried == info[id].inTried {
      LoadedEntry(st, id);
    }
    forall i | i in info' ensures i == Rename(info, Original(info, i)) {}
    LoadedIdSets(info, info');
    RenameSetSize(info, NewIds(info));
    RenameSetSize(info, TriedIds(info));
  }

  lemma KindsOf(info: map<int, AddrInfo>)
    ensures forall id :: id in TriedIds(info) <==> id in info && info[id].inTried
    ensures forall id :: id in NewIds(info) <==> id in info && !info[id].inTried
  {
  }

  lemma LoadedIdSets(info: map<int, AddrInfo>, info': map<int, AddrInfo>)
    requires forall i :: i in info' ==>
              0 <= i < |NewIds(info)| + |TriedIds(info)| && i == Rename(info, Original(info, i))
    requires forall id :: id in info ==>
              Rename(info, id) in info' && info'[Rename(info, id)].inTried == info[id].inTried
    ensures NewIds(info') == RenameSet(info, NewIds(info)) && TriedIds(info') == RenameSet(info, TriedIds(info))
  {
    hide Rename, Original, TriedIds, NewIds;
    KindsOf(info);
    KindsOf(info');
    SameKind(info, info', NewIds(info), NewIds(info'), false);
    SameKind(info, info', TriedIds(info), TriedIds(info'), true);
  }

  lemma SameKind(info: map<int, AddrInfo>, info': map<int, AddrInfo>, ids: set<int>, ids': set<int>, inTried: bool)
    requires forall id :: id in ids <==> id in info && info[id].inTried == inTried
    requires forall id :: id in ids' <==> id in info' && info'[id].inTried == inTried
    requires forall i :: i in info' ==>
              0 <= i < |NewIds(info)| + |TriedIds(info)| && i == Rename(info, Original(info, i))
    requires forall id :: id in info ==>
              Rename(info, id) in info' && info'[Rename(info, id)].inTried == info[id].inTried
    ensures ids' == RenameSet(info, ids)
  {
    hide Rename, Original, TriedIds, NewIds;
    forall i | i in ids' ensures i in RenameSet(info, ids) {
      var id := Original(info, i);
      assert Rename(info, id) == i;
      assert id in ids;
    }
    forall i | i in RenameSet(info, ids) ensures i in ids' {
      var id :| id in ids && Rename(info, id) == i;
    }
  }

  lemma LoadedNewOk(st: State)
    requires Consistent(st, NONE)
    ensures var st' := Loaded(st.hashes, FileOf(st)); NewOk(st'.info, st'.untried, NONE)
  {
    SavedIsGood(st);
    LoadedNewGood(st.hashes, FileOf(st));
  }

  lemma LoadedNewGood(hashes: Hashes, f: File)
    requires GoodFile(hashes, f) && SameCount(f)
    requires forall i :: 0 <= i < |f.entries| ==> |RefBuckets(f, i)| >= 1
    ensures var st' := Loaded(hashes, f); NewOk(st'.info, st'.untried, NONE)
  {
    hide TriedUpTo, AddrUpTo, EntryAt;
    var st' := Loaded(hashes, f);
    forall b, x | 0 <= b < |st'.untried| && x in st'.untried[b] ensures x in st'.info && !st'.info[x].inTried {
      var i :| 0 <= i < |f.buckets[b]| && f.buckets[b][i] == x;
    }
    forall x | x in st'.info && !st'.info[x].inTried ensures RefCountOk(st'.info[x].refCount, st'.untried, x, NONE) {
      assert BucketsOf(st'.untried, x) == RefBuckets(f, x);
    }
  }

  lemma LoadedTriedOk(hashes: Hashes, f: File)
    ensures var st' := Loaded(hashes, f); TriedOk(st'.hashes, st'.key, st'.info, st'.tried)
  {
    hide LoadedInfo, SavedBucket, TriedUpTo, AddrUpTo, NoRepeats, Rehashed, BucketAt, TriedBucket;
    var st' := Loaded(hashes, f);
    forall b: nat | b < TRIED_BUCKET_COUNT ensures BucketOk(hashes, f, b, st'.tried[b]) {
      TriedUpToFacts(hashes, f, b, Count(f));
      DistinctNoRepeats(st'.tried[b]);
    }
    forall x | x in st'.info ensures TriedInfoOk(hashes, f, x, st'.info[x]) {
      TriedInfo(hashes, f, x);
    }
    forall b, id | 0 <= b < |st'.tried| && id in st'.tried[b]
      ensures id in st'.info && st'.info[id].inTried && TriedBucket(st'.hashes, st'.key, st'.info[id]) == b
    {
      assert BucketOk(hashes, f, b, st'.tried[b]);
      assert TriedInfoOk(hashes, f, id, st'.info[id]);
    }
    forall x | x in st'.info && st'.info[x].inTried
      ensures st'.info[x].refCount == 0 && InBucket(st'.tried, TriedBucket(st'.hashes, st'.key, st'.info[x]), x)
    {
      assert TriedInfoOk(hashes, f, x, st'.info[x]);
      assert BucketOk(hashes, f, TriedBucket(hashes, f.key, st'.info[x]),
                      st'.tried[TriedBucket(hashes, f.key, st'.info[x])]);
    }
    forall b | 0 <= b < |st'.tried| ensures NoRepeats(st'.tried[b]) {
      assert BucketOk(hashes, f, b, st'.tried[b]);
    }
  }

  ghost predicate BucketOk(hashes: Hashes, f: File, b: nat, list: seq<int>) {
    && (forall x :: x in list <==> |f.entries| <= x < Count(f) && SavedBucket(hashes, f, x) == b)
    && NoRepeats(list)
  }

  ghost predicate TriedInfoOk(hashes: Hashes, f: File, x: int, a: AddrInfo)
    requires 0 <= x < Count(f)
  {
    && a.inTried == (x >= |f.entries|) && (a.inTried ==> a.refCount == 0)
    && TriedBucket(hashes, f.key, a) == SavedBucket(hashes, f, x)
  }

  lemma TriedInfo(hashes: Hashes, f: File, x: nat)
    requires x < Count(f)
    ensures TriedInfoOk(hashes, f, x, LoadedInfo(f, x))
  {
  }

  lemma {:induction false} DistinctNoRepeats(s: seq<int>)
    requires forall i, j :: 0 <= i < j < |s| ==> s[i] != s[j]
    ensures NoRepeats(s)
    decreases |s|
  {
    if s != [] {
      var n := |s| - 1;
      DistinctNoRepeats(s[..n]);
      assert s == s[..n] + [s[n]];
      assert s[n] !in s[..n];
      assert multiset(s[..n])[s[n]] == 0;
    }
  }

  /**
   * Loading what was saved gives a consistent state with the same entries, new
   * buckets, reference counts and tried buckets, ids renamed in order.
   */
  lemma RoundTrip(st: State)
    requires Consistent(st, NONE)
    ensures GoodFile(st.hashes, FileOf(st)) && SameCount(FileOf(st))
    ensures var st' := Loaded(st.hashes, FileOf(st));
            && Consistent(st', NONE)
            && st'.key == st.key && st'.nNew == st.nNew && st'.nTried == st.nTried
            && (forall id :: id in st.info ==>
                  var r := Rename(st.info, id);
                  r in st'.info && st'.info[r] == st.info[id].(lastTry := 0, randomPos := r))
            && |st'.info| == |st.info|
    ensures forall b :: 0 <= b < NEW_BUCKET_COUNT ==>
              (forall id :: id in st.untried[b] ==> id in st.info)
              && Loaded(st.hashes, FileOf(st)).untried[b] == RenameSet(st.info, st.untried[b])
    ensures forall b :: 0 <= b < TRIED_BUCKET_COUNT ==>
              (forall id :: id in st.tried[b] ==> id in st.info)
              && Elements(Loaded(st.hashes, FileOf(st)).tried[b]) == RenameSet(st.info, Elements(st.tried[b]))
              && |Loaded(st.hashes, FileOf(st)).tried[b]| == |st.tried[b]|
  {
    hide RandomOk, AddrOk, NewOk, TriedOk, CountsOk, IdsOk, Sorted, SaveList, RankList, TriedUpTo, AddrUpTo, LoadedInfo,
         Rename, GoodFile;
    var f := FileOf(st);
    var st' := Loaded(st.hashes, f);
    SavedIsGood(st);
    LoadedParts(st);
    forall b | 0 <= b < NEW_BUCKET_COUNT
      ensures forall id :: id in st.untried[b] ==> id in st.info
      ensures st'.untried[b] == RenameSet(st.info, st.untried[b])
    {
      LoadedNew(st, b);
    }
    forall id | id in st.info
      ensures var r := Rename(st.info, id); r in st'.info && st'.info[r] == st.info[id].(lastTry := 0, randomPos := r)
    {
      LoadedEntry(st, id);
    }
    forall b | 0 <= b < TRIED_BUCKET_COUNT
      ensures (forall id :: id in st.tried[b] ==> id in st.info)
              && Elements(st'.tried[b]) == RenameSet(st.info, Elements(st.tried[b])) && |st'.tried[b]| == |st.tried[b]|
    {
      LoadedTried(st, b);
    }
  }

  lemma LoadedShape(st: State)
    requires Consistent(st, NONE)
    ensures var st' := Loaded(st.hashes, FileOf(st)); ShapeOk(st'.tried, st'.untried)
  {
    hide RandomOk, AddrOk, NewOk, TriedOk, IdsOk;
    var st' := Loaded(st.hashes, FileOf(st));
    forall b | 0 <= b < NEW_BUCKET_COUNT ensures |st'.untried[b]| <= NEW_BUCKET_SIZE {
      LoadedNew(st, b);
      RenameSetSize(st.info, st.untried[b]);
    }
    forall b | 0 <= b < TRIED_BUCKET_COUNT ensures |st'.tried[b]| <= TRIED_BUCKET_SIZE {
      LoadedTried(st, b);
    }
  }

  lemma LoadedRandom(hashes: Hashes, f: File)
    ensures var st' := Loaded(hashes, f); RandomOk(st'.info, st'.random) && IdsOk(st'.info, st'.idCount)
  {
    hide EntryAt, AddrUpTo, TriedUpTo, BucketAt, RefBuckets;
    var st' := Loaded(hashes, f);
    forall i | i in st'.info ensures st'.info[i].randomPos == i {}
  }

  lemma LoadedAddr(st: State)
    requires Consistent(st, NONE)
    ensures var st' := Loaded(st.hashes, FileOf(st)); AddrOk(st'.info, st'.addr)
  {
    hide Consistent, EntryAt, AddrUpTo, TriedUpTo, BucketAt, RefBuckets, FileOf;
    var f := FileOf(st);
    SavedIpsDiffer(st);
    AddrUpToFacts(f, Count(f));
    var st' := Loaded(st.hashes, f);
    forall i | i in st'.info ensures st'.info[i].ip == EntryAt(f, i).ip {}
  }

  lemma LoadedParts(st: State)
    requires Consistent(st, NONE)
    ensures var st' := Loaded(st.hashes, FileOf(st)); Consistent(st', NONE) && |st'.info| == |st.info|
  {
    LoadedShape(st);
    LoadedIds(st);
    LoadedNewOk(st);
    LoadedTriedOk(st.hashes, FileOf(st));
    LoadedRandom(st.hashes, FileOf(st));
    LoadedAddr(st);
    InfoSize(st);
    hide NewOk, TriedOk, ShapeOk, CountsOk, RandomOk, AddrOk, IdsOk;
    var st' := Loaded(st.hashes, FileOf(st));
    assert Consistent(st', NONE);
    InfoSize(st');
  }

  lemma InfoSize(st: State)
    requires Consistent(st, NONE)
    ensures |st.info| == st.nTried + st.nNew
  {
    assert st.info.Keys == TriedIds(st.info) + NewIds(st.info) && TriedIds(st.info) !! NewIds(st.info);
  }
}
