/**
 * The authors' own run-time consistency check: exactly what it accepts, that
 * this holds of every consistent state, and what it says of the indexes.
 * Source: src/addrman.cpp, Check_.
 */
module AddrCheck {
  import opened Bytes
  import opened AddrTables
  import opened AddrChoice
  import opened AddrMan

  // ----- Lists and sets -----

  ghost predicate Distinct(s: seq<int>) { forall i, j :: 0 <= i < j < |s| ==> s[i] != s[j] }

  ghost function Elements(s: seq<int>): set<int> { set x | x in s }

  lemma {:induction false} DistinctCount(s: seq<int>)
    requires Distinct(s)
    ensures |Elements(s)| == |s|
    decreases |s|
  {
    if s != [] {
      var n := |s| - 1;
      var init := s[..n];
      DistinctCount(init);
      assert s == init + [s[n]];
      assert Elements(s) == Elements(init) + {s[n]};
      assert s[n] !in Elements(init);
    }
  }

  function Flatten(ss: seq<seq<int>>): seq<int> {
    if ss == [] then [] else Flatten(ss[..|ss| - 1]) + ss[|ss| - 1]
  }

  /** The entries of the tried buckets before position p of bucket b. */
  function Walked(tried: seq<seq<int>>, b: nat, p: nat): seq<int>
    requires b < |tried| && p <= |tried[b]|
  {
    Flatten(tried[..b]) + tried[b][..p]
  }

  lemma {:induction false} FlattenPrefix(ss: seq<seq<int>>, n: nat)
    requires n <= |ss|
    ensures Flatten(ss[..n]) <= Flatten(ss)
    decreases |ss|
  {
    if n == |ss| {
      assert ss[..n] == ss;
    } else {
      FlattenPrefix(ss[..|ss| - 1], n);
      assert ss[..|ss| - 1][..n] == ss[..n];
    }
  }

  lemma WalkedStep(tried: seq<seq<int>>, b: nat, p: nat)
    requires b < |tried| && p < |tried[b]|
    ensures Walked(tried, b, p + 1) == Walked(tried, b, p) + [tried[b][p]]
    ensures Walked(tried, b, p + 1) <= Flatten(tried)
  {
    assert tried[b][..p + 1] == tried[b][..p] + [tried[b][p]];
    BucketWalked(tried, b);
    FlattenPrefix(tried, b + 1);
    assert Walked(tried, b, p + 1) <= Flatten(tried[..b + 1]);
  }

  lemma BucketWalked(tried: seq<seq<int>>, b: nat)
    requires b < |tried|
    ensures Walked(tried, b, 0) == Flatten(tried[..b])
    ensures Walked(tried, b, |tried[b]|) == Flatten(tried[..b + 1]) == Flatten(tried[..b]) + tried[b]
  {
    assert tried[..b + 1][..b] == tried[..b];
    assert tried[b][..|tried[b]|] == tried[b];
  }

  // ----- What the check accepts -----

  /** operator[] of mapAddr. */
  function AddrAt(addr: map<NetAddr, int>, ip: NetAddr): int { if ip in addr then addr[ip] else 0 }

  /** The tests made on each single entry. */
  predicate EntryPasses(st: State, id: int)
    requires id in st.info
  {
    var a := st.info[id];
    && (if a.inTried then a.lastSuccess != 0 && a.refCount == 0 else 1 <= a.refCount <= NEW_BUCKETS_PER_ADDRESS)
    && AddrAt(st.addr, a.ip) == id
    && 0 <= a.randomPos < |st.random| && st.random[a.randomPos] == id
    && a.lastTry >= 0 && a.lastSuccess >= 0
  }

  /** The tried buckets list exactly these ids, each once. */
  ghost predicate TriedExact(tried: seq<seq<int>>, ids: set<int>) {
    Distinct(Flatten(tried)) && Elements(Flatten(tried)) == ids
  }

  function RefCounts(info: map<int, AddrInfo>): map<int, int> { map id | id in NewIds(info) :: info[id].refCount }

  /** The new buckets hold exactly these ids, each as often as counted. */
  ghost predicate NewExact(untried: seq<set<int>>, counts: map<int, int>) {
    && (forall b, id :: 0 <= b < |untried| && id in untried[b] ==> id in counts)
    && (forall id :: id in counts ==> counts[id] == |BucketsOf(untried, id)|)
  }

  ghost predicate Passes(st: State) {
    && |st.random| == st.nTried + st.nNew
    && (forall id :: id in st.info ==> EntryPasses(st, id))
    && CountsOk(st.info, st.nTried, st.nNew)
    && TriedExact(st.tried, TriedIds(st.info)) && NewExact(st.untried, RefCounts(st.info))
  }

  // ----- The loops -----

  /** Tried ids, and reference counts of new ids, among the entries no longer in left. */
  function SeenTried(info: map<int, AddrInfo>, left: set<int>): set<int> {
    set id | id in info && id !in left && info[id].inTried
  }

  function SeenNew(info: map<int, AddrInfo>, left: set<int>): map<int, int> {
    map id | id in info && id !in left && !info[id].inTried :: info[id].refCount
  }

  lemma SeenStep(info: map<int, AddrInfo>, left: set<int>, n: int)
    requires n in left && n in info
    ensures SeenTried(info, left - {n})
              == if info[n].inTried then SeenTried(info, left) + {n} else SeenTried(info, left)
    ensures SeenNew(info, left - {n})
              == if info[n].inTried then SeenNew(info, left) else SeenNew(info, left)[n := info[n].refCount]
  {
  }

  lemma SeenEnds(info: map<int, AddrInfo>)
    ensures SeenTried(info, info.Keys) == {} && SeenNew(info, info.Keys) == map[]
    ensures SeenTried(info, {}) == TriedIds(info) && SeenNew(info, {}) == RefCounts(info)
  {
    var a, b := SeenNew(info, {}), RefCounts(info);
    assert a.Keys == NewIds(info) && b.Keys == NewIds(info);
    assert a == b;
  }

  /** The tests on entries; also collects the tried ids and the reference counts of the new ones. */
  method CheckEntries(am: CAddrMan) returns (err: int, setTried: set<int>, counts: map<int, int>)
    ensures err == 0 <==> forall id :: id in am.info ==> EntryPasses(am.View(), id)
    ensures err == 0 ==> setTried == TriedIds(am.info) && counts == RefCounts(am.info)
  {
    hide SeenTried, SeenNew;
    err, setTried, counts := 0, {}, map[];
    var left := am.info.Keys;
    SeenEnds(am.info);
    while left != {}
      invariant left <= am.info.Keys && forall id :: id in am.info && id !in left ==> EntryPasses(am.View(), id)
      invariant setTried == SeenTried(am.info, left) && counts == SeenNew(am.info, left)
      decreases |left|
    {
      var n := Min(left);
      var a := am.info[n];
      SeenStep(am.info, left, n);
      if a.inTried {
        if a.lastSuccess == 0 { err := -1; return; }
        if a.refCount != 0 { err := -2; return; }
        setTried := setTried + {n};
      } else {
        if a.refCount < 0 || a.refCount > NEW_BUCKETS_PER_ADDRESS { err := -3; return; }
        if a.refCount == 0 { err := -4; return; }
        counts := counts[n := a.refCount];
      }
      if AddrAt(am.addr, a.ip) != n { err := -5; return; }
      if a.randomPos < 0 || a.randomPos >= |am.random| || am.random[a.randomPos] != n { err := -14; return; }
      if a.lastTry < 0 { err := -6; return; }
      if a.lastSuccess < 0 { err := -8; return; }
      left := left - {n};
    }
  }

  /** Strikes each tried bucket entry off the set: all are in it, once, and none is left over. */
  method CheckTried(tried: seq<seq<int>>, ids: set<int>) returns (err: int, left: set<int>)
    ensures err == 0 && left == {} <==> TriedExact(tried, ids)
  {
    hide Flatten, Walked, Distinct;
    err, left := 0, ids;
    NoneWalked(tried);
    for b := 0 to |tried|
      invariant Struck(Flatten(tried[..b]), ids, left)
    {
      BucketWalked(tried, b);
      for p := 0 to |tried[b]|
        invariant Struck(Walked(tried, b, p), ids, left)
      {
        var x := tried[b][p];
        WalkedStep(tried, b, p);
        StrikeOne(Walked(tried, b, p), ids, left, x, Flatten(tried));
        if x !in left { err := -11; return; }
        left := left - {x};
      }
    }
    assert tried[..|tried|] == tried;
    assert left == {} <==> Elements(Flatten(tried)) == ids;
  }

  /** The elements of s are distinct, belong to ids and are the ones struck off. */
  ghost predicate Struck(s: seq<int>, ids: set<int>, left: set<int>) {
    Distinct(s) && Elements(s) <= ids && left == ids - Elements(s)
  }

  lemma NoneWalked(tried: seq<seq<int>>)
    ensures Flatten(tried[..0]) == [] && Distinct([]) && Elements([]) == {}
  {
  }

  lemma StrikeOne(s: seq<int>, ids: set<int>, left: set<int>, x: int, all: seq<int>)
    requires Struck(s, ids, left) && s + [x] <= all
    ensures x in left ==> Struck(s + [x], ids, left - {x})
    ensures x !in left ==> !(Distinct(all) && Elements(all) == ids)
  {
    var t := s + [x];
    if x in left {
      assert Elements(t) == Elements(s) + {x};
      forall i, j | 0 <= i < j < |t| ensures t[i] != t[j] {
        assert t[i] == s[i] && t[i] in Elements(s);
      }
    } else {
      assert all[|s|] == t[|s|] == x;
      if x in ids {
        assert x in Elements(s);
        var i :| 0 <= i < |s| && s[i] == x;
        assert t[i] == x && all[i] == x;
      } else {
        assert x in Elements(all);
      }
    }
  }

  /** New buckets before b that hold id, and b itself if id is among those done. */
  function Met(untried: seq<set<int>>, id: int, b: nat, done: set<int>): nat {
    |BucketsBelow(untried, id, b)| + if b < |untried| && id in untried[b] && id in done then 1 else 0
  }

  function BucketsBelow(untried: seq<set<int>>, id: int, b: nat): set<int> {
    set c | 0 <= c < b && c < |untried| && id in untried[c]
  }

  /** counts is what is left of counts0 after the ids met. */
  ghost predicate Remaining(untried: seq<set<int>>, counts0: map<int, int>, counts: map<int, int>, b: nat,
                            done: set<int>) {
    && (forall id :: id in counts0 ==> Met(untried, id, b, done) <= counts0[id])
    && (forall id :: id in counts <==> id in counts0 && Met(untried, id, b, done) < counts0[id])
    && (forall id :: id in counts ==> counts[id] == counts0[id] - Met(untried, id, b, done))
  }

  lemma MetStep(untried: seq<set<int>>, id: int, b: nat, done: set<int>, x: int)
    requires b < |untried| && x in untried[b] && x !in done
    ensures Met(untried, id, b, done + {x}) == Met(untried, id, b, done) + if id == x then 1 else 0
    ensures Met(untried, x, b, done) < |BucketsOf(untried, x)|
  {
    var below := BucketsBelow(untried, x, b);
    assert b !in below && below + {b} <= BucketsOf(untried, x);
    assert BucketsOf(untried, x) == (below + {b}) + (BucketsOf(untried, x) - (below + {b}));
  }

  lemma MetBucket(untried: seq<set<int>>, id: int, b: nat)
    requires b < |untried|
    ensures Met(untried, id, b, untried[b]) == Met(untried, id, b + 1, {})
  {
    var below := BucketsBelow(untried, id, b);
    if id in untried[b] {
      assert BucketsBelow(untried, id, b + 1) == below + {b};
    } else {
      assert BucketsBelow(untried, id, b + 1) == below;
    }
  }

  lemma MetEnds(untried: seq<set<int>>, id: int)
    ensures Met(untried, id, 0, {}) == 0 && Met(untried, id, |untried|, {}) == |BucketsOf(untried, id)|
  {
    assert BucketsBelow(untried, id, 0) == {};
    assert BucketsBelow(untried, id, |untried|) == BucketsOf(untried, id);
  }

  lemma CountOne(untried: seq<set<int>>, counts0: map<int, int>, counts: map<int, int>, b: nat, done: set<int>, x: int)
    requires b < |untried| && x in untried[b] && x !in done && Remaining(untried, counts0, counts, b, done)
    ensures x !in counts ==> !NewExact(untried, counts0)
    ensures x in counts && counts[x] == 1 ==> Remaining(untried, counts0, counts - {x}, b, done + {x})
    ensures x in counts && counts[x] != 1 ==> Remaining(untried, counts0, counts[x := counts[x] - 1], b, done + {x})
  {
    hide Met, BucketsOf;
    forall id ensures Met(untried, id, b, done + {x}) == Met(untried, id, b, done) + if id == x then 1 else 0 {
      MetStep(untried, id, b, done, x);
    }
    MetStep(untried, x, b, done, x);
  }

  lemma BucketCounted(untried: seq<set<int>>, counts0: map<int, int>, counts: map<int, int>, b: nat)
    requires b < |untried| && Remaining(untried, counts0, counts, b, untried[b])
    ensures Remaining(untried, counts0, counts, b + 1, {})
  {
    hide Met;
    forall id ensures Met(untried, id, b, untried[b]) == Met(untried, id, b + 1, {}) { MetBucket(untried, id, b); }
  }

  lemma CountEnds(untried: seq<set<int>>, counts0: map<int, int>)
    requires forall id :: id in counts0 ==> counts0[id] >= 1
    ensures Remaining(untried, counts0, counts0, 0, {})
    ensures forall counts :: Remaining(untried, counts0, counts, |untried|, {}) ==>
              (counts.Keys == {} <==> forall id :: id in counts0 ==> counts0[id] == |BucketsOf(untried, id)|)
  {
    hide Met, BucketsOf;
    forall id ensures Met(untried, id, 0, {}) == 0 && Met(untried, id, |untried|, {}) == |BucketsOf(untried, id)| {
      MetEnds(untried, id);
    }
    forall counts | Remaining(untried, counts0, counts, |untried|, {})
      ensures counts.Keys == {} <==> forall id :: id in counts0 ==> counts0[id] == |BucketsOf(untried, id)|
    {
      if counts.Keys == {} {
        forall id | id in counts0 ensures counts0[id] == |BucketsOf(untried, id)| { assert id !in counts; }
      } else {
        var id := PickOne(counts.Keys);
        assert id in counts;
      }
    }
  }

  /** Every new bucket entry uses up one reference, and all are used up. */
  method CheckNew(untried: seq<set<int>>, counts0: map<int, int>) returns (err: int, counts: map<int, int>)
    requires forall id :: id in counts0 ==> counts0[id] >= 1
    ensures err == 0 && counts.Keys == {} <==> NewExact(untried, counts0)
  {
    hide Met, Remaining, BucketsOf;
    err, counts := 0, counts0;
    CountEnds(untried, counts0);
    for b := 0 to |untried|
      invariant Remaining(untried, counts0, counts, b, {})
      invariant forall c, id :: 0 <= c < b && id in untried[c] ==> id in counts0
    {
      err, counts := CheckBucket(untried, b, counts0, counts);
      if err != 0 { return; }
    }
  }

  method CheckBucket(untried: seq<set<int>>, b: nat, ghost counts0: map<int, int>, before: map<int, int>)
    returns (err: int, counts: map<int, int>)
    requires b < |untried| && Remaining(untried, counts0, before, b, {})
    ensures err != 0 ==> !NewExact(untried, counts0)
    ensures err == 0 ==>
              Remaining(untried, counts0, counts, b + 1, {}) && forall id :: id in untried[b] ==> id in counts0
  {
    hide Met, Remaining, BucketsOf, NewExact;
    err, counts := 0, before;
    ghost var bucket := untried[b];
    var left := untried[b];
    assert bucket - left == {};
    while left != {}
      invariant left <= bucket && Remaining(untried, counts0, counts, b, bucket - left)
      invariant forall id :: id in bucket && id !in left ==> id in counts0
      decreases |left|
    {
      var x := Min(left);
      CountOne(untried, counts0, counts, b, bucket - left, x);
      InCounts0(untried, counts0, counts, b, bucket - left);
      assert bucket - left + {x} == bucket - (left - {x});
      if x !in counts { err := -12; return; }
      if counts[x] - 1 == 0 { counts := counts - {x}; } else { counts := counts[x := counts[x] - 1]; }
      left := left - {x};
    }
    assert bucket - left == bucket;
    BucketCounted(untried, counts0, counts, b);
  }

  lemma InCounts0(untried: seq<set<int>>, counts0: map<int, int>, counts: map<int, int>, b: nat, done: set<int>)
    requires Remaining(untried, counts0, counts, b, done)
    ensures forall id :: id in counts ==> id in counts0
  {
    hide Met;
  }

  /** Check_ returns zero exactly when every test passes. */
  method Check(am: CAddrMan) returns (err: int)
    ensures err == 0 <==> Passes(am.View())
  {
    hide EntryPasses, TriedExact, NewExact, Passes;
    ghost var st := am.View();
    PassesIs(st);
    if |am.random| != am.nTried + am.nNew { return -7; }
    var setTried, counts;
    err, setTried, counts := CheckEntries(am);
    assert am.View() == st;
    if err != 0 { return; }
    CountsPositive(st);
    if |setTried| != am.nTried { return -9; }
    assert counts.Keys == NewIds(am.info);
    if |counts.Keys| != am.nNew { return -10; }
    err, setTried := CheckTried(am.tried, setTried);
    assert am.View() == st;
    if err != 0 { return; }
    err, counts := CheckNew(am.untried, counts);
    assert am.View() == st;
    if err != 0 { return; }
    if setTried != {} { return -13; }
    if counts.Keys != {} { return -15; }
  }

  lemma PassesIs(st: State)
    ensures Passes(st) <==>
            && |st.random| == st.nTried + st.nNew
            && (forall id :: id in st.info ==> EntryPasses(st, id))
            && st.nTried == |TriedIds(st.info)| && st.nNew == |NewIds(st.info)|
            && TriedExact(st.tried, TriedIds(st.info)) && NewExact(st.untried, RefCounts(st.info))
  {
  }

  lemma CountsPositive(st: State)
    requires forall id :: id in st.info ==> EntryPasses(st, id)
    ensures forall id :: id in RefCounts(st.info) ==> RefCounts(st.info)[id] >= 1
  {
  }

  // ----- A consistent state passes -----

  lemma ConsistentPasses(st: State)
    requires Consistent(st, NONE) && TimesOk(st.info)
    ensures Passes(st)
  {
    hide TriedExact, NewExact, EntryPasses;
    SizesAdd(st);
    forall id | id in st.info ensures EntryPasses(st, id) { EntriesPass(st, id); }
    TriedListed(st);
    NewCounted(st);
  }

  lemma SizesAdd(st: State)
    requires Consistent(st, NONE)
    ensures |st.random| == st.nTried + st.nNew
  {
    hide NewOk, TriedOk, ShapeOk, IdsOk, AddrOk, TriedIds, NewIds;
    RandomDistinct(st.info, st.random);
    DistinctCount(st.random);
    forall id | id in st.info.Keys ensures id in Elements(st.random) { assert st.random[st.info[id].randomPos] == id; }
    assert Elements(st.random) == st.info.Keys;
    KindsAdd(st.info);
  }

  lemma EntriesPass(st: State, id: int)
    requires Consistent(st, NONE) && TimesOk(st.info) && id in st.info
    ensures EntryPasses(st, id)
  {
    assert TimeOk(st.info[id]);
    if !st.info[id].inTried { CountInRange(st, id); }
  }

  /** The ids listed in the first n tried buckets: those that hash there, each once. */
  lemma {:induction false} TriedListedUpTo(st: State, n: nat)
    requires TriedOk(st.hashes, st.key, st.info, st.tried) && n <= |st.tried|
    ensures Distinct(Flatten(st.tried[..n]))
    ensures forall id :: id in Flatten(st.tried[..n]) <==>
              id in st.info && st.info[id].inTried && TriedBucket(st.hashes, st.key, st.info[id]) < n
    decreases n
  {
    hide TriedBucket;
    if n > 0 {
      TriedListedUpTo(st, n - 1);
      assert st.tried[..n][..n - 1] == st.tried[..n - 1];
      var front, list := Flatten(st.tried[..n - 1]), st.tried[n - 1];
      assert Flatten(st.tried[..n]) == front + list;
      forall id | id in st.info && st.info[id].inTried && TriedBucket(st.hashes, st.key, st.info[id]) == n - 1
        ensures id in list
      {
        assert InBucket(st.tried, TriedBucket(st.hashes, st.key, st.info[id]), id);
      }
      assert forall id :: id in list ==> TriedBucket(st.hashes, st.key, st.info[id]) == n - 1;
      NoRepeatsDistinct(list);
      JoinDistinct(front, list);
    }
  }

  lemma NoRepeatsDistinct(s: seq<int>)
    requires NoRepeats(s)
    ensures Distinct(s)
  {
    hide NoRepeats;
    forall i, j | 0 <= i < j < |s| ensures s[i] != s[j] { Different(s, i, j); }
  }

  lemma JoinDistinct(a: seq<int>, b: seq<int>)
    requires Distinct(a) && Distinct(b) && forall x :: x in a ==> x !in b
    ensures Distinct(a + b)
  {
    var c := a + b;
    forall i, j | 0 <= i < j < |c| ensures c[i] != c[j] {
      if i < |a| <= j { assert a[i] in a && b[j - |a|] in b; }
    }
  }

  lemma TriedListed(st: State)
    requires Consistent(st, NONE)
    ensures TriedExact(st.tried, TriedIds(st.info))
  {
    hide RandomOk, AddrOk, NewOk, CountsOk, IdsOk, Flatten, Distinct, TriedOk;
    TriedListedUpTo(st, |st.tried|);
    assert st.tried[..|st.tried|] == st.tried;
    forall id ensures id in Elements(Flatten(st.tried)) <==> id in TriedIds(st.info) {}
  }

  lemma NewCounted(st: State)
    requires Consistent(st, NONE)
    ensures NewExact(st.untried, RefCounts(st.info))
  {
    hide RandomOk, AddrOk, TriedOk, CountsOk, IdsOk;
    assert RefCounts(st.info).Keys == NewIds(st.info);
    forall b, id | 0 <= b < |st.untried| && id in st.untried[b] ensures id in RefCounts(st.info) {
      assert id in NewIds(st.info);
    }
    forall id | id in RefCounts(st.info) ensures RefCounts(st.info)[id] == |BucketsOf(st.untried, id)| {
      assert RefCountOk(st.info[id].refCount, st.untried, id, NONE);
      assert id != NONE by { IdKnown(st, id); }
    }
  }

  lemma IdKnown(st: State, id: int)
    requires Consistent(st, NONE) && id in st.info
    ensures id >= 0
  {
  }

  // ----- What passing means -----

  /** Everything in Consistent but bucket sizes, hash placement, id numbers and stale addresses. */
  lemma PassingMeans(st: State)
    requires Passes(st) && NONE !in st.info
    ensures RandomOk(st.info, st.random) && CountsOk(st.info, st.nTried, st.nNew) && TimesOk(st.info)
    ensures NewOk(st.info, st.untried, NONE)
    ensures forall b, id :: 0 <= b < |st.tried| && id in st.tried[b] ==> id in st.info && st.info[id].inTried
    ensures forall id :: id in st.info && st.info[id].inTried ==> st.info[id].refCount == 0 && Listed(st.tried, id)
    ensures forall id :: id in st.info ==> AddrAt(st.addr, st.info[id].ip) == id
  {
    RandomFollows(st);
    NewFollows(st);
    TriedFollows(st.tried, TriedIds(st.info));
    hide Passes, RandomOk, NewOk, CountsOk, Listed;
    forall b, id | 0 <= b < |st.tried| && id in st.tried[b] ensures id in st.info && st.info[id].inTried {
      assert id in TriedIds(st.info);
    }
    forall id | id in st.info ensures TimeOk(st.info[id]) { PassesEntry(st, id); }
    forall id | id in st.info
      ensures AddrAt(st.addr, st.info[id].ip) == id && (st.info[id].inTried ==> st.info[id].refCount == 0)
    {
      PassesEntry(st, id);
    }
    PassesCounts(st);
    assert TimesOk(st.info);
  }

  ghost predicate Listed(tried: seq<seq<int>>, id: int) { exists b :: 0 <= b < |tried| && id in tried[b] }

  lemma PassesEntry(st: State, id: int)
    requires Passes(st) && id in st.info
    ensures EntryPasses(st, id)
  {
  }

  lemma PassesCounts(st: State)
    requires Passes(st)
    ensures CountsOk(st.info, st.nTried, st.nNew)
  {
  }

  /** As many positions as ids, and a position for each id: every position is taken. */
  lemma RandomFollows(st: State)
    requires Passes(st)
    ensures RandomOk(st.info, st.random)
  {
    hide EntryPasses, TriedIds, NewIds, TriedExact, NewExact;
    forall id | id in st.info
      ensures 0 <= st.info[id].randomPos < |st.random| && st.random[st.info[id].randomPos] == id
    {
      EntryPlaced(st, id);
    }
    KindsAdd(st.info);
    hide Passes;
    AllTaken(st.info, st.random);
  }

  lemma EntryPlaced(st: State, id: int)
    requires id in st.info && EntryPasses(st, id)
    ensures 0 <= st.info[id].randomPos < |st.random| && st.random[st.info[id].randomPos] == id
  {
  }

  lemma KindsAdd(info: map<int, AddrInfo>)
    ensures |info.Keys| == |TriedIds(info)| + |NewIds(info)|
  {
    assert info.Keys == TriedIds(info) + NewIds(info) && TriedIds(info) !! NewIds(info);
  }

  lemma AllTaken(info: map<int, AddrInfo>, random: seq<int>)
    requires |info.Keys| == |random|
    requires forall id :: id in info ==> 0 <= info[id].randomPos < |random| && random[info[id].randomPos] == id
    ensures RandomOk(info, random)
  {
    forall id | id in info ensures id in random { assert random[info[id].randomPos] == id; }
    assert info.Keys <= Elements(random);
    ElementsAtMost(random);
    SameSize(info.Keys, Elements(random));
    FullIsDistinct(random);
    forall i | 0 <= i < |random| ensures random[i] in info && info[random[i]].randomPos == i {
      var id := random[i];
      assert id in Elements(random);
    }
  }

  lemma {:induction false} ElementsAtMost(s: seq<int>)
    ensures |Elements(s)| <= |s|
    decreases |s|
  {
    if s != [] {
      var n := |s| - 1;
      ElementsAtMost(s[..n]);
      assert s == s[..n] + [s[n]];
      assert Elements(s) == Elements(s[..n]) + {s[n]};
    }
  }

  lemma SameSize(a: set<int>, b: set<int>)
    requires a <= b && |a| >= |b|
    ensures a == b
  {
    assert b == a + (b - a);
    assert |b - a| == 0;
  }

  lemma FullIsDistinct(s: seq<int>)
    requires |Elements(s)| == |s|
    ensures Distinct(s)
  {
    forall i, j | 0 <= i < j < |s| ensures s[i] != s[j] {
      if s[i] == s[j] { RepeatIsSmaller(s, i, j); }
    }
  }

  lemma RepeatIsSmaller(s: seq<int>, i: nat, j: nat)
    requires i < j < |s| && s[i] == s[j]
    ensures |Elements(s)| < |s|
  {
    var t := s[..j] + s[j + 1..];
    assert t[i] == s[i];
    forall x | x in Elements(s) ensures x in Elements(t) {
      var k :| 0 <= k < |s| && s[k] == x;
      assert k < j ==> t[k] == x;
      assert k > j ==> t[k - 1] == x;
    }
    assert Elements(t) == Elements(s) + (Elements(t) - Elements(s));
    ElementsAtMost(t);
  }

  lemma NewFollows(st: State)
    requires Passes(st) && NONE !in st.info
    ensures NewOk(st.info, st.untried, NONE)
  {
    hide TriedExact;
    assert RefCounts(st.info).Keys == NewIds(st.info);
    forall b, id | 0 <= b < |st.untried| && id in st.untried[b] ensures id in st.info && !st.info[id].inTried {
      assert id in RefCounts(st.info);
      assert id in NewIds(st.info);
    }
    forall id | id in st.info && !st.info[id].inTried ensures RefCountOk(st.info[id].refCount, st.untried, id, NONE) {
      assert EntryPasses(st, id);
      assert id in RefCounts(st.info);
    }
  }

  lemma TriedFollows(tried: seq<seq<int>>, ids: set<int>)
    requires TriedExact(tried, ids)
    ensures forall b, id :: 0 <= b < |tried| && id in tried[b] ==> id in ids
    ensures forall id :: id in ids ==> Listed(tried, id)
  {
    hide Distinct;
    ListedIs(tried);
    forall b, id | 0 <= b < |tried| && id in tried[b] ensures id in ids {
      assert Listed(tried, id);
      assert id in Elements(Flatten(tried));
    }
    forall id | id in ids ensures Listed(tried, id) { assert id in Elements(Flatten(tried)); }
  }

  lemma {:induction false} ListedIs(tried: seq<seq<int>>)
    ensures forall id :: id in Flatten(tried) <==> Listed(tried, id)
    decreases |tried|
  {
    if tried != [] {
      var n := |tried| - 1;
      ListedIs(tried[..n]);
      forall id ensures Listed(tried, id) <==> Listed(tried[..n], id) || id in tried[n] {
        if Listed(tried, id) {
          var b :| 0 <= b < |tried| && id in tried[b];
          assert b < n ==> id in tried[..n][b];
        }
        if Listed(tried[..n], id) {
          var b :| 0 <= b < n && id in tried[..n][b];
          assert id in tried[b];
        }
      }
    }
  }
}
