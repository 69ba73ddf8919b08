/**
 * The stake modifier: 64 rounds that each take the entropy bit of one more
 * recent block.  Source: src/kernel.cpp, GetLastStakeModifier,
 * SelectBlockFromCandidates, ComputeNextStakeModifier, GetKernelStakeModifier.
 * The selection hash is a parameter; a branch of the block index is a sequence
 * from the genesis block to its tip.
 */
module StakeModifier {
  import opened Bytes
  import opened Sorting

  const MODIFIER_INTERVAL: nat := 30 * 60
  const MODIFIER_INTERVAL_RATIO: nat := 3
  const ROUNDS: nat := 64

  datatype Blk = Blk(hash: nat, time: nat, isStake: bool, hashProofOfStake: nat, entropy: bool, modifier: nat,
                     generated: bool)

  type Index = map<nat, Blk>

  /** Hash of a proof hash and the previous modifier. */
  type SelectionHash = (nat, nat) -> nat

  // ----- Interval sections -----

  function Section(round: nat): (r: nat)
    requires round < ROUNDS
    ensures r > 0
  {
    MODIFIER_INTERVAL * 63 / (63 + (63 - round) * (MODIFIER_INTERVAL_RATIO - 1))
  }

  /** Time covered by the first k sections. */
  function Sections(k: nat): nat
    requires k <= ROUNDS
  {
    if k == 0 then 0 else Sections(k - 1) + Section(k - 1)
  }

  lemma SectionsStep(k: nat)
    requires k <= ROUNDS
    ensures Sections(k) == if k == 0 then 0 else Sections(k - 1) + Section(k - 1)
  {
  }

    /** Sections never get shorter, and the last is three times as long as the first. */
  lemma SectionsGrow(a: nat, b: nat)
    requires a <= b < ROUNDS
    ensures Section(a) <= Section(b)
    ensures Section(63) == MODIFIER_INTERVAL_RATIO * Section(0) == MODIFIER_INTERVAL
  {
    QuotientGrows(MODIFIER_INTERVAL * 63, 63 + (63 - b) * 2, 63 + (63 - a) * 2);
  }

  method GetStakeModifierSelectionInterval() returns (r: nat)
    ensures r == Interval()
  {
    hide Sections, Section;
    r := 0;
    SectionsStep(0);
    for section := 0 to ROUNDS
      invariant r == Sections(section)
    {
      SectionsStep(section + 1);
      r := r + Section(section);
    }
  }

  function Interval(): nat { Sections(ROUNDS) }

  /** Where the selection window of a tip begins; it ends at the tip's last interval boundary. */
  function Start(tipTime: nat): int { tipTime / MODIFIER_INTERVAL * MODIFIER_INTERVAL - Interval() }

  function Stop(start: int, round: nat): int
    requires round < ROUNDS
  {
    start + Sections(round + 1)
  }

  // ----- Bits -----

  function Bit(m: nat, r: nat): bool { if r == 0 then m % 2 == 1 else Bit(m / 2, r - 1) }

  /** m | (bit << r) */
  function OrBit(m: nat, r: nat, bit: bool): nat { if bit && !Bit(m, r) then m + Pow2(r) else m }

  /** The number with these bits, least significant first. */
  function Value(bits: seq<bool>): nat {
    if bits == [] then 0 else (if bits[0] then 1 else 0) + 2 * Value(bits[1..])
  }

  lemma {:induction false} ValueBits(bits: seq<bool>, r: nat)
    ensures Bit(Value(bits), r) == (r < |bits| && bits[r])
    decreases r
  {
    var rest := if bits == [] then [] else bits[1..];
    assert Value(bits) / 2 == Value(rest);
    if r > 0 { ValueBits(rest, r - 1); }
  }

  lemma {:induction false} ValueAppend(bits: seq<bool>, bit: bool)
    ensures Value(bits + [bit]) == Value(bits) + if bit then Pow2(|bits|) else 0
    decreases |bits|
  {
    if bits != [] {
      ValueAppend(bits[1..], bit);
      assert (bits + [bit])[1..] == bits[1..] + [bit];
    }
  }

  lemma {:induction false} ValueBound(bits: seq<bool>)
    ensures Value(bits) < Pow2(|bits|)
    decreases |bits|
  {
    if bits != [] { ValueBound(bits[1..]); }
  }

  // ----- Sorting candidates by time, then hash -----

  type Pair = (nat, nat)

  predicate AtMost(a: Pair, b: Pair) { a.0 < b.0 || (a.0 == b.0 && a.1 <= b.1) }

  function ByTime(s: seq<Pair>): seq<Pair> { Sort(s, AtMost) }

  lemma ByTimeFacts(s: seq<Pair>)
    ensures Ordered(ByTime(s), AtMost) && multiset(ByTime(s)) == multiset(s)
  {
    SortFacts(s, AtMost);
  }

  // ----- One round -----

  /** Proof-of-stake blocks are favoured by a factor of 2^32. */
  function SelHash(h: SelectionHash, b: Blk, prev: nat): nat {
    if b.isStake then h(b.hashProofOfStake, prev) / 0x1_0000_0000 else h(b.hash, prev)
  }

  datatype Round = Round(h: SelectionHash, prev: nat, cands: seq<Blk>, selected: set<nat>, stop: int)

  predicate Free(c: Round, k: int)
    requires 0 <= k < |c.cands|
  {
    c.cands[k].hash !in c.selected
  }

  predicate Early(c: Round, k: int)
    requires 0 <= k < |c.cands|
  {
    c.cands[k].time <= c.stop
  }

  function Key(c: Round, k: int): nat
    requires 0 <= k < |c.cands|
  {
    SelHash(c.h, c.cands[k], c.prev)
  }

  /** The unselected candidate of least selection hash up to the stop time, or else the earliest unselected one. */
  ghost predicate IsPick(c: Round, i: int) {
    && 0 <= i < |c.cands| && Free(c, i)
    && (Early(c, i) ==> forall k :: 0 <= k < |c.cands| && Free(c, k) && Early(c, k) ==>
          Key(c, i) <= Key(c, k) && (Key(c, i) == Key(c, k) ==> i <= k))
    && (!Early(c, i) ==> forall k :: 0 <= k < |c.cands| && Free(c, k) ==> i <= k)
  }

  ghost predicate TimeOrdered(cands: seq<Blk>) {
    forall i, j :: 0 <= i < j < |cands| ==> cands[i].time <= cands[j].time
  }

  ghost predicate DistinctHashes(s: seq<Blk>) { forall i, j :: 0 <= i < j < |s| ==> s[i].hash != s[j].hash }

  /** A round has at most one pick. */
  lemma PickIsUnique(c: Round, i: int, j: int)
    requires TimeOrdered(c.cands) && IsPick(c, i) && IsPick(c, j)
    ensures i == j
  {
  }

  /** The loop from candidate k, with the best one so far. */
  function Scan(c: Round, k: nat, best: Option<nat>): (r: Option<nat>)
    requires k <= |c.cands| && (best.Some? ==> best.value < k)
    ensures r.Some? ==> r.value < |c.cands|
    decreases |c.cands| - k
  {
    if k == |c.cands| then best
    else if best.Some? && !Early(c, k) then best
    else if !Free(c, k) then Scan(c, k + 1, best)
    else if best.Some? && Key(c, k) >= Key(c, best.value) then Scan(c, k + 1, best)
    else Scan(c, k + 1, Some(k))
  }

  /** best is the pick among the first k candidates. */
  ghost predicate BestSoFar(c: Round, k: nat, best: Option<nat>) {
    && (best.None? ==> forall j :: 0 <= j < k && j < |c.cands| ==> !Free(c, j))
    && (best.Some? ==> best.value < k <= |c.cands| && IsPick(c.(cands := c.cands[..k]), best.value))
  }

  lemma {:induction false} ScanPicks(c: Round, k: nat, best: Option<nat>)
    requires k <= |c.cands| && TimeOrdered(c.cands) && BestSoFar(c, k, best)
    ensures Scan(c, k, best).Some? ==> IsPick(c, Scan(c, k, best).value)
    ensures Scan(c, k, best).None? ==> forall j :: 0 <= j < |c.cands| ==> !Free(c, j)
    decreases |c.cands| - k
  {
    if k == |c.cands| {
      assert c.cands[..k] == c.cands;
    } else if best.Some? && !Early(c, k) {
      StopsEarly(c, k, best.value);
    } else {
      BestStep(c, k, best);
      if !Free(c, k) { ScanPicks(c, k + 1, best); }
      else if best.Some? && Key(c, k) >= Key(c, best.value) { ScanPicks(c, k + 1, best); }
      else { ScanPicks(c, k + 1, Some(k)); }
    }
  }

  lemma StopsEarly(c: Round, k: nat, i: nat)
    requires i < k < |c.cands| && TimeOrdered(c.cands) && IsPick(c.(cands := c.cands[..k]), i) && !Early(c, k)
    ensures IsPick(c, i)
  {
    var d := c.(cands := c.cands[..k]);
    assert forall j :: 0 <= j < k ==> d.cands[j] == c.cands[j];
    forall j | 0 <= j < |c.cands| && Free(c, j) && Early(c, j) ensures j < k {}
    forall j | 0 <= j < k ensures Free(c, j) == Free(d, j) && Early(c, j) == Early(d, j) && Key(c, j) == Key(d, j) {}
  }

  lemma BestStep(c: Round, k: nat, best: Option<nat>)
    requires k < |c.cands| && TimeOrdered(c.cands) && BestSoFar(c, k, best) && (best.Some? ==> Early(c, k))
    ensures !Free(c, k) ==> BestSoFar(c, k + 1, best)
    ensures Free(c, k) && best.Some? && Key(c, k) >= Key(c, best.value) ==> BestSoFar(c, k + 1, best)
    ensures Free(c, k) && (best.None? || Key(c, k) < Key(c, best.value)) ==> BestSoFar(c, k + 1, Some(k))
  {
    var d, e := c.(cands := c.cands[..k]), c.(cands := c.cands[..k + 1]);
    forall j | 0 <= j < k
      ensures Free(c, j) == Free(d, j) && Early(c, j) == Early(d, j) && Key(c, j) == Key(d, j)
      ensures Free(c, j) == Free(e, j) && Early(c, j) == Early(e, j) && Key(c, j) == Key(e, j)
    {
    }
    assert e.cands[k] == c.cands[k];
  }

  // ----- All rounds -----

  /** What the rounds share: the hash, the previous modifier, the sorted candidates and the window's start. */
  datatype Draw = Draw(h: SelectionHash, prev: nat, cands: seq<Blk>, start: int)

  function HashesOf(cands: seq<Blk>, picks: seq<nat>): set<nat> {
    set k | k in picks && k < |cands| :: cands[k].hash
  }

  /** The round after these picks. */
  function RoundAfter(d: Draw, picks: seq<nat>): Round
    requires |picks| < ROUNDS
  {
    Round(d.h, d.prev, d.cands, HashesOf(d.cands, picks), Stop(d.start, |picks|))
  }

  function Picks(d: Draw, r: nat): (p: seq<nat>)
    requires r <= ROUNDS
    ensures |p| == r
  {
    if r == 0 then []
    else
      var p := Picks(d, r - 1);
      var s := Scan(RoundAfter(d, p), 0, None);
      p + [if s.Some? then s.value else 0]
  }

  function RoundCount(d: Draw): nat { if |d.cands| < ROUNDS then |d.cands| else ROUNDS }

  /** A list that covers 0 .. n-1 is at least n long. */
  lemma {:induction false} CoverIsLong(p: seq<nat>, n: nat)
    requires forall k: nat :: k < n ==> k in p
    ensures |p| >= n
    decreases n
  {
    if n > 0 {
      var last := n - 1;
      assert last in p;
      var i :| 0 <= i < |p| && p[i] == last;
      var rest := p[..i] + p[i + 1..];
      forall k: nat | k < last ensures k in rest {
        assert k in p;
        var j :| 0 <= j < |p| && p[j] == k;
        assert j < i ==> rest[j] == k;
        assert j > i ==> rest[j - 1] == k;
      }
      CoverIsLong(rest, last);
    }
  }

  lemma PickedSame(cands: seq<Blk>, picks: seq<nat>, k: nat)
    requires DistinctHashes(cands) && k < |cands| && cands[k].hash in HashesOf(cands, picks)
    ensures k in picks
  {
    var j :| j in picks && j < |cands| && cands[j].hash == cands[k].hash;
    assert j == k;
  }

  /** While picks are fewer than candidates, one is free. */
  lemma SomeFree(d: Draw, picks: seq<nat>)
    requires |picks| < ROUNDS && |picks| < |d.cands| && DistinctHashes(d.cands)
    requires forall i :: 0 <= i < |picks| ==> picks[i] < |d.cands|
    ensures forall k: nat :: k < |d.cands| ==> (Free(RoundAfter(d, picks), k) <==> k !in picks)
    ensures exists k: nat :: k < |d.cands| && Free(RoundAfter(d, picks), k)
  {
    var c := RoundAfter(d, picks);
    forall k: nat | k < |d.cands| ensures Free(c, k) <==> k !in picks {
      if k in picks { assert d.cands[k].hash in c.selected; }
      if !Free(c, k) { PickedSame(d.cands, picks, k); }
    }
    if forall k: nat :: k < |d.cands| ==> k in picks { CoverIsLong(picks, |d.cands|); }
  }

  /** Each round picks, by the rule, a candidate not picked before. */
  lemma {:induction false} EveryRoundPicks(d: Draw, r: nat)
    requires r <= RoundCount(d) && TimeOrdered(d.cands) && DistinctHashes(d.cands)
    ensures forall i :: 0 <= i < r ==> Picks(d, r)[i] < |d.cands| && Picks(d, r)[i] !in Picks(d, r)[..i]
    ensures forall i :: 0 <= i < r ==> IsPick(RoundAfter(d, Picks(d, r)[..i]), Picks(d, r)[i])
    decreases r
  {
    hide Interval, IsPick, Free, Scan, TimeOrdered, DistinctHashes;
    if r > 0 {
      EveryRoundPicks(d, r - 1);
      var p, q := Picks(d, r - 1), Picks(d, r);
      var c := RoundAfter(d, p);
      SomeFree(d, p);
      StartsEmpty(c);
      ScanPicks(c, 0, None);
      assert q == p + [Scan(c, 0, None).value];
      PickIsFree(c, q[r - 1]);
      forall i | 0 <= i < r ensures q[..i] == p[..i] {}
      assert q[..r - 1] == p && p[..r - 1] == p;
    }
  }

  lemma StartsEmpty(c: Round)
    ensures BestSoFar(c, 0, None)
  {
  }

  lemma PickIsFree(c: Round, i: int)
    requires IsPick(c, i)
    ensures 0 <= i < |c.cands| && Free(c, i)
  {
  }

  /** Entropy bits in the order of the picks. */
  function PickedBits(d: Draw, r: nat): (bits: seq<bool>)
    requires r <= ROUNDS
    ensures |bits| == r
  {
    seq(r, i requires 0 <= i < r => var k := Picks(d, r)[i]; k < |d.cands| && d.cands[k].entropy)
  }

  lemma PickedBitsStep(d: Draw, r: nat)
    requires r < ROUNDS
    ensures var s := Scan(RoundAfter(d, Picks(d, r)), 0, None);
            s.Some? ==> Picks(d, r + 1) == Picks(d, r) + [s.value]
                        && PickedBits(d, r + 1) == PickedBits(d, r) + [d.cands[s.value].entropy]
  {
  }

  // ----- Candidates -----

  /** First block of the unbroken run of blocks not older than start that ends at k. */
  function FirstIn(chain: seq<Blk>, start: int, k: nat): (r: nat)
    requires k <= |chain|
    ensures r <= k
  {
    if k == 0 || chain[k - 1].time < start then k else FirstIn(chain, start, k - 1)
  }

  function Window(chain: seq<Blk>, start: int): seq<Blk> { chain[FirstIn(chain, start, |chain|)..] }

  function PairsOf(s: seq<Blk>): (r: seq<Pair>)
    ensures |r| == |s| && forall i :: 0 <= i < |s| ==> r[i] == (s[i].time, s[i].hash)
  {
    seq(|s|, i requires 0 <= i < |s| => (s[i].time, s[i].hash))
  }

  /** The index holds every block of the branch under its own hash. */
  ghost predicate IndexOk(index: Index, chain: seq<Blk>) {
    && (forall i :: 0 <= i < |chain| ==> chain[i].hash in index && index[chain[i].hash] == chain[i])
    && DistinctHashes(chain)
  }

  /** Each pair is the time and hash of an indexed block. */
  ghost predicate Indexed(index: Index, pairs: seq<Pair>) {
    forall i :: 0 <= i < |pairs| ==>
      var (time, hash) := pairs[i];
      hash in index && index[hash].hash == hash && index[hash].time == time
  }

  ghost function Lookup(index: Index, pairs: seq<Pair>): (r: seq<Blk>)
    requires Indexed(index, pairs)
    ensures |r| == |pairs| && forall i :: 0 <= i < |pairs| ==> r[i] == index[pairs[i].1]
  {
    seq(|pairs|, i requires 0 <= i < |pairs| => index[pairs[i].1])
  }

  lemma {:induction false} PairsDistinct(pairs: seq<Pair>, qairs: seq<Pair>)
    requires multiset(pairs) == multiset(qairs)
    requires forall i, j :: 0 <= i < j < |pairs| ==> pairs[i].1 != pairs[j].1
    ensures forall i, j :: 0 <= i < j < |qairs| ==> qairs[i].1 != qairs[j].1
  {
    forall i, j | 0 <= i < j < |qairs| ensures qairs[i].1 != qairs[j].1 {
      var a, b := qairs[i], qairs[j];
      assert a in multiset(pairs) && b in multiset(pairs);
      var k :| 0 <= k < |pairs| && pairs[k] == a;
      var l :| 0 <= l < |pairs| && pairs[l] == b;
      if k == l {
        TwiceCounts(qairs, i, j);
        OnceCounts(pairs, k);
      }
    }
  }

  lemma TwiceCounts(s: seq<Pair>, i: nat, j: nat)
    requires i < j < |s| && s[i] == s[j]
    ensures multiset(s)[s[i]] >= 2
  {
    assert s == s[..i] + [s[i]] + s[i + 1..j] + [s[j]] + s[j + 1..];
  }

  lemma OnceCounts(s: seq<Pair>, k: nat)
    requires k < |s| && forall i, j :: 0 <= i < j < |s| ==> s[i].1 != s[j].1
    ensures multiset(s)[s[k]] == 1
  {
    assert s == s[..k] + [s[k]] + s[k + 1..];
    assert s[k] !in s[..k] && s[k] !in s[k + 1..];
  }

  /** The candidates: the window's blocks, each once, by time. */
  lemma CandidatesAre(index: Index, s: seq<Blk>)
    requires IndexOk(index, s)
    ensures var pairs := ByTime(PairsOf(s));
            && Indexed(index, pairs) && TimeOrdered(Lookup(index, pairs)) && DistinctHashes(Lookup(index, pairs))
            && |pairs| == |s| && forall b :: b in Lookup(index, pairs) <==> b in s
  {
    hide ByTime;
    var pairs, sorted := PairsOf(s), ByTime(PairsOf(s));
    ByTimeFacts(pairs);
    assert |sorted| == |multiset(sorted)|;
    forall i | 0 <= i < |sorted|
      ensures exists k :: 0 <= k < |s| && sorted[i] == (s[k].time, s[k].hash)
    {
      assert sorted[i] in multiset(pairs);
      var k :| 0 <= k < |pairs| && pairs[k] == sorted[i];
    }
    PairsDistinct(pairs, sorted);
    var found := Lookup(index, sorted);
    forall b | b in s ensures b in found {
      var k :| 0 <= k < |s| && s[k] == b;
      assert pairs[k] in multiset(sorted);
      var i :| 0 <= i < |sorted| && sorted[i] == pairs[k];
      assert found[i] == b;
    }
    forall b | b in found ensures b in s {
      var i :| 0 <= i < |found| && found[i] == b;
      var k :| 0 <= k < |s| && sorted[i] == (s[k].time, s[k].hash);
    }
  }

  // ----- The code -----

  /** Position of the last block at or below k that generated a modifier, or the genesis block. */
  function LastGenerated(chain: seq<Blk>, k: nat): (r: nat)
    requires k < |chain|
    ensures r <= k && (forall i :: r < i <= k ==> !chain[i].generated)
    ensures chain[r].generated || r == 0
  {
    if k == 0 || chain[k].generated then k else LastGenerated(chain, k - 1)
  }

  /** Fails exactly when no block up to the tip generated a modifier. */
  method GetLastStakeModifier(chain: seq<Blk>) returns (r: Option<Blk>)
    ensures r.Some? <==> exists i :: 0 <= i < |chain| && chain[i].generated
    ensures r.Some? ==> r.value == chain[LastGenerated(chain, |chain| - 1)]
  {
    if chain == [] { return None; }
    var k := |chain| - 1;
    while k > 0 && !chain[k].generated
      invariant 0 <= k < |chain|
      invariant forall i :: k < i < |chain| ==> !chain[i].generated
      invariant LastGenerated(chain, k) == LastGenerated(chain, |chain| - 1)
    {
      k := k - 1;
    }
    r := if chain[k].generated then Some(chain[k]) else None;
  }

  method SelectBlockFromCandidates(h: SelectionHash, index: Index, sorted: seq<Pair>, selected: set<nat>, stop: int,
                                   prev: nat)
    returns (r: Option<Blk>)
    ensures Indexed(index, sorted) ==>
              var s := Scan(Round(h, prev, Lookup(index, sorted), selected, stop), 0, None);
              r == if s.Some? then Some(index[sorted[s.value].1]) else None
  {
    var fSelected, hashBest := false, 0;
    r := None;
    ghost var best: Option<nat> := None;
    ghost var ok := Indexed(index, sorted);
    ghost var c := Round(h, prev, if ok then Lookup(index, sorted) else [], selected, stop);
    var k := 0;
    while k < |sorted|
      invariant 0 <= k <= |sorted| && (ok ==> |c.cands| == |sorted|)
      invariant fSelected == best.Some? && (fSelected ==> best.value < k)
      invariant ok ==> Scan(c, k, best) == Scan(c, 0, None)
      invariant ok && fSelected ==> hashBest == Key(c, best.value) && r == Some(c.cands[best.value])
      invariant !fSelected ==> r == None
    {
      if sorted[k].1 !in index { return None; }
      var b := index[sorted[k].1];
      if fSelected && b.time > stop { break; }
      if b.hash !in selected {
        var hashSelection := SelHash(h, b, prev);
        if !fSelected || hashSelection < hashBest {
          fSelected, hashBest, r := true, hashSelection, Some(b);
          best := Some(k);
        }
      }
      k := k + 1;
    }
  }

  /** The inputs of the draw made on a branch with this previous modifier. */
  ghost function DrawOn(h: SelectionHash, index: Index, chain: seq<Blk>, prev: nat): Draw
    requires chain != [] && IndexOk(index, chain)
  {
    var start := Start(chain[|chain| - 1].time);
    WindowIndexed(index, chain, start);
    Draw(h, prev, Lookup(index, ByTime(PairsOf(Window(chain, start)))), start)
  }

  lemma WindowIndexed(index: Index, chain: seq<Blk>, start: int)
    requires IndexOk(index, chain)
    ensures IndexOk(index, Window(chain, start)) && Indexed(index, ByTime(PairsOf(Window(chain, start))))
  {
    var s := Window(chain, start);
    assert IndexOk(index, s);
    CandidatesAre(index, s);
  }

  /** The walk back from the tip. */
  method CollectCandidates(chain: seq<Blk>, start: int) returns (pairs: seq<Pair>)
    ensures pairs == PairsOf(Window(chain, start))
  {
    hide FirstIn;
    pairs := [];
    var k := |chain|;
    ghost var first := FirstIn(chain, start, |chain|);
    while k > 0 && chain[k - 1].time >= start
      invariant 0 <= k <= |chain| && FirstIn(chain, start, k) == first
      invariant pairs == PairsOf(chain[k..])
    {
      FirstInStep(chain, start, k);
      k := k - 1;
      pairs := [(chain[k].time, chain[k].hash)] + pairs;
      assert chain[k..] == [chain[k]] + chain[k + 1..];
    }
    FirstInStep(chain, start, k);
  }

  lemma FirstInStep(chain: seq<Blk>, start: int, k: nat)
    requires k <= |chain|
    ensures FirstIn(chain, start, k) == if k == 0 || chain[k - 1].time < start then k else FirstIn(chain, start, k - 1)
  {
  }

  datatype Outcome = Failed | Kept(modifier: nat) | Generated(modifier: nat)

  /** The modifier of the draw: one bit per round. */
  ghost function DrawnModifier(d: Draw): nat { Value(PickedBits(d, RoundCount(d))) }

  method DrawModifier(h: SelectionHash, index: Index, sorted: seq<Pair>, start: int, prev: nat) returns (r: Option<nat>)
    ensures Indexed(index, sorted) && TimeOrdered(Lookup(index, sorted)) && DistinctHashes(Lookup(index, sorted)) ==>
              r == Some(DrawnModifier(Draw(h, prev, Lookup(index, sorted), start)))
  {
    hide TimeOrdered, DistinctHashes, Scan, Picks, PickedBits, Bit, Value, HashesOf, Interval, Lookup, Indexed;
    var modifier, stop, selected := 0, start, {};
    ghost var ok := Indexed(index, sorted)
                    && TimeOrdered(Lookup(index, sorted)) && DistinctHashes(Lookup(index, sorted));
    ghost var d := Draw(h, prev, if ok then Lookup(index, sorted) else [], start);
    var rounds := if |sorted| < ROUNDS then |sorted| else ROUNDS;
    var round := 0;
    DrawStart(d);
    while round < rounds
      invariant 0 <= round <= rounds && stop == start + Sections(round)
      invariant ok ==> selected == HashesOf(d.cands, Picks(d, round)) && modifier == Value(PickedBits(d, round))
    {
      stop := stop + Section(round);
      if ok { DrawStep(d, round); }
      var b := SelectBlockFromCandidates(h, index, sorted, selected, stop, prev);
      if b.None? { return None; }
      modifier := OrBit(modifier, round, b.value.entropy);
      selected := selected + {b.value.hash};
      round := round + 1;
    }
    r := Some(modifier);
  }

  lemma DrawStart(d: Draw)
    ensures HashesOf(d.cands, Picks(d, 0)) == {} && Value(PickedBits(d, 0)) == 0
  {
  }

  /** One round: something is picked, its bit is added, its hash is marked. */
  lemma DrawStep(d: Draw, r: nat)
    requires r < RoundCount(d) && TimeOrdered(d.cands) && DistinctHashes(d.cands)
    ensures var s := Scan(RoundAfter(d, Picks(d, r)), 0, None);
            && s.Some?
            && Value(PickedBits(d, r + 1)) == OrBit(Value(PickedBits(d, r)), r, d.cands[s.value].entropy)
            && HashesOf(d.cands, Picks(d, r + 1)) == HashesOf(d.cands, Picks(d, r)) + {d.cands[s.value].hash}
  {
    hide Interval, TimeOrdered, DistinctHashes, Scan, Picks, Bit, Value, PickedBits, Free;
    var p, bits := Picks(d, r), PickedBits(d, r);
    EveryRoundPicks(d, r);
    SomeFree(d, p);
    StartsEmpty(RoundAfter(d, p));
    ScanPicks(RoundAfter(d, p), 0, None);
    PickedBitsStep(d, r);
    var s := Scan(RoundAfter(d, p), 0, None);
    ValueAppend(bits, d.cands[s.value].entropy);
    ValueBits(bits, r);
    MarkOne(d.cands, p, s.value);
  }

  lemma MarkOne(cands: seq<Blk>, p: seq<nat>, k: nat)
    requires k < |cands|
    ensures HashesOf(cands, p + [k]) == HashesOf(cands, p) + {cands[k].hash}
  {
  }

  method ComputeNextStakeModifier(h: SelectionHash, index: Index, chain: seq<Blk>) returns (r: Outcome)
    ensures chain == [] ==> r == Generated(0)
    ensures IndexOk(index, chain) && chain != [] ==>
              (r.Failed? <==> forall i :: 0 <= i < |chain| ==> !chain[i].generated)
    ensures IndexOk(index, chain) && chain != [] && !r.Failed? ==>
              var last, tip := chain[LastGenerated(chain, |chain| - 1)], chain[|chain| - 1];
              r == if last.time / MODIFIER_INTERVAL >= tip.time / MODIFIER_INTERVAL then Kept(last.modifier)
                   else Generated(DrawnModifier(DrawOn(h, index, chain, last.modifier)))
  {
    hide ByTime, Window, TimeOrdered, DistinctHashes, IndexOk, Indexed, Interval, Lookup, PickedBits, Picks,
         LastGenerated, DrawnModifier;
    if chain == [] { return Generated(0); }
    var last := GetLastStakeModifier(chain);
    if last.None? { return Failed; }
    var tipTime := chain[|chain| - 1].time;
    if last.value.time / MODIFIER_INTERVAL >= tipTime / MODIFIER_INTERVAL { return Kept(last.value.modifier); }
    var interval := GetStakeModifierSelectionInterval();
    var start := tipTime / MODIFIER_INTERVAL * MODIFIER_INTERVAL - interval;
    var pairs := CollectCandidates(chain, start);
    pairs := ByTime(pairs);
    if IndexOk(index, chain) {
      WindowIndexed(index, chain, start);
      CandidatesAre(index, Window(chain, start));
    }
    var m := DrawModifier(h, index, pairs, start, last.value.modifier);
    if m.None? { return Failed; }
    r := Generated(m.value);
  }

  // ----- What the draw promises -----

  /**
   * A draw takes min(64, candidates) different blocks of the window, each by the
   * rule; bit r of the modifier is the r-th one's entropy bit, other bits are zero.
   */
  lemma DrawIsFair(h: SelectionHash, index: Index, chain: seq<Blk>, prev: nat)
    requires chain != [] && IndexOk(index, chain)
    ensures var d := DrawOn(h, index, chain, prev);
            var n, p := RoundCount(d), Picks(d, RoundCount(d));
            && (forall b :: b in d.cands <==> b in Window(chain, d.start))
            && (forall i :: 0 <= i < n ==> p[i] < |d.cands| && p[i] !in p[..i])
            && (forall i :: 0 <= i < n ==> IsPick(RoundAfter(d, p[..i]), p[i]))
            && (forall r: nat :: Bit(DrawnModifier(d), r) == (r < n && d.cands[p[r]].entropy))
            && DrawnModifier(d) < Pow2(64)
  {
    hide Interval, Picks, Scan, TimeOrdered, DistinctHashes, ByTime, IsPick, Bit, Value, Pow2, Window, IndexOk, Indexed;
    var d := DrawOn(h, index, chain, prev);
    WindowIndexed(index, chain, d.start);
    CandidatesAre(index, Window(chain, d.start));
    var n := RoundCount(d);
    EveryRoundPicks(d, n);
    forall r: nat ensures Bit(DrawnModifier(d), r) == (r < n && PickedBits(d, n)[r]) { ValueBits(PickedBits(d, n), r); }
    ValueBound(PickedBits(d, n));
    PowGrows(n, 64);
  }

  lemma {:induction false} PowGrows(a: nat, b: nat)
    requires a <= b
    ensures Pow2(a) <= Pow2(b)
    decreases b
  {
    if a < b { PowGrows(a, b - 1); }
  }

  /** The last round may choose up to the window's end, the tip's last interval boundary. */
  lemma LastStop(tipTime: nat)
    ensures Stop(Start(tipTime), ROUNDS - 1) == tipTime / MODIFIER_INTERVAL * MODIFIER_INTERVAL <= tipTime
  {
    hide Sections;
  }

  // ----- Proof of stake against proof of work -----

  /**
   * By the hashes themselves: a may be picked although b is there.  Two blocks of one kind are compared
   * by their hashes, proof of stake up to the 32 low bits; across the kinds a proof-of-stake hash counts
   * as its 2^32th part.
   */
  ghost predicate Preferred(h: SelectionHash, prev: nat, a: Blk, b: Blk) {
    if a.isStake && b.isStake then
      var x, y := h(a.hashProofOfStake, prev), h(b.hashProofOfStake, prev);
      x - x % 0x1_0000_0000 <= y - y % 0x1_0000_0000
    else if a.isStake then h(a.hashProofOfStake, prev) < 0x1_0000_0000 * (h(b.hash, prev) + 1)
    else if b.isStake then 0x1_0000_0000 * h(a.hash, prev) <= h(b.hashProofOfStake, prev)
    else h(a.hash, prev) <= h(b.hash, prev)
  }

  lemma KeysCompare(h: SelectionHash, prev: nat, a: Blk, b: Blk)
    ensures SelHash(h, a, prev) <= SelHash(h, b, prev) <==> Preferred(h, prev, a, b)
  {
    Shifted(if a.isStake then h(a.hashProofOfStake, prev) else h(a.hash, prev),
            if b.isStake then h(b.hashProofOfStake, prev) else h(b.hash, prev));
  }

  /** Comparing after a shift by 32 bits. */
  lemma Shifted(x: nat, y: nat)
    ensures x / 0x1_0000_0000 <= y / 0x1_0000_0000 <==> x - x % 0x1_0000_0000 <= y - y % 0x1_0000_0000
    ensures x / 0x1_0000_0000 <= y <==> x < 0x1_0000_0000 * (y + 1)
    ensures x <= y / 0x1_0000_0000 <==> 0x1_0000_0000 * x <= y
  {
  }

  /** In one round: among the early free candidates the preferred one wins, the earliest of equals. */
  lemma PickIsPreferred(c: Round, i: int, k: int)
    requires IsPick(c, i) && TimeOrdered(c.cands) && 0 <= k < |c.cands| && c.cands[k].hash !in c.selected
    ensures c.cands[i].time <= c.stop && c.cands[k].time <= c.stop ==>
              Preferred(c.h, c.prev, c.cands[i], c.cands[k])
              && (k < i ==> !Preferred(c.h, c.prev, c.cands[k], c.cands[i]))
    ensures c.cands[i].time > c.stop ==> c.stop < c.cands[i].time <= c.cands[k].time && i <= k
  {
    hide Preferred, SelHash;
    assert Free(c, k) && (Early(c, k) <==> c.cands[k].time <= c.stop);
    KeysCompare(c.h, c.prev, c.cands[i], c.cands[k]);
    KeysCompare(c.h, c.prev, c.cands[k], c.cands[i]);
  }

  /**
   * Every round, whatever the branch: no early block of the window that is not yet picked is to be
   * preferred to the pick; and a block after the stop time is picked only when no early one is left,
   * and then the earliest.
   */
  lemma EveryPickIsPreferred(h: SelectionHash, index: Index, chain: seq<Blk>, prev: nat, r: nat, b: Blk)
    requires chain != [] && IndexOk(index, chain) && r < RoundCount(DrawOn(h, index, chain, prev))
    requires var d := DrawOn(h, index, chain, prev);
             && b in Window(chain, d.start)
             && forall i :: 0 <= i < r && Picks(d, RoundCount(d))[i] < |d.cands| ==>
                  d.cands[Picks(d, RoundCount(d))[i]] != b
    ensures var d := DrawOn(h, index, chain, prev);
            var k := Picks(d, RoundCount(d))[r];
            k < |d.cands| &&
            var pick, stop := d.cands[k], Stop(d.start, r);
            if pick.time <= stop then b.time <= stop ==> Preferred(h, prev, pick, b)
            else pick.time <= b.time
  {
    hide Interval, Picks, Scan, TimeOrdered, DistinctHashes, ByTime, IsPick, Window, IndexOk, Indexed, Preferred;
    hide Sections, DrawnModifier, Bit, Pow2;
    var d := DrawOn(h, index, chain, prev);
    var p := Picks(d, RoundCount(d));
    DrawIsFair(h, index, chain, prev);
    CandidatesOrdered(h, index, chain, prev);
    EveryRoundPicks(d, RoundCount(d));
    assert p[r] < |d.cands|;
    var k :| 0 <= k < |d.cands| && d.cands[k] == b;
    StillFree(d, p, r, k);
    PickIsPreferred(RoundAfter(d, p[..r]), p[r], k);
  }

  lemma CandidatesOrdered(h: SelectionHash, index: Index, chain: seq<Blk>, prev: nat)
    requires chain != [] && IndexOk(index, chain)
    ensures var cands := DrawOn(h, index, chain, prev).cands; TimeOrdered(cands) && DistinctHashes(cands)
  {
    hide Interval, TimeOrdered, DistinctHashes, ByTime, Window, IndexOk, Indexed;
    var d := DrawOn(h, index, chain, prev);
    WindowIndexed(index, chain, d.start);
    CandidatesAre(index, Window(chain, d.start));
  }

  lemma StillFree(d: Draw, p: seq<nat>, r: nat, k: nat)
    requires DistinctHashes(d.cands) && k < |d.cands| && r <= |p|
    requires forall i :: 0 <= i < r && p[i] < |d.cands| ==> d.cands[p[i]] != d.cands[k]
    ensures d.cands[k].hash !in HashesOf(d.cands, p[..r])
  {
    if d.cands[k].hash in HashesOf(d.cands, p[..r]) {
      PickedSame(d.cands, p[..r], k);
    }
  }

  /**
   * A proof-of-work block is picked over a proof-of-stake block only with a hash 32 bits shorter than
   * hashes are: below 2^224 for hashes of 256 bits.
   */
  lemma WorkNeedsSmallHash(h: SelectionHash, prev: nat, work: Blk, stake: Blk, n: nat)
    requires !work.isStake && stake.isStake && h(stake.hashProofOfStake, prev) < Pow2(n + 32)
    requires Preferred(h, prev, work, stake)
    ensures h(work.hash, prev) < Pow2(n)
  {
    hide Pow2;
    PowSplits(n, 32);
    PowThirtyTwo();
    Cancel(h(work.hash, prev), Pow2(n));
  }

  lemma PowThirtyTwo()
    ensures Pow2(32) == 0x1_0000_0000
  {
    assert Pow2(4) == 16;
    hide Pow2;
    PowSplits(4, 4);
    PowSplits(8, 8);
    PowSplits(16, 16);
  }

  lemma Cancel(x: nat, y: nat)
    requires 0x1_0000_0000 * x < y * 0x1_0000_0000
    ensures x < y
  {
  }

  lemma {:induction false} PowSplits(a: nat, b: nat)
    ensures Pow2(a + b) == Pow2(a) * Pow2(b)
  {
    if b > 0 { PowSplits(a, b - 1); }
  }

  // ----- The modifier used by a kernel -----

  /** First block after k that generated a modifier no earlier than limit. */
  function FirstLate(chain: seq<Blk>, limit: int, k: nat): (r: Option<nat>)
    requires k < |chain|
    ensures r.Some? ==> k < r.value < |chain| && chain[r.value].generated && chain[r.value].time >= limit
    ensures r.Some? ==> forall i :: k < i < r.value ==> !(chain[i].generated && chain[i].time >= limit)
    ensures r.None? ==> forall i :: k < i < |chain| ==> !(chain[i].generated && chain[i].time >= limit)
    decreases |chain| - k
  {
    if k + 1 == |chain| then None
    else if chain[k + 1].generated && chain[k + 1].time >= limit then Some(k + 1)
    else FirstLate(chain, limit, k + 1)
  }

  /** Where a block is on the main chain, if it is. */
  function Position(chain: seq<Blk>, hash: nat, k: nat): (r: Option<nat>)
    requires k <= |chain|
    ensures r.Some? ==> k <= r.value < |chain| && chain[r.value].hash == hash
    ensures r.None? ==> forall i :: k <= i < |chain| ==> chain[i].hash != hash
    decreases |chain| - k
  {
    if k == |chain| then None else if chain[k].hash == hash then Some(k) else Position(chain, hash, k + 1)
  }

  /**
   * Walks the main chain from the block of the staked coin: modifier, height and
   * time.  None when the block is unknown, off the main chain, where it has no
   * successor, or followed by no late enough modifier.
   */
  method GetKernelStakeModifier(index: Index, mainChain: seq<Blk>, hashFrom: nat) returns (r: Option<(nat, nat, nat)>)
    ensures hashFrom !in index || Position(mainChain, hashFrom, 0).None? ==> r == None
    ensures hashFrom in index && Position(mainChain, hashFrom, 0).Some? ==>
              var from := Position(mainChain, hashFrom, 0).value;
              var late := FirstLate(mainChain, mainChain[from].time + Interval(), from);
              r == if late.None? then None
                   else Some((mainChain[late.value].modifier, late.value, mainChain[late.value].time))
  {
    hide Interval, FirstLate;
    if hashFrom !in index { return None; }
    var at := Position(mainChain, hashFrom, 0);
    if at.None? { return None; }
    r := WalkToModifier(mainChain, at.value);
  }

  method WalkToModifier(mainChain: seq<Blk>, from: nat) returns (r: Option<(nat, nat, nat)>)
    requires from < |mainChain|
    ensures var late := FirstLate(mainChain, mainChain[from].time + Interval(), from);
            r == if late.None? then None
                 else Some((mainChain[late.value].modifier, late.value, mainChain[late.value].time))
  {
    hide Interval, FirstLate;
    var interval := GetStakeModifierSelectionInterval();
    IntervalPositive();
    var k, height, time := from, from, mainChain[from].time;
    ghost var limit := mainChain[from].time + interval;
    while time < mainChain[from].time + interval
      invariant from <= k < |mainChain|
      invariant time < limit ==> FirstLate(mainChain, limit, k) == FirstLate(mainChain, limit, from)
      invariant time >= limit ==>
                FirstLate(mainChain, limit, from) == Some(k) && height == k && time == mainChain[k].time
      decreases |mainChain| - k
    {
      LateStep(mainChain, limit, k);
      if k + 1 == |mainChain| { return None; }
      k := k + 1;
      if mainChain[k].generated { height, time := k, mainChain[k].time; }
    }
    r := Some((mainChain[k].modifier, height, time));
  }

  lemma LateStep(chain: seq<Blk>, limit: int, k: nat)
    requires k < |chain|
    ensures k + 1 == |chain| ==> FirstLate(chain, limit, k) == None
    ensures k + 1 < |chain| ==>
              FirstLate(chain, limit, k)
              == if chain[k + 1].generated && chain[k + 1].time >= limit then Some(k + 1)
                 else FirstLate(chain, limit, k + 1)
  {
  }

  lemma IntervalPositive()
    ensures Interval() > 0
  {
  }
}
