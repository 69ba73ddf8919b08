/**
 * Which tried entry gives way: the partial shuffle of SelectTried and the
 * position it returns.  Source: src/addrman.cpp, CAddrMan::SelectTried.
 */
module AddrChoice {
  import opened Bytes
  import opened AddrTables

  const TRIED_ENTRIES_INSPECT_ON_EVICT: nat := 4

  /** How many entries of a bucket are inspected. */
  function Inspected(size: nat): nat {
    if size < TRIED_ENTRIES_INSPECT_ON_EVICT then size else TRIED_ENTRIES_INSPECT_ON_EVICT
  }

  /** Draw i is a position from i to the end of the list. */
  predicate DrawsOk(draws: seq<nat>, size: nat) {
    |draws| <= size && forall i :: 0 <= i < |draws| ==> i <= draws[i] < size
  }

  /** The list after the first n swaps. */
  function Shuffled(list: seq<int>, draws: seq<nat>, n: nat): (r: seq<int>)
    requires DrawsOk(draws, |list|) && n <= |draws|
    ensures |r| == |list|
  {
    if n == 0 then list
    else
      var s := Shuffled(list, draws, n - 1);
      s[draws[n - 1] := s[n - 1]][n - 1 := s[draws[n - 1]]]
  }

  lemma SwapMultiset(s: seq<int>, i: nat, j: nat)
    requires i < |s| && j < |s|
    ensures multiset(s[j := s[i]][i := s[j]]) == multiset(s)
  {
    var t := s[j := s[i]];
    assert multiset(t) == multiset(s) - multiset{s[j]} + multiset{s[i]};
    assert multiset(t[i := s[j]]) == multiset(t) - multiset{t[i]} + multiset{s[j]};
  }

  lemma StepKeeps(list: seq<int>, draws: seq<nat>, n: nat)
    requires DrawsOk(draws, |list|) && 0 < n <= |draws|
    ensures multiset(Shuffled(list, draws, n)) == multiset(Shuffled(list, draws, n - 1))
  {
    SwapMultiset(Shuffled(list, draws, n - 1), n - 1, draws[n - 1]);
  }

  lemma {:induction false} ShuffleKeeps(list: seq<int>, draws: seq<nat>, n: nat)
    requires DrawsOk(draws, |list|) && n <= |draws|
    ensures multiset(Shuffled(list, draws, n)) == multiset(list)
    decreases n
  {
    hide DrawsOk;
    if n > 0 {
      hide Shuffled;
      StepKeeps(list, draws, n);
      ShuffleKeeps(list, draws, n - 1);
    }
  }

  ghost predicate Known(info: map<int, AddrInfo>, list: seq<int>) {
    forall i :: 0 <= i < |list| ==> list[i] in info && list[i] != NONE
  }

  lemma KnownKept(info: map<int, AddrInfo>, s: seq<int>, t: seq<int>)
    requires Known(info, s) && multiset(s) == multiset(t)
    ensures Known(info, t)
  {
    forall i | 0 <= i < |t| ensures t[i] in info && t[i] != NONE {
      assert t[i] in multiset(s);
    }
  }

  /** The first of the first n entries with the least last success. */
  function OldestOf(info: map<int, AddrInfo>, list: seq<int>, n: nat): (k: nat)
    requires 0 < n <= |list| && forall i :: 0 <= i < n ==> list[i] in info
    ensures k < n
    ensures forall j :: 0 <= j < n ==> info[list[k]].lastSuccess <= info[list[j]].lastSuccess
    ensures forall j :: 0 <= j < k ==> info[list[k]].lastSuccess < info[list[j]].lastSuccess
  {
    if n == 1 then 0
    else
      var k := OldestOf(info, list, n - 1);
      if info[list[n - 1]].lastSuccess < info[list[k]].lastSuccess then n - 1 else k
  }

  lemma {:induction false} OldestFrame(info: map<int, AddrInfo>, s: seq<int>, t: seq<int>, n: nat)
    requires 0 < n <= |s| && |s| == |t| && (forall i :: 0 <= i < n ==> s[i] in info && t[i] == s[i])
    ensures OldestOf(info, t, n) == OldestOf(info, s, n)
  {
    if n > 1 { OldestFrame(info, s, t, n - 1); }
  }

  /** The position SelectTried returns: where the oldest inspected entry was drawn from. */
  ghost function SelectedPos(info: map<int, AddrInfo>, list: seq<int>, draws: seq<nat>): (pos: nat)
    requires DrawsOk(draws, |list|) && draws != [] && Known(info, list)
    ensures pos < |list|
  {
    draws[OldestInspected(info, list, draws)]
  }

  /** The place of the oldest inspected entry after the shuffle. */
  ghost function OldestInspected(info: map<int, AddrInfo>, list: seq<int>, draws: seq<nat>): (k: nat)
    requires DrawsOk(draws, |list|) && draws != [] && Known(info, list)
    ensures k < |draws|
  {
    ShuffleKeeps(list, draws, |draws|);
    KnownKept(info, list, Shuffled(list, draws, |draws|));
    OldestOf(info, Shuffled(list, draws, |draws|), |draws|)
  }

  /**
   * In a bucket without repeats the oldest inspected entry is the one selected exactly when it was
   * drawn from its own place.
   */
  lemma SelectsOldestIff(info: map<int, AddrInfo>, list: seq<int>, draws: seq<nat>)
    requires DrawsOk(draws, |list|) && draws != [] && Known(info, list) && NoRepeats(list)
    ensures var s, k := Shuffled(list, draws, |draws|), OldestInspected(info, list, draws);
            s[SelectedPos(info, list, draws)] == s[k] <==> draws[k] == k
  {
    var s, k := Shuffled(list, draws, |draws|), OldestInspected(info, list, draws);
    ShuffleKeeps(list, draws, |draws|);
    assert NoRepeats(s);
    if draws[k] != k { Different(s, k, draws[k]); }
  }

  lemma Different(s: seq<int>, i: nat, j: nat)
    requires NoRepeats(s) && i < |s| && j < |s| && i != j
    ensures s[i] != s[j]
  {
    if i < j { Twice(s, i, j); } else { Twice(s, j, i); }
    var x := s[i];
    assert multiset(s)[x] <= 1;
  }

  lemma Twice(s: seq<int>, i: nat, j: nat)
    requires i < j < |s|
    ensures s[i] == s[j] ==> multiset(s)[s[i]] >= 2
  {
    var front, back := s[..j], s[j..];
    assert s == front + back;
    assert multiset(s) == multiset(front) + multiset(back);
    assert front[i] in multiset(front) && back[0] in multiset(back);
  }

  /** Two entries, the older one second: drawing it first makes the newer one give way. */
  lemma NewerGivesWay(info: map<int, AddrInfo>, older: int, newer: int)
    requires older in info && newer in info && older != NONE && newer != NONE
    requires info[older].lastSuccess < info[newer].lastSuccess
    ensures var list, draws := [newer, older], [1, 1];
            && DrawsOk(draws, |list|) && Known(info, list)
            && Shuffled(list, draws, 2)[SelectedPos(info, list, draws)] == newer
  {
    var list: seq<int>, draws: seq<nat> := [newer, older], [1, 1];
    assert Shuffled(list, draws, 0) == list;
    assert Shuffled(list, draws, 1) == [older, newer];
    assert Shuffled(list, draws, 2) == [older, newer];
    assert OldestOf(info, [older, newer], 1) == 0;
    assert OldestOf(info, [older, newer], 2) == 0;
  }
}
