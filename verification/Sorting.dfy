/** std::sort by insertion, for any total order. */
module Sorting {

  ghost predicate TotalOrder<T(!new)>(le: (T, T) -> bool) {
    && (forall a, b :: le(a, b) || le(b, a))
    && (forall a, b, c :: le(a, b) && le(b, c) ==> le(a, c))
  }

  function Insert<T>(x: T, s: seq<T>, le: (T, T) -> bool): (r: seq<T>)
    ensures |r| == |s| + 1
  {
    if s == [] || le(x, s[0]) then [x] + s else [s[0]] + Insert(x, s[1..], le)
  }

  function Sort<T>(s: seq<T>, le: (T, T) -> bool): (r: seq<T>)
    ensures |r| == |s|
  {
    if s == [] then [] else Insert(s[0], Sort(s[1..], le), le)
  }

  ghost predicate Ordered<T>(s: seq<T>, le: (T, T) -> bool) {
    forall i, j :: 0 <= i < j < |s| ==> le(s[i], s[j])
  }

  lemma {:induction false} InsertKeeps<T>(x: T, s: seq<T>, le: (T, T) -> bool)
    ensures multiset(Insert(x, s, le)) == multiset(s) + multiset{x}
    decreases |s|
  {
    if s != [] {
      assert s == [s[0]] + s[1..];
      InsertKeeps(x, s[1..], le);
    }
  }

  /** x is at or before every element of s. */
  ghost predicate AtFront<T>(x: T, s: seq<T>, le: (T, T) -> bool) { forall j :: 0 <= j < |s| ==> le(x, s[j]) }

  lemma OrderedCons<T>(x: T, s: seq<T>, le: (T, T) -> bool)
    requires Ordered(s, le) && AtFront(x, s, le)
    ensures Ordered([x] + s, le)
  {
  }

  lemma {:induction false} InsertAtFront<T>(y: T, x: T, s: seq<T>, le: (T, T) -> bool)
    requires AtFront(y, s, le) && le(y, x)
    ensures AtFront(y, Insert(x, s, le), le)
    decreases |s|
  {
    if s != [] {
      assert AtFront(y, s[1..], le);
      InsertAtFront(y, x, s[1..], le);
    }
  }

  lemma {:induction false} InsertOrdered<T(!new)>(x: T, s: seq<T>, le: (T, T) -> bool)
    requires TotalOrder(le) && Ordered(s, le)
    ensures Ordered(Insert(x, s, le), le)
    decreases |s|
  {
    if s != [] {
      var first, rest := s[0], s[1..];
      assert AtFront(first, rest, le) && Ordered(rest, le);
      if le(x, first) {
        forall j | 0 <= j < |s| ensures le(x, s[j]) { assert j > 0 ==> le(first, s[j]); }
        OrderedCons(x, s, le);
      } else {
        InsertOrdered(x, rest, le);
        InsertAtFront(first, x, rest, le);
        OrderedCons(first, Insert(x, rest, le), le);
      }
    }
  }

  /** Sorting orders and permutes. */
  lemma {:induction false} SortFacts<T(!new)>(s: seq<T>, le: (T, T) -> bool)
    requires TotalOrder(le)
    ensures Ordered(Sort(s, le), le) && multiset(Sort(s, le)) == multiset(s)
    decreases |s|
  {
    if s != [] {
      hide TotalOrder;
      var rest := Sort(s[1..], le);
      SortFacts(s[1..], le);
      InsertOrdered(s[0], rest, le);
      InsertKeeps(s[0], rest, le);
      assert s == [s[0]] + s[1..];
    }
  }
}
