/** The stable sort by an integer key that `sorted(items, key=...)` performs. */
module Sorting {

  function SortBy<T>(items: seq<T>, key: T -> int): seq<T> {
    if items == [] then []
    else InsertBy(SortBy(items[..|items| - 1], key), items[|items| - 1], key)
  }

  function InsertBy<T>(sorted: seq<T>, item: T, key: T -> int): seq<T> {
    if sorted != [] && key(item) < key(sorted[|sorted| - 1])
    then InsertBy(sorted[..|sorted| - 1], item, key) + [sorted[|sorted| - 1]]
    else sorted + [item]
  }

  ghost predicate SortedBy<T>(items: seq<T>, key: T -> int) {
    forall i, j | 0 <= i < j < |items| :: key(items[i]) <= key(items[j])
  }

  lemma {:induction false} SortBySorts<T>(items: seq<T>, key: T -> int)
    ensures SortedBy(SortBy(items, key), key)
    ensures multiset(SortBy(items, key)) == multiset(items)
    ensures |SortBy(items, key)| == |items|
  {
    if items != [] {
      var last := |items| - 1;
      assert items == items[..last] + [items[last]];
      SortBySorts(items[..last], key);
      InsertPermutes(SortBy(items[..last], key), items[last], key);
      InsertKeepsOrder(SortBy(items[..last], key), items[last], key);
    }
  }

  lemma {:induction false} InsertPermutes<T>(sorted: seq<T>, item: T, key: T -> int)
    ensures multiset(InsertBy(sorted, item, key)) == multiset(sorted) + multiset{item}
    ensures |InsertBy(sorted, item, key)| == |sorted| + 1
  {
    if sorted != [] && key(item) < key(sorted[|sorted| - 1]) {
      var last := |sorted| - 1;
      assert sorted == sorted[..last] + [sorted[last]];
      InsertPermutes(sorted[..last], item, key);
    }
  }

  lemma {:induction false} InsertKeepsOrder<T>(sorted: seq<T>, item: T, key: T -> int)
    requires SortedBy(sorted, key)
    ensures SortedBy(InsertBy(sorted, item, key), key)
    ensures forall x | x in InsertBy(sorted, item, key) :: x == item || x in sorted
  {
    if sorted != [] && key(item) < key(sorted[|sorted| - 1]) {
      var last := |sorted| - 1;
      InsertKeepsOrder(sorted[..last], item, key);
      var inserted := InsertBy(sorted[..last], item, key);
      forall x | x in inserted ensures key(x) <= key(sorted[last]) {
        if x != item {
          var i :| 0 <= i < last && sorted[..last][i] == x;
        }
      }
    }
  }

  ghost predicate StrictlySortedBy<T>(items: seq<T>, key: T -> int) {
    forall i, j | 0 <= i < j < |items| :: key(items[i]) < key(items[j])
  }

  /** Items with distinct keys come out strictly ascending. */
  lemma {:induction false} SortByStrict<T>(items: seq<T>, key: T -> int)
    requires forall i, j | 0 <= i < j < |items| :: key(items[i]) != key(items[j])
    ensures StrictlySortedBy(SortBy(items, key), key)
    ensures forall x | x in SortBy(items, key) :: x in items
  {
    if items != [] {
      var last := |items| - 1;
      SortByStrict(items[..last], key);
      InsertStrict(SortBy(items[..last], key), items[last], key);
    }
  }

  lemma {:induction false} InsertStrict<T>(sorted: seq<T>, item: T, key: T -> int)
    requires StrictlySortedBy(sorted, key)
    requires forall x | x in sorted :: key(x) != key(item)
    ensures StrictlySortedBy(InsertBy(sorted, item, key), key)
    ensures forall x | x in InsertBy(sorted, item, key) :: x == item || x in sorted
  {
    if sorted != [] && key(item) < key(sorted[|sorted| - 1]) {
      var last := |sorted| - 1;
      InsertStrict(sorted[..last], item, key);
      forall x | x in InsertBy(sorted[..last], item, key) ensures key(x) < key(sorted[last]) {
        if x != item {
          var i :| 0 <= i < last && sorted[..last][i] == x;
        }
      }
    } else if sorted != [] {
      assert sorted[|sorted| - 1] in sorted;
    }
  }

  /** A list that is in order already is left as it is. */
  lemma {:induction false} SortByOfSorted<T>(items: seq<T>, key: T -> int)
    requires SortedBy(items, key)
    ensures SortBy(items, key) == items
  {
    if items != [] {
      SortByOfSorted(items[..|items| - 1], key);
    }
  }
}
