/** Counting the elements of a list that satisfy a condition. */
module Counting {

  function CountBy<T>(items: seq<T>, counts: T -> bool): (n: nat)
    ensures n <= |items|
  {
    if items == [] then 0
    else CountBy(items[..|items| - 1], counts) + if counts(items[|items| - 1]) then 1 else 0
  }

  lemma {:induction false} CountWithout<T>(items: seq<T>, i: nat, counts: T -> bool)
    requires i < |items|
    ensures CountBy(items, counts) == CountBy(items[..i] + items[i + 1..], counts) + if counts(items[i]) then 1 else 0
  {
    var last := |items| - 1;
    var rest := items[..i] + items[i + 1..];
    if i < last {
      CountWithout(items[..last], i, counts);
      assert rest[..|rest| - 1] == items[..last][..i] + items[..last][i + 1..];
    } else {
      assert rest == items[..last];
    }
  }

  function Without<T>(items: seq<T>, i: nat): seq<T>
    requires i < |items|
  {
    items[..i] + items[i + 1..]
  }

  lemma {:induction false} MultisetWithout<T>(items: seq<T>, i: nat)
    requires i < |items|
    ensures multiset(items) == multiset(Without(items, i)) + multiset{items[i]}
  {
    assert items == items[..i] + [items[i]] + items[i + 1..];
  }

  /** Equal multisets without their common element. */
  lemma {:induction false} RemoveLast<T>(a: seq<T>, b: seq<T>) returns (i: nat)
    requires a != [] && multiset(a) == multiset(b)
    ensures i < |b| && b[i] == a[|a| - 1]
    ensures multiset(a[..|a| - 1]) == multiset(Without(b, i))
  {
    var last := |a| - 1;
    assert a[last] in multiset(b);
    i :| 0 <= i < |b| && b[i] == a[last];
    MultisetWithout(b, i);
    MultisetWithout(a, last);
    assert Without(a, last) == a[..last];
    Cancel(multiset(a[..last]), multiset(Without(b, i)), multiset{a[last]});
  }

  lemma {:induction false} Cancel<T>(p: multiset<T>, q: multiset<T>, common: multiset<T>)
    requires p + common == q + common
    ensures p == q
  {
    assert p == (p + common) - common;
    assert q == (q + common) - common;
  }

  /** Counts do not depend on the order. */
  lemma {:induction false} CountPermutes<T>(a: seq<T>, b: seq<T>, counts: T -> bool)
    requires multiset(a) == multiset(b)
    ensures CountBy(a, counts) == CountBy(b, counts)
    decreases |a|
  {
    if a == [] {
      assert |multiset(b)| == 0;
    } else {
      var i := RemoveLast(a, b);
      CountPermutes(a[..|a| - 1], Without(b, i), counts);
      CountWithout(b, i, counts);
    }
  }

  /** What satisfies the stronger condition is counted by the weaker one too. */
  lemma {:induction false} CountMonotone<T>(items: seq<T>, strong: T -> bool, weak: T -> bool)
    requires forall x | x in items :: strong(x) ==> weak(x)
    ensures CountBy(items, strong) <= CountBy(items, weak)
  {
    if items != [] {
      assert items == items[..|items| - 1] + [items[|items| - 1]];
      CountMonotone(items[..|items| - 1], strong, weak);
    }
  }

  lemma {:induction false} CountConcat<T>(a: seq<T>, b: seq<T>, counts: T -> bool)
    ensures CountBy(a + b, counts) == CountBy(a, counts) + CountBy(b, counts)
  {
    if b == [] {
      assert a + b == a;
    } else {
      assert (a + b)[..|a + b| - 1] == a + b[..|b| - 1];
      CountConcat(a, b[..|b| - 1], counts);
    }
  }

  // ---- keeping some of the elements ----------------------------------------------------------------

  /** What is kept of a list, by its positions: they ascend, and hold exactly the elements to keep. */
  ghost predicate KeptAt<T>(items: seq<T>, keeps: T -> bool, kept: seq<T>, at: seq<nat>) {
    && |at| == |kept|
    && (forall i, j | 0 <= i < j < |at| :: at[i] < at[j])
    && (forall i | 0 <= i < |at| :: at[i] < |items| && kept[i] == items[at[i]])
    && (forall k: nat | k < |items| :: k in at <==> keeps(items[k]))
  }

  lemma {:induction false} OneMoreKept<T>(before: seq<T>, item: T, keeps: T -> bool, kept: seq<T>, at: seq<nat>)
    requires KeptAt(before, keeps, kept, at)
    ensures !keeps(item) ==> KeptAt(before + [item], keeps, kept, at)
    ensures keeps(item) ==> KeptAt(before + [item], keeps, kept + [item], at + [|before|])
  {
    var items := before + [item];
    assert forall k: nat | k < |before| :: items[k] == before[k];
    assert forall k: nat :: k in at + [|before|] <==> k in at || k == |before|;
    assert |before| !in at;
  }

  lemma {:induction false} CountAlike<T>(items: seq<T>, a: T -> bool, b: T -> bool)
    requires forall item | item in items :: a(item) <==> b(item)
    ensures CountBy(items, a) == CountBy(items, b)
  {
    if items != [] {
      CountAlike(items[..|items| - 1], a, b);
    }
  }
}
