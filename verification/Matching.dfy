// Greedy one-to-one matching of two lists by key, and what it leaves over.
module Matching {
  import opened Common

  // How many items have this key.
  function Occurs<T, K(==)>(items: seq<T>, key: T -> K, k: K): nat {
    if items == [] then 0
    else Occurs(items[..|items| - 1], key, k) + if key(items[|items| - 1]) == k then 1 else 0
  }

  // The items with as many like-keyed items before them as there are like-keyed others: the
  // first n of a key are matched when there are n others of that key, the rest are left.
  function LeftOver<T, U, K(==)>(items: seq<T>, key: T -> K, others: seq<U>, other: U -> K): seq<T> {
    if items == [] then []
    else
      var front, last := items[..|items| - 1], items[|items| - 1];
      LeftOver(front, key, others, other)
      + if Occurs(front, key, key(last)) >= Occurs(others, other, key(last)) then [last] else []
  }

  lemma LeftOverSnoc<T, U, K>(items: seq<T>, x: T, key: T -> K, others: seq<U>, other: U -> K)
    ensures LeftOver(items + [x], key, others, other)
         == LeftOver(items, key, others, other)
            + if Occurs(items, key, key(x)) >= Occurs(others, other, key(x)) then [x] else []
  {
    assert (items + [x])[..|items|] == items;
  }

  // The list without its first item of key k, when it has one.
  function WithoutFirst<T, K(==)>(items: seq<T>, key: T -> K, k: K): (r: seq<T>) {
    if items == [] then []
    else if key(items[0]) == k then items[1..]
    else [items[0]] + WithoutFirst(items[1..], key, k)
  }

  // The index of the first item of key k, or the number of items.
  function FirstOf<T, K(==)>(items: seq<T>, key: T -> K, k: K): (j: nat)
    ensures j <= |items|
    ensures forall i :: 0 <= i < j ==> key(items[i]) != k
    ensures j < |items| ==> key(items[j]) == k
  {
    if items == [] || key(items[0]) == k then 0 else 1 + FirstOf(items[1..], key, k)
  }

  // ---------------------------------------------------------------- counting

  lemma OccursSnoc<T, K>(items: seq<T>, x: T, key: T -> K, k: K)
    ensures Occurs(items + [x], key, k) == Occurs(items, key, k) + if key(x) == k then 1 else 0
  {
    assert (items + [x])[..|items|] == items;
  }

  lemma {:induction false} OccursConcat<T, K>(a: seq<T>, b: seq<T>, key: T -> K, k: K)
    ensures Occurs(a + b, key, k) == Occurs(a, key, k) + Occurs(b, key, k)
  {
    if b == [] {
      assert a + b == a;
    } else {
      OccursConcat(a, b[..|b| - 1], key, k);
      assert (a + b)[..|a + b| - 1] == a + b[..|b| - 1];
    }
  }

  // Counting after a map that carries each key to a key of its own.
  lemma {:induction false} OccursMap<T, U, K, L>(items: seq<T>, key: T -> K, k: K, f: T -> U, other: U -> L, l: L)
    requires forall x :: x in items ==> (other(f(x)) == l <==> key(x) == k)
    ensures Occurs(Map(items, f), other, l) == Occurs(items, key, k)
  {
    if items != [] {
      var front, last := items[..|items| - 1], items[|items| - 1];
      assert last in items;
      OccursMap(front, key, k, f, other, l);
      assert Map(items, f) == Map(front, f) + [f(last)];
    }
  }

  lemma {:induction false} OccursInMultiset<T, K>(items: seq<T>, key: T -> K, k: K)
    ensures Occurs(items, key, k) == multiset(Map(items, key))[k]
  {
    if items != [] {
      var front, last := items[..|items| - 1], items[|items| - 1];
      OccursInMultiset(front, key, k);
      assert Map(items, key) == Map(front, key) + [key(last)];
    }
  }

  lemma {:induction false} OccursSome<T, K>(items: seq<T>, key: T -> K, i: nat)
    requires i < |items|
    ensures Occurs(items, key, key(items[i])) > 0
  {
    if i < |items| - 1 {
      OccursSome(items[..|items| - 1], key, i);
    }
  }

  lemma {:induction false} OccursNone<T, K>(items: seq<T>, key: T -> K, k: K)
    requires forall i :: 0 <= i < |items| ==> key(items[i]) != k
    ensures Occurs(items, key, k) == 0
  {
    if items != [] {
      OccursNone(items[..|items| - 1], key, k);
    }
  }

  // For each key, the excess is left, no more and no less.
  lemma {:induction false} LeftOverCount<T, U, K>(items: seq<T>, key: T -> K, others: seq<U>, other: U -> K, k: K)
    ensures Occurs(LeftOver(items, key, others, other), key, k)
            == if Occurs(items, key, k) > Occurs(others, other, k)
               then Occurs(items, key, k) - Occurs(others, other, k) else 0
  {
    if items != [] {
      var front, last := items[..|items| - 1], items[|items| - 1];
      LeftOverCount(front, key, others, other, k);
      var left := LeftOver(front, key, others, other);
      OccursSnoc(left, last, key, k);
      assert left + [] == left;
    }
  }

  // ---------------------------------------------------------------- removing one match

  lemma {:induction false} WithoutFirstAbsent<T, K>(items: seq<T>, key: T -> K, k: K)
    requires Occurs(items, key, k) == 0
    ensures WithoutFirst(items, key, k) == items
  {
    if items != [] {
      OccursSome(items, key, 0);
      OccursTail(items, key, k);
      WithoutFirstAbsent(items[1..], key, k);
    }
  }

  lemma {:induction false} OccursTail<T, K>(items: seq<T>, key: T -> K, k: K)
    requires items != []
    ensures Occurs(items, key, k) == Occurs(items[1..], key, k) + if key(items[0]) == k then 1 else 0
  {
    if |items| > 1 {
      OccursTail(items[..|items| - 1], key, k);
      assert items[..|items| - 1][1..] == items[1..][..|items| - 2];
    }
  }

  lemma {:induction false} WithoutFirstSnoc<T, K>(items: seq<T>, x: T, key: T -> K, k: K)
    ensures WithoutFirst(items + [x], key, k)
            == if Occurs(items, key, k) == 0 && key(x) == k then items else WithoutFirst(items, key, k) + [x]
  {
    if items == [] {
      assert [x][1..] == [];
    } else {
      var whole := items + [x];
      OccursTail(items, key, k);
      WithoutFirstSnoc(items[1..], x, key, k);
      assert whole[1..] == items[1..] + [x];
      assert items == [items[0]] + items[1..];
    }
  }

  lemma {:induction false} WithoutFirstAt<T, K>(items: seq<T>, key: T -> K, k: K, j: nat)
    requires j < |items| && key(items[j]) == k
    requires forall i :: 0 <= i < j ==> key(items[i]) != k
    ensures WithoutFirst(items, key, k) == items[..j] + items[j + 1..]
  {
    if j > 0 {
      WithoutFirstAt(items[1..], key, k, j - 1);
      assert items[..j] == [items[0]] + items[1..][..j - 1];
    }
  }

  // One more other of key k takes the first of key k from what was left.
  lemma {:induction false} OneMoreOther<T, U, K>(items: seq<T>, key: T -> K, others: seq<U>, other: U -> K, x: U)
    ensures LeftOver(items, key, others + [x], other)
            == WithoutFirst(LeftOver(items, key, others, other), key, other(x))
  {
    if items != [] {
      var front, last := items[..|items| - 1], items[|items| - 1];
      OneMoreOther(front, key, others, other, x);
      OccursSnoc(others, x, other, key(last));
      var left := LeftOver(front, key, others, other);
      LeftOverCount(front, key, others, other, other(x));
      WithoutFirstSnoc(left, last, key, other(x));
      assert left + [] == left && WithoutFirst(left, key, other(x)) + [] == WithoutFirst(left, key, other(x));
      if Occurs(left, key, other(x)) == 0 {
        WithoutFirstAbsent(left, key, other(x));
      }
    }
  }

  lemma {:induction false} WithoutFirstLength<T, K>(items: seq<T>, key: T -> K, k: K)
    ensures |WithoutFirst(items, key, k)| == |items| - if Occurs(items, key, k) > 0 then 1 else 0
  {
    if items != [] {
      OccursTail(items, key, k);
      WithoutFirstLength(items[1..], key, k);
    }
  }

  lemma {:induction false} NothingToMatch<T, U, K>(items: seq<T>, key: T -> K, other: U -> K)
    ensures LeftOver(items, key, [], other) == items
  {
    if items != [] {
      NothingToMatch(items[..|items| - 1], key, other);
    }
  }

  // ---------------------------------------------------------------- the matching as a whole

  // Both lists lose the same number: matched items come in pairs.
  lemma {:induction false} MatchedInPairs<T, U, K>(items: seq<T>, key: T -> K, others: seq<U>, other: U -> K)
    ensures |items| - |LeftOver(items, key, others, other)| == |others| - |LeftOver(others, other, items, key)|
  {
    if others == [] {
      NothingToMatch(items, key, other);
    } else {
      var front, last := others[..|others| - 1], others[|others| - 1];
      MatchedInPairs(items, key, front, other);
      assert others == front + [last];
      OneMoreOther(items, key, front, other, last);
      WithoutFirstLength(LeftOver(items, key, front, other), key, other(last));
      LeftOverCount(items, key, front, other, other(last));
    }
  }

  ghost predicate NoMore<T, U, K(!new)>(items: seq<T>, key: T -> K, others: seq<U>, other: U -> K) {
    forall k :: Occurs(items, key, k) <= Occurs(others, other, k)
  }

  lemma {:induction false} LeftOverEmpty<T, U, K(!new)>(items: seq<T>, key: T -> K, others: seq<U>, other: U -> K)
    ensures LeftOver(items, key, others, other) == [] <==> NoMore(items, key, others, other)
  {
    var left := LeftOver(items, key, others, other);
    if left == [] {
      forall k ensures Occurs(items, key, k) <= Occurs(others, other, k) {
        LeftOverCount(items, key, others, other, k);
        assert Occurs(left, key, k) == 0;
      }
    } else {
      LeftOverCount(items, key, others, other, key(left[0]));
      OccursSome(left, key, 0);
    }
  }

  ghost predicate SameCounts<T, U, K(!new)>(items: seq<T>, key: T -> K, others: seq<U>, other: U -> K) {
    forall k :: Occurs(items, key, k) == Occurs(others, other, k)
  }

  lemma SameCountsSameMultiset<T, U, K(!new)>(items: seq<T>, key: T -> K, others: seq<U>, other: U -> K)
    ensures SameCounts(items, key, others, other) <==> multiset(Map(items, key)) == multiset(Map(others, other))
  {
    var a, b := multiset(Map(items, key)), multiset(Map(others, other));
    forall k ensures Occurs(items, key, k) == a[k] && Occurs(others, other, k) == b[k] {
      OccursInMultiset(items, key, k);
      OccursInMultiset(others, other, k);
    }
    if SameCounts(items, key, others, other) {
      forall k ensures a[k] == b[k] {
        assert Occurs(items, key, k) == Occurs(others, other, k);
      }
    }
  }

  lemma NoMoreBothWays<T, U, K(!new)>(items: seq<T>, key: T -> K, others: seq<U>, other: U -> K)
    ensures SameCounts(items, key, others, other)
            <==> NoMore(items, key, others, other) && NoMore(others, other, items, key)
  {
  }

  // Nothing is left on either side exactly when the keys agree as multisets.
  lemma NothingLeftIff<T, U, K(!new)>(items: seq<T>, key: T -> K, others: seq<U>, other: U -> K)
    ensures LeftOver(items, key, others, other) == [] && LeftOver(others, other, items, key) == []
            <==> multiset(Map(items, key)) == multiset(Map(others, other))
  {
    LeftOverEmpty(items, key, others, other);
    LeftOverEmpty(others, other, items, key);
    SameCountsSameMultiset(items, key, others, other);
    NoMoreBothWays(items, key, others, other);
  }
}
