// list.sort(key=...): a stable sort, and the tuple and text orders its keys use.
module Sorting {
  import opened Common

  // Where a new last element goes: after everything that may stand before it.
  function Insert<T>(s: seq<T>, x: T, leq: (T, T) -> bool): seq<T> {
    if s == [] || leq(s[|s| - 1], x) then s + [x]
    else Insert(s[..|s| - 1], x, leq) + [s[|s| - 1]]
  }

  function StableSort<T>(s: seq<T>, leq: (T, T) -> bool): seq<T> {
    if s == [] then [] else Insert(StableSort(s[..|s| - 1], leq), s[|s| - 1], leq)
  }

  ghost predicate Sorted<T>(s: seq<T>, leq: (T, T) -> bool) {
    forall i, j :: 0 <= i < j < |s| ==> leq(s[i], s[j])
  }

  // leq is a total preorder on the elements of s.
  ghost predicate Orders<T>(leq: (T, T) -> bool, s: set<T>) {
    && (forall x, y :: x in s && y in s ==> leq(x, y) || leq(y, x))
    && (forall x, y, z :: x in s && y in s && z in s && leq(x, y) && leq(y, z) ==> leq(x, z))
  }

  function Elements<T>(s: seq<T>): set<T> {
    set x | x in s
  }

  lemma {:induction false} InsertKeeps<T>(s: seq<T>, x: T, leq: (T, T) -> bool)
    ensures multiset(Insert(s, x, leq)) == multiset(s) + multiset{x}
    ensures |Insert(s, x, leq)| == |s| + 1
  {
    if s != [] && !leq(s[|s| - 1], x) {
      InsertKeeps(s[..|s| - 1], x, leq);
      assert s == s[..|s| - 1] + [s[|s| - 1]];
    }
  }

  lemma {:induction false} InsertSorts<T>(s: seq<T>, x: T, leq: (T, T) -> bool, all: set<T>)
    requires Orders(leq, all) && Sorted(s, leq)
    requires x in all && forall y :: y in s ==> y in all
    ensures Sorted(Insert(s, x, leq), leq)
  {
    if s != [] && !leq(s[|s| - 1], x) {
      var front, last := s[..|s| - 1], s[|s| - 1];
      InsertSorts(front, x, leq, all);
      InsertKeeps(front, x, leq);
      var r := Insert(front, x, leq);
      forall i | 0 <= i < |r| ensures leq(r[i], last) {
        assert r[i] in multiset(r);
        assert r[i] in multiset(front) || r[i] == x;
        if r[i] in front {
          var j :| 0 <= j < |front| && front[j] == r[i];
          assert leq(s[j], s[|s| - 1]);
        }
      }
    } else if s != [] {
      var last := s[|s| - 1];
      forall i | 0 <= i < |s| ensures leq(s[i], x) {
        assert i < |s| - 1 ==> leq(s[i], last);
        assert s[i] in all && last in all;
      }
    }
  }

  lemma StableSortSnoc<T>(s: seq<T>, x: T, leq: (T, T) -> bool)
    ensures StableSort(s + [x], leq) == Insert(StableSort(s, leq), x, leq)
  {
    assert (s + [x])[..|s|] == s;
  }

  lemma {:induction false} StableSortKeeps<T>(s: seq<T>, leq: (T, T) -> bool)
    ensures multiset(StableSort(s, leq)) == multiset(s)
  {
    if s != [] {
      var front, last := s[..|s| - 1], s[|s| - 1];
      StableSortKeeps(front, leq);
      InsertKeeps(StableSort(front, leq), last, leq);
      assert s == front + [last];
    }
  }

  lemma StableSortStays<T>(s: seq<T>, leq: (T, T) -> bool, all: set<T>)
    requires forall x :: x in s ==> x in all
    ensures forall x :: x in StableSort(s, leq) ==> x in all
  {
    StableSortKeeps(s, leq);
    forall x | x in StableSort(s, leq) ensures x in all {
      assert x in multiset(StableSort(s, leq));
      assert x in multiset(s);
    }
  }

  // Sorting rearranges and orders.
  lemma {:induction false} StableSortSorts<T>(s: seq<T>, leq: (T, T) -> bool, all: set<T>)
    requires Orders(leq, all) && forall x :: x in s ==> x in all
    ensures multiset(StableSort(s, leq)) == multiset(s)
    ensures Sorted(StableSort(s, leq), leq)
  {
    StableSortKeeps(s, leq);
    if s != [] {
      var front, last := s[..|s| - 1], s[|s| - 1];
      assert last in s;
      StableSortSorts(front, leq, all);
      StableSortStays(front, leq, all);
      InsertSorts(StableSort(front, leq), last, leq, all);
    }
  }

  lemma {:induction false} InsertStable<T(!new)>(s: seq<T>, x: T, leq: (T, T) -> bool, alike: T -> bool)
    requires forall y, z :: alike(y) && alike(z) ==> leq(y, z)
    ensures Filter(Insert(s, x, leq), alike) == Filter(s, alike) + if alike(x) then [x] else []
  {
    if s == [] || leq(s[|s| - 1], x) {
      FilterSnoc(s, x, alike);
    } else {
      InsertStable(s[..|s| - 1], x, leq, alike);
      FilterSnoc(Insert(s[..|s| - 1], x, leq), s[|s| - 1], alike);
    }
  }

  // Elements the order does not tell apart keep their places among themselves.
  lemma {:induction false} StableSortStable<T(!new)>(s: seq<T>, leq: (T, T) -> bool, alike: T -> bool)
    requires forall y, z :: alike(y) && alike(z) ==> leq(y, z)
    ensures Filter(StableSort(s, leq), alike) == Filter(s, alike)
  {
    if s != [] {
      StableSortStable(s[..|s| - 1], leq, alike);
      InsertStable(StableSort(s[..|s| - 1], leq), s[|s| - 1], leq, alike);
    }
  }

  // ---------------------------------------------------------------- text order

  predicate TextLeq(a: string, b: string) {
    a == [] || (b != [] && (a[0] < b[0] || (a[0] == b[0] && TextLeq(a[1..], b[1..]))))
  }

  lemma {:induction false} TextLeqTotal(a: string, b: string)
    ensures TextLeq(a, b) || TextLeq(b, a)
    ensures TextLeq(a, b) && TextLeq(b, a) ==> a == b
  {
    if a != [] && b != [] {
      TextLeqTotal(a[1..], b[1..]);
      assert a == [a[0]] + a[1..] && b == [b[0]] + b[1..];
    }
  }

  lemma {:induction false} TextLeqTransitive(a: string, b: string, c: string)
    requires TextLeq(a, b) && TextLeq(b, c)
    ensures TextLeq(a, c)
  {
    if a != [] && a[0] == b[0] == c[0] {
      TextLeqTransitive(a[1..], b[1..], c[1..]);
    }
  }

  // Up to position k the texts agree, and there a ends or has the smaller character.
  ghost predicate DiffersAt(a: string, b: string, k: nat) {
    && k <= |a| && k < |b| && a[..k] == b[..k]
    && (k == |a| || a[k] < b[k])
  }

  lemma FirstAgrees(a: string, b: string, k: nat)
    requires DiffersAt(a, b, k)
    ensures k > 0 ==> a != [] && b != [] && a[0] == b[0]
  {
    if k > 0 {
      assert a[..k][0] == b[..k][0];
    }
  }

  // The text order compares the first characters that differ; a text stands before its extensions.
  lemma {:induction false} TextOrder(a: string, b: string)
    ensures TextLeq(a, b) && a != b <==> exists k: nat :: DiffersAt(a, b, k)
  {
    if a == [] {
      assert b != [] ==> DiffersAt(a, b, 0);
    } else if b != [] && a[0] == b[0] {
      TextOrder(a[1..], b[1..]);
      assert a == [a[0]] + a[1..] && b == [b[0]] + b[1..];
      forall k: nat | DiffersAt(a[1..], b[1..], k) ensures DiffersAt(a, b, k + 1) {
        assert a[..k + 1] == [a[0]] + a[1..][..k] && b[..k + 1] == [b[0]] + b[1..][..k];
      }
      forall k: nat | DiffersAt(a, b, k) ensures k > 0 && DiffersAt(a[1..], b[1..], k - 1) {
        assert a[1..][..k - 1] == a[..k][1..] && b[1..][..k - 1] == b[..k][1..];
      }
    } else {
      if b != [] && a[0] < b[0] {
        assert DiffersAt(a, b, 0);
      }
      forall k: nat | DiffersAt(a, b, k) ensures k == 0 {
        FirstAgrees(a, b, k);
      }
    }
  }
}
