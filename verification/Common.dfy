// Values shared by the modules below: optional values, outcomes that may carry
// an exception, and the list comprehensions of the source.
module Common {

  datatype Option<+T> = None | Some(value: T)

  // A Python call that returns a value or raises.
  datatype Result<+T, +E> = Ok(value: T) | Err(error: E)

  // [x for x in s if keep(x)]
  function Filter<T>(s: seq<T>, keep: T -> bool): seq<T> {
    if s == [] then []
    else Filter(s[..|s| - 1], keep) + if keep(s[|s| - 1]) then [s[|s| - 1]] else []
  }

  // [f(x) for x in s]
  function Map<T, U>(s: seq<T>, f: T -> U): (r: seq<U>)
    ensures |r| == |s|
    ensures forall i :: 0 <= i < |s| ==> r[i] == f(s[i])
  {
    seq(|s|, i requires 0 <= i < |s| => f(s[i]))
  }

  // The concatenation of f(x) for x in s: what a generator yields over a loop.
  function Collect<T, U>(s: seq<T>, f: T -> seq<U>): seq<U> {
    if s == [] then [] else Collect(s[..|s| - 1], f) + f(s[|s| - 1])
  }

  lemma TakeOneMore<T>(s: seq<T>, i: nat)
    requires i < |s|
    ensures s[..i + 1] == s[..i] + [s[i]]
    ensures s[..i + 1][..i] == s[..i]
  {
  }

  lemma ConcatAssociates<T>(a: seq<T>, b: seq<T>, c: seq<T>)
    ensures a + b + c == a + (b + c)
  {
  }

  lemma PairAppends<T>(h: seq<T>, x: T, y: T)
    ensures h + [x] + [y] == h + [x, y]
  {
  }

  lemma PairAssociates<T>(h: seq<T>, x: T, y: T, s: seq<T>)
    ensures h + [x] + [y] + s == h + ([x, y] + s)
  {
    PairAppends(h, x, y);
    ConcatAssociates(h, [x, y], s);
  }

  lemma MapConcat<T, U>(a: seq<T>, b: seq<T>, f: T -> U)
    ensures Map(a + b, f) == Map(a, f) + Map(b, f)
  {
  }

  lemma FilterSnoc<T>(s: seq<T>, x: T, keep: T -> bool)
    ensures Filter(s + [x], keep) == Filter(s, keep) + if keep(x) then [x] else []
  {
    assert (s + [x])[..|s|] == s;
  }

  lemma MapSnoc<T, U>(s: seq<T>, x: T, f: T -> U)
    ensures Map(s + [x], f) == Map(s, f) + [f(x)]
  {
  }

  lemma AppendNothing<T>(s: seq<T>)
    ensures s + [] == s
  {
  }

  lemma MapFilterSnoc<T, U>(s: seq<T>, x: T, keep: T -> bool, f: T -> U)
    ensures Map(Filter(s + [x], keep), f) == Map(Filter(s, keep), f) + if keep(x) then [f(x)] else []
  {
    FilterSnoc(s, x, keep);
    if keep(x) {
      MapSnoc(Filter(s, keep), x, f);
    } else {
      AppendNothing(Filter(s, keep));
      AppendNothing(Map(Filter(s, keep), f));
    }
  }

  lemma {:induction false} FilterConcat<T>(a: seq<T>, b: seq<T>, keep: T -> bool)
    ensures Filter(a + b, keep) == Filter(a, keep) + Filter(b, keep)
  {
    if b == [] {
      assert a + b == a;
    } else {
      FilterConcat(a, b[..|b| - 1], keep);
      assert a + b == (a + b[..|b| - 1]) + [b[|b| - 1]];
      FilterSnoc(a + b[..|b| - 1], b[|b| - 1], keep);
    }
  }

  lemma {:induction false} FilterMember<T>(s: seq<T>, keep: T -> bool, x: T)
    ensures x in Filter(s, keep) <==> x in s && keep(x)
  {
    if s != [] {
      FilterMember(s[..|s| - 1], keep, x);
      assert s == s[..|s| - 1] + [s[|s| - 1]];
    }
  }

  // Filtering twice keeps what both predicates keep.
  lemma {:induction false} FilterFilter<T>(s: seq<T>, p: T -> bool, q: T -> bool, both: T -> bool)
    requires forall x :: x in s ==> both(x) == (p(x) && q(x))
    ensures Filter(Filter(s, p), q) == Filter(s, both)
  {
    if s != [] {
      var t, x := s[..|s| - 1], s[|s| - 1];
      FilterFilter(t, p, q, both);
      assert x in s;
      if p(x) {
        FilterSnoc(Filter(t, p), x, q);
      } else {
        assert Filter(s, p) == Filter(t, p);
        assert Filter(s, both) == Filter(t, both);
      }
    }
  }

  lemma {:induction false} FilterSame<T>(s: seq<T>, p: T -> bool, q: T -> bool)
    requires forall x :: x in s ==> p(x) == q(x)
    ensures Filter(s, p) == Filter(s, q)
  {
    if s != [] {
      FilterSame(s[..|s| - 1], p, q);
      assert s[|s| - 1] in s;
    }
  }

  lemma {:induction false} FilterAll<T>(s: seq<T>, keep: T -> bool)
    requires forall x :: x in s ==> keep(x)
    ensures Filter(s, keep) == s
  {
    if s != [] {
      FilterAll(s[..|s| - 1], keep);
      assert s[|s| - 1] in s;
      assert s == s[..|s| - 1] + [s[|s| - 1]];
    }
  }

  lemma {:induction false} FilterNone<T>(s: seq<T>, keep: T -> bool)
    requires forall x :: x in s ==> !keep(x)
    ensures Filter(s, keep) == []
  {
    if s != [] {
      FilterNone(s[..|s| - 1], keep);
      assert s[|s| - 1] in s;
    }
  }

  lemma CollectSnoc<T, U>(s: seq<T>, x: T, f: T -> seq<U>)
    ensures Collect(s + [x], f) == Collect(s, f) + f(x)
  {
    assert (s + [x])[..|s|] == s;
  }

  lemma {:induction false} CollectMember<T, U>(s: seq<T>, f: T -> seq<U>, y: U)
    ensures y in Collect(s, f) <==> exists x :: x in s && y in f(x)
  {
    if s != [] {
      var t, z := s[..|s| - 1], s[|s| - 1];
      CollectMember(t, f, y);
      assert s == t + [z];
      assert forall x :: x in s <==> x in t || x == z;
    }
  }

  // Nothing is collected exactly when every element contributes nothing.
  lemma {:induction false} CollectEmpty<T, U>(s: seq<T>, f: T -> seq<U>)
    ensures Collect(s, f) == [] <==> forall x :: x in s ==> f(x) == []
  {
    if s != [] {
      var t, z := s[..|s| - 1], s[|s| - 1];
      CollectEmpty(t, f);
      assert s == t + [z];
      assert forall x :: x in s <==> x in t || x == z;
    }
  }

  lemma {:induction false} OneEach<T, U>(s: seq<T>, f: T -> seq<U>)
    requires forall x :: x in s ==> |f(x)| == 1
    ensures |Collect(s, f)| == |s|
    ensures forall i :: 0 <= i < |s| ==> |f(s[i])| == 1 && Collect(s, f)[i] == f(s[i])[0]
  {
    if s != [] {
      OneEach(s[..|s| - 1], f);
      assert s[|s| - 1] in s;
    }
  }
}
