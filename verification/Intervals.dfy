// A stopped sender's life, recorded from its interval report rows.
module Intervals {
  import opened Common
  import opened Permutations
  import opened Sorting

  datatype Row = Row(start: real, end: real, size: int)

  type Gap = (real, real)

  datatype Record = Record(intervals: nat, gaps: seq<Gap>, totalBytes: int)

  predicate RowLeq(a: Row, b: Row) {
    a.start < b.start || (a.start == b.start && a.end <= b.end)
  }

  // max(end for _, end, _ in rows)
  function LastEnd(rows: seq<Row>): real
    requires rows != []
  {
    var last := rows[|rows| - 1].end;
    if |rows| == 1 then last
    else if LastEnd(rows[..|rows| - 1]) >= last then LastEnd(rows[..|rows| - 1]) else last
  }

  // The rows that do not span the whole run.
  function Partial(first: real, last: real): Row -> bool {
    (r: Row) => !(r.start == first && r.end == last)
  }

  function Periodic(sorted: seq<Row>): (r: seq<Row>)
    ensures sorted != [] ==> r != []
  {
    if sorted == [] then []
    else
      var kept := Filter(sorted, Partial(sorted[0].start, LastEnd(sorted)));
      if kept != [] then kept else sorted
  }

  // The spans between consecutive rows that do not meet.
  function Gaps(rows: seq<Row>, tolerance: real): seq<Gap> {
    if |rows| < 2 then []
    else
      var prev, next := rows[|rows| - 2], rows[|rows| - 1];
      Gaps(rows[..|rows| - 1], tolerance)
      + if next.start - prev.end > tolerance then [(prev.end, next.start)] else []
  }

  function Sum<T>(s: seq<T>, f: T -> int): int {
    if s == [] then 0 else Sum(s[..|s| - 1], f) + f(s[|s| - 1])
  }

  function Size(): Row -> int {
    (r: Row) => r.size
  }

  function RecordOf(rows: seq<Row>, tolerance: real): Record {
    var periodic := Periodic(StableSort(rows, RowLeq));
    Record(|periodic|, Gaps(periodic, tolerance), Sum(periodic, Size()))
  }

  method ScanGaps(periodic: seq<Row>, tolerance: real) returns (gaps: seq<Gap>)
    requires periodic != []
    ensures gaps == Gaps(periodic, tolerance)
  {
    gaps := [];
    for i := 1 to |periodic|
      invariant gaps == Gaps(periodic[..i], tolerance)
    {
      TakeOneMore(periodic, i);
      if periodic[i].start - periodic[i - 1].end > tolerance {
        gaps := gaps + [(periodic[i - 1].end, periodic[i].start)];
      }
    }
    assert periodic[..|periodic|] == periodic;
  }

  method SumSizes(periodic: seq<Row>) returns (total: int)
    ensures total == Sum(periodic, Size())
  {
    total := 0;
    for i := 0 to |periodic|
      invariant total == Sum(periodic[..i], Size())
    {
      TakeOneMore(periodic, i);
      total := total + periodic[i].size;
    }
    assert periodic[..|periodic|] == periodic;
  }

  method SenderLifeRecord(rows: seq<Row>, tolerance: real) returns (r: Record)
    ensures r == RecordOf(rows, tolerance)
  {
    if rows == [] {
      return Record(0, [], 0);
    }
    SortFacts(rows);
    var periodic := Periodic(StableSort(rows, RowLeq));
    var gaps := ScanGaps(periodic, tolerance);
    var total := SumSizes(periodic);
    return Record(|periodic|, gaps, total);
  }

  // ---------------------------------------------------------------- sorted rows

  lemma SortFacts(rows: seq<Row>)
    ensures var sorted := StableSort(rows, RowLeq);
      multiset(sorted) == multiset(rows) && Sorted(sorted, RowLeq) && |sorted| == |rows|
  {
    StableSortSorts(rows, RowLeq, Elements(rows));
    assert |multiset(StableSort(rows, RowLeq))| == |multiset(rows)|;
  }

  lemma {:induction false} FilterSorted(rows: seq<Row>, keep: Row -> bool)
    requires Sorted(rows, RowLeq)
    ensures Sorted(Filter(rows, keep), RowLeq)
  {
    if rows != [] {
      var front, last := rows[..|rows| - 1], rows[|rows| - 1];
      FilterSorted(front, keep);
      var kept := Filter(front, keep);
      forall i | 0 <= i < |kept| ensures RowLeq(kept[i], last) {
        FilterMember(front, keep, kept[i]);
        var j :| 0 <= j < |front| && front[j] == kept[i];
        assert RowLeq(rows[j], rows[|rows| - 1]);
      }
    }
  }

  lemma PeriodicSorted(rows: seq<Row>)
    ensures Sorted(Periodic(StableSort(rows, RowLeq)), RowLeq)
  {
    SortFacts(rows);
    var sorted := StableSort(rows, RowLeq);
    if sorted != [] {
      FilterSorted(sorted, Partial(sorted[0].start, LastEnd(sorted)));
    }
  }

  lemma {:induction false} LastEndIsLatest(rows: seq<Row>)
    requires rows != []
    ensures forall r :: r in rows ==> r.end <= LastEnd(rows)
    ensures exists i :: 0 <= i < |rows| && rows[i].end == LastEnd(rows)
  {
    if |rows| > 1 {
      var front := rows[..|rows| - 1];
      LastEndIsLatest(front);
      var i :| 0 <= i < |front| && front[i].end == LastEnd(front);
      assert rows[i] == front[i];
      assert rows == front + [rows[|rows| - 1]];
      assert rows[|rows| - 1].end == LastEnd(rows) || rows[i].end == LastEnd(rows);
    } else {
      assert rows[0].end == LastEnd(rows);
    }
  }

  // A gap is reported exactly where two consecutive rows do not meet.
  lemma {:induction false} GapWhere(rows: seq<Row>, tolerance: real, g: Gap)
    ensures g in Gaps(rows, tolerance) <==>
            exists i :: 0 < i < |rows| && rows[i].start - rows[i - 1].end > tolerance
                        && g == (rows[i - 1].end, rows[i].start)
  {
    if |rows| >= 2 {
      var front := rows[..|rows| - 1];
      GapWhere(front, tolerance, g);
      if g in Gaps(front, tolerance) {
        var i :| 0 < i < |front| && front[i].start - front[i - 1].end > tolerance
                 && g == (front[i - 1].end, front[i].start);
        assert rows[i] == front[i] && rows[i - 1] == front[i - 1];
      }
    }
  }

  lemma {:induction false} NoGapsAnywhere(rows: seq<Row>, tolerance: real)
    requires Gaps(rows, tolerance) == []
    ensures forall i :: 0 < i < |rows| ==> rows[i].start - rows[i - 1].end <= tolerance
  {
    if |rows| >= 2 {
      NoGapsAnywhere(rows[..|rows| - 1], tolerance);
      forall i | 0 < i < |rows| ensures rows[i].start - rows[i - 1].end <= tolerance {
        if i < |rows| - 1 {
          assert rows[..|rows| - 1][i] == rows[i];
        }
      }
    }
  }

  // ---------------------------------------------------------------- coverage

  // Some row is under way at t, or ended within the tolerance before it.
  ghost predicate Covered(rows: seq<Row>, tolerance: real, t: real) {
    exists i :: 0 <= i < |rows| && rows[i].start <= t && (t <= rows[i].end || t <= rows[i].end + tolerance)
  }

  // The last row that has started by t.
  function StartedBy(rows: seq<Row>, t: real): (i: nat)
    requires rows != [] && rows[0].start <= t
    ensures i < |rows| && rows[i].start <= t
    ensures forall j :: 0 <= j <= i ==> rows[j].start <= t
    ensures i + 1 == |rows| || rows[i + 1].start > t
  {
    if |rows| == 1 || rows[1].start > t then 0 else 1 + StartedBy(rows[1..], t)
  }

  lemma NoGapsCovers(rows: seq<Row>, tolerance: real, t: real)
    requires rows != [] && Gaps(rows, tolerance) == []
    requires rows[0].start <= t <= LastEnd(rows)
    ensures Covered(rows, tolerance, t)
  {
    var i := StartedBy(rows, t);
    NoGapsAnywhere(rows, tolerance);
    LastEndIsLatest(rows);
    var m :| 0 <= m < |rows| && rows[m].end == LastEnd(rows);
    if rows[m].start > t && i + 1 < |rows| {
      assert rows[i + 1].start - rows[i + 1 - 1].end <= tolerance;
    }
  }

  // Ends in order: what disjoint rows, or rows that overlap without nesting, have.
  ghost predicate EndsInOrder(rows: seq<Row>) {
    forall i, j :: 0 <= i < j < |rows| ==> rows[i].end <= rows[j].end
  }

  ghost predicate WellFormed(rows: seq<Row>) {
    forall i :: 0 <= i < |rows| ==> rows[i].start <= rows[i].end
  }

  ghost predicate Disjoint(rows: seq<Row>) {
    forall i, j :: 0 <= i < j < |rows| ==> rows[i].end <= rows[j].start || rows[j].end <= rows[i].start
  }

  lemma DisjointEndsInOrder(rows: seq<Row>)
    requires Sorted(rows, RowLeq) && WellFormed(rows) && Disjoint(rows)
    ensures EndsInOrder(rows)
  {
    forall i, j | 0 <= i < j < |rows| ensures rows[i].end <= rows[j].end {
      assert RowLeq(rows[i], rows[j]);
    }
  }

  // A row that is under way at some instant strictly inside the span.
  predicate Meets(r: Row, g: Gap) {
    r.start < g.1 && r.end > g.0
  }

  // The gap after row i is free of rows exactly when no row before i outlasts it.
  lemma GapIsHoleIff(rows: seq<Row>, tolerance: real, i: nat)
    requires Sorted(rows, RowLeq) && WellFormed(rows) && tolerance >= 0.0
    requires i + 1 < |rows| && rows[i + 1].start - rows[i].end > tolerance
    ensures (forall j :: 0 <= j < |rows| ==> !Meets(rows[j], (rows[i].end, rows[i + 1].start)))
            <==> forall j :: 0 <= j < i ==> rows[j].end <= rows[i].end
  {
    var g := (rows[i].end, rows[i + 1].start);
    forall j | i < j < |rows| ensures !Meets(rows[j], g) {
      assert j == i + 1 || RowLeq(rows[i + 1], rows[j]);
    }
    forall j | 0 <= j < i ensures Meets(rows[j], g) <==> rows[j].end > rows[i].end {
      assert RowLeq(rows[j], rows[i]);
    }
  }

  // With ends in order the report is exact: a gap is a span of more than the tolerance that no
  // row enters ...
  lemma ReportedGapsAreHoles(rows: seq<Row>, tolerance: real, g: Gap)
    requires Sorted(rows, RowLeq) && WellFormed(rows) && EndsInOrder(rows) && tolerance >= 0.0
    requires g in Gaps(rows, tolerance)
    ensures g.1 - g.0 > tolerance && forall r :: r in rows ==> !Meets(r, g)
  {
    GapWhere(rows, tolerance, g);
    var i :| 0 < i < |rows| && rows[i].start - rows[i - 1].end > tolerance && g == (rows[i - 1].end, rows[i].start);
    var k := i - 1;
    GapIsHoleIff(rows, tolerance, k);
    assert forall j :: 0 <= j < |rows| ==> !Meets(rows[j], (rows[k].end, rows[k + 1].start));
  }

  // ... and none is reported exactly when every instant of the run is covered.
  lemma NoGapsIffCovered(rows: seq<Row>, tolerance: real)
    requires rows != [] && Sorted(rows, RowLeq) && WellFormed(rows) && EndsInOrder(rows) && tolerance >= 0.0
    ensures Gaps(rows, tolerance) == []
            <==> forall t :: rows[0].start <= t <= LastEnd(rows) ==> Covered(rows, tolerance, t)
  {
    if Gaps(rows, tolerance) == [] {
      forall t | rows[0].start <= t <= LastEnd(rows) ensures Covered(rows, tolerance, t) {
        NoGapsCovers(rows, tolerance, t);
      }
    } else {
      var g := Gaps(rows, tolerance)[0];
      GapWhere(rows, tolerance, g);
      var i :| 0 < i < |rows| && rows[i].start - rows[i - 1].end > tolerance && g == (rows[i - 1].end, rows[i].start);
      MiddleUncovered(rows, tolerance, i);
    }
  }

  lemma MiddleUncovered(rows: seq<Row>, tolerance: real, i: nat)
    requires Sorted(rows, RowLeq) && WellFormed(rows) && EndsInOrder(rows) && tolerance >= 0.0
    requires 0 < i < |rows| && rows[i].start - rows[i - 1].end > tolerance
    ensures var t := (rows[i - 1].end + tolerance + rows[i].start) / 2.0;
      rows[0].start <= t <= LastEnd(rows) && !Covered(rows, tolerance, t)
  {
    var t := (rows[i - 1].end + tolerance + rows[i].start) / 2.0;
    assert i - 1 == 0 || RowLeq(rows[0], rows[i - 1]);
    LastEndIsLatest(rows);
    assert rows[i] in rows;
    forall j | 0 <= j < |rows| && rows[j].start <= t ensures t > rows[j].end + tolerance {
      assert i <= j ==> i == j || RowLeq(rows[i], rows[j]);
      assert j < i - 1 ==> rows[j].end <= rows[i - 1].end;
    }
  }

  // Nested rows: a gap is reported that the first row covers.
  lemma NestedRowsReportFalseGap()
    ensures var rows := [Row(0.0, 10.0, 1), Row(1.0, 2.0, 1), Row(5.0, 6.0, 1), Row(6.0, 12.0, 1)];
      Gaps(Periodic(StableSort(rows, RowLeq)), 0.5) == [(2.0, 5.0)] && Meets(rows[0], (2.0, 5.0))
  {
    var rows := [Row(0.0, 10.0, 1), Row(1.0, 2.0, 1), Row(5.0, 6.0, 1), Row(6.0, 12.0, 1)];
    var one, two, three := rows[..1], rows[..2], rows[..3];
    assert rows[..0] == [] && three[..2] == two && two[..1] == one && one[..0] == [];
    assert StableSort(one, RowLeq) == one;
    assert StableSort(two, RowLeq) == two;
    assert StableSort(three, RowLeq) == three;
    assert StableSort(rows, RowLeq) == rows;
    assert LastEnd(one) == 10.0 && LastEnd(two) == 10.0 && LastEnd(three) == 10.0;
    assert LastEnd(rows) == 12.0;
    FilterAll(rows, Partial(0.0, 12.0));
    assert Gaps(one, 0.5) == [] && Gaps(two, 0.5) == [];
    assert Gaps(three, 0.5) == [(2.0, 5.0)];
  }

  // No gap on record: the periodic rows alone cover every instant from their first start to
  // their last end, whatever the order of the rows and however they overlap.
  lemma RecordCovers(rows: seq<Row>, tolerance: real, t: real)
    requires rows != [] && RecordOf(rows, tolerance).gaps == []
    requires var periodic := Periodic(StableSort(rows, RowLeq));
      |periodic| > 0 && periodic[0].start <= t <= LastEnd(periodic)
    ensures Covered(Periodic(StableSort(rows, RowLeq)), tolerance, t)
  {
    NoGapsCovers(Periodic(StableSort(rows, RowLeq)), tolerance, t);
  }

  // A row under way at the last instant of a span has to end there or within the tolerance.
  predicate Reaches(end: real, tolerance: real, last: real) {
    last <= end || last <= end + tolerance
  }

  lemma CoveredReaches(rows: seq<Row>, tolerance: real, t: real)
    requires rows != [] && Sorted(rows, RowLeq) && Covered(rows, tolerance, t)
    ensures rows[0].start <= t && Reaches(LastEnd(rows), tolerance, t)
  {
    LastEndIsLatest(rows);
    var i :| 0 <= i < |rows| && rows[i].start <= t && (t <= rows[i].end || t <= rows[i].end + tolerance);
    assert rows[i] in rows;
    assert i > 0 ==> RowLeq(rows[0], rows[i]);
  }

  // Past the last end, the tolerance alone covers.
  lemma ReachedIsCovered(rows: seq<Row>, tolerance: real, t: real)
    requires rows != [] && Gaps(rows, tolerance) == []
    requires rows[0].start <= t && Reaches(LastEnd(rows), tolerance, t)
    ensures Covered(rows, tolerance, t)
  {
    if t <= LastEnd(rows) {
      NoGapsCovers(rows, tolerance, t);
    } else {
      var i := StartedBy(rows, t);
      NoGapsAnywhere(rows, tolerance);
      LastEndIsLatest(rows);
      var m :| 0 <= m < |rows| && rows[m].end == LastEnd(rows);
      assert i + 1 < |rows| ==> rows[i + 1].start - rows[i + 1 - 1].end <= tolerance;
    }
  }

  // The first start and the last end over all rows, the summary among them.
  ghost predicate RunCovered(rows: seq<Row>, periodic: seq<Row>, tolerance: real)
    requires rows != []
  {
    forall t :: StableSort(rows, RowLeq)[0].start <= t <= LastEnd(StableSort(rows, RowLeq)) ==>
      Covered(periodic, tolerance, t)
  }

  // No gap on record covers the run that the summary states exactly when the reports begin with
  // it and reach its end.
  lemma NoGapsRunIff(rows: seq<Row>, tolerance: real)
    requires rows != [] && RecordOf(rows, tolerance).gaps == []
    requires var sorted := StableSort(rows, RowLeq); sorted != [] && sorted[0].start <= LastEnd(sorted)
    ensures var sorted, periodic := StableSort(rows, RowLeq), Periodic(StableSort(rows, RowLeq));
      && periodic != []
      && (RunCovered(rows, periodic, tolerance) <==>
            periodic[0].start <= sorted[0].start && Reaches(LastEnd(periodic), tolerance, LastEnd(sorted)))
  {
    var sorted, periodic := StableSort(rows, RowLeq), Periodic(StableSort(rows, RowLeq));
    PeriodicSorted(rows);
    if RunCovered(rows, periodic, tolerance) {
      CoveredReaches(periodic, tolerance, sorted[0].start);
      CoveredReaches(periodic, tolerance, LastEnd(sorted));
    }
    if periodic[0].start <= sorted[0].start && Reaches(LastEnd(periodic), tolerance, LastEnd(sorted)) {
      forall t | sorted[0].start <= t <= LastEnd(sorted) ensures Covered(periodic, tolerance, t) {
        ReachedIsCovered(periodic, tolerance, t);
      }
    }
  }

  // Reports that stop early, and the summary of a longer run: no gap, and most of it uncovered.
  lemma SilentTailIsNoGap()
    ensures var rows := [Row(0.0, 1.0, 1), Row(0.0, 10.0, 2), Row(1.0, 2.0, 1)];
      && RecordOf(rows, 0.5).gaps == []
      && !RunCovered(rows, Periodic(StableSort(rows, RowLeq)), 0.5)
  {
    var rows := [Row(0.0, 1.0, 1), Row(0.0, 10.0, 2), Row(1.0, 2.0, 1)];
    var reports := [Row(0.0, 1.0, 1), Row(1.0, 2.0, 1)];
    SortedThree(rows[0], rows[1], rows[2]);
    assert LastEnd(rows) == 10.0 by {
      assert rows[..2] == [rows[0], rows[1]] && rows[..2][..1] == [rows[0]];
      assert LastEnd(rows[..2]) == 10.0;
    }
    FilterThree(rows[0], rows[1], rows[2], Partial(0.0, 10.0));
    assert Periodic(rows) == reports;
    assert Gaps(reports, 0.5) == [] && LastEnd(reports) == 2.0 by {
      assert reports[..1] == [reports[0]];
    }
    assert !Covered(reports, 0.5, 5.0);
  }

  lemma SortedThree(a: Row, b: Row, c: Row)
    requires RowLeq(a, b) && RowLeq(b, c)
    ensures StableSort([a, b, c], RowLeq) == [a, b, c]
  {
    assert [a, b, c][..2] == [a, b] && [a, b][..1] == [a] && [a][..0] == [];
    assert StableSort([a], RowLeq) == [a];
    assert StableSort([a, b], RowLeq) == [a, b];
  }

  lemma FilterThree(a: Row, b: Row, c: Row, keep: Row -> bool)
    requires keep(a) && !keep(b) && keep(c)
    ensures Filter([a, b, c], keep) == [a, c]
  {
    assert [a, b, c][..2] == [a, b] && [a, b][..1] == [a] && [a][..0] == [];
    assert Filter([a], keep) == [a];
    assert Filter([a, b], keep) == [a];
  }

  // With disjoint periodic rows the record's gaps are exact: each is a span wider than the
  // tolerance that no periodic row enters, and there is none exactly when all is covered.
  lemma RecordGapsExact(rows: seq<Row>, tolerance: real)
    requires rows != [] && tolerance >= 0.0
    requires var periodic := Periodic(StableSort(rows, RowLeq)); WellFormed(periodic) && Disjoint(periodic)
    ensures var periodic, gaps := Periodic(StableSort(rows, RowLeq)), RecordOf(rows, tolerance).gaps;
      && (forall g :: g in gaps ==> g.1 - g.0 > tolerance && forall r :: r in periodic ==> !Meets(r, g))
      && periodic != []
      && (gaps == [] <==>
            forall t :: periodic[0].start <= t <= LastEnd(periodic) ==> Covered(periodic, tolerance, t))
  {
    SortFacts(rows);
    PeriodicSorted(rows);
    var periodic := Periodic(StableSort(rows, RowLeq));
    DisjointEndsInOrder(periodic);
    NoGapsIffCovered(periodic, tolerance);
    forall g | g in RecordOf(rows, tolerance).gaps
      ensures g.1 - g.0 > tolerance && forall r :: r in periodic ==> !Meets(r, g)
    {
      ReportedGapsAreHoles(periodic, tolerance, g);
    }
  }

  // ---------------------------------------------------------------- order of the rows

  function SpanOf(): Row -> (real, real) {
    (r: Row) => (r.start, r.end)
  }

  predicate SpanLeq(a: (real, real), b: (real, real)) {
    a.0 < b.0 || (a.0 == b.0 && a.1 <= b.1)
  }

  lemma {:induction false} SumRemove<T>(s: seq<T>, f: T -> int, j: nat)
    requires j < |s|
    ensures Sum(s, f) == Sum(s[..j] + s[j + 1..], f) + f(s[j])
  {
    if j < |s| - 1 {
      var front, last := s[..|s| - 1], s[|s| - 1];
      SumRemove(front, f, j);
      var rest := s[..j] + s[j + 1..];
      assert rest[..|rest| - 1] == front[..j] + front[j + 1..] && rest[|rest| - 1] == last;
    } else {
      assert s[..j] + s[j + 1..] == s[..|s| - 1];
    }
  }

  lemma {:induction false} SumPermutes<T>(s: seq<T>, t: seq<T>, f: T -> int)
    requires multiset(s) == multiset(t)
    ensures Sum(s, f) == Sum(t, f)
  {
    if s == [] {
      SameLength(s, t);
    } else {
      var j := MatchLast(s, t);
      SumPermutes(s[..|s| - 1], t[..j] + t[j + 1..], f);
      SumRemove(t, f, j);
    }
  }

  lemma LastIsGreatest(a: seq<(real, real)>, x: (real, real))
    requires Sorted(a, SpanLeq) && x in a
    ensures SpanLeq(x, a[|a| - 1])
  {
    var i :| 0 <= i < |a| && a[i] == x;
    assert i == |a| - 1 || SpanLeq(a[i], a[|a| - 1]);
  }

  lemma SameLast(a: seq<(real, real)>, b: seq<(real, real)>)
    requires a != [] && multiset(a) == multiset(b) && Sorted(a, SpanLeq) && Sorted(b, SpanLeq)
    ensures b != [] && a[|a| - 1] == b[|b| - 1]
    ensures multiset(a[..|a| - 1]) == multiset(b[..|b| - 1])
  {
    SameLength(a, b);
    var x, y := a[|a| - 1], b[|b| - 1];
    SameMembers(a, b, x);
    SameMembers(a, b, y);
    LastIsGreatest(a, y);
    LastIsGreatest(b, x);
    SplitLast(a);
    SplitLast(b);
    SameButOne(multiset(a[..|a| - 1]), multiset(b[..|b| - 1]), x);
  }

  // Sorted spans are determined by their multiset.
  lemma {:induction false} SortedSpansUnique(a: seq<(real, real)>, b: seq<(real, real)>)
    requires multiset(a) == multiset(b) && Sorted(a, SpanLeq) && Sorted(b, SpanLeq)
    ensures a == b
  {
    SameLength(a, b);
    if a != [] {
      SameLast(a, b);
      SortedSpansUnique(a[..|a| - 1], b[..|b| - 1]);
      assert a == a[..|a| - 1] + [a[|a| - 1]] && b == b[..|b| - 1] + [b[|b| - 1]];
    }
  }

  lemma SpansOfSorted(rows: seq<Row>, other: seq<Row>)
    requires multiset(rows) == multiset(other)
    ensures Map(StableSort(rows, RowLeq), SpanOf()) == Map(StableSort(other, RowLeq), SpanOf())
  {
    SortFacts(rows);
    SortFacts(other);
    var a, b := StableSort(rows, RowLeq), StableSort(other, RowLeq);
    MapPermutes(a, b, SpanOf());
    SortedSpansUnique(Map(a, SpanOf()), Map(b, SpanOf()));
  }

  lemma {:induction false} LastEndBySpans(a: seq<Row>, b: seq<Row>)
    requires a != [] && Map(a, SpanOf()) == Map(b, SpanOf())
    ensures b != [] && LastEnd(a) == LastEnd(b)
  {
    assert |Map(b, SpanOf())| == |b|;
    LastSpan(a, b);
    if |a| > 1 {
      LastEndBySpans(a[..|a| - 1], b[..|b| - 1]);
    }
  }

  lemma LastSpan(a: seq<Row>, b: seq<Row>)
    requires a != [] && Map(a, SpanOf()) == Map(b, SpanOf())
    ensures |a| == |b| && a[|a| - 1].start == b[|b| - 1].start && a[|a| - 1].end == b[|b| - 1].end
    ensures Map(a[..|a| - 1], SpanOf()) == Map(b[..|b| - 1], SpanOf())
  {
    assert |a| == |Map(a, SpanOf())| == |Map(b, SpanOf())| == |b|;
    assert Map(a, SpanOf())[|a| - 1] == SpanOf()(a[|a| - 1]);
    assert Map(b, SpanOf())[|b| - 1] == SpanOf()(b[|b| - 1]);
    assert Map(a[..|a| - 1], SpanOf()) == Map(a, SpanOf())[..|a| - 1];
    assert Map(b[..|b| - 1], SpanOf()) == Map(b, SpanOf())[..|b| - 1];
  }

  lemma {:induction false} GapsBySpans(a: seq<Row>, b: seq<Row>, tolerance: real)
    requires Map(a, SpanOf()) == Map(b, SpanOf())
    ensures Gaps(a, tolerance) == Gaps(b, tolerance)
  {
    assert |a| == |Map(a, SpanOf())| == |Map(b, SpanOf())| == |b|;
    if |a| >= 2 {
      LastSpan(a, b);
      LastSpan(a[..|a| - 1], b[..|b| - 1]);
      GapsBySpans(a[..|a| - 1], b[..|b| - 1], tolerance);
    }
  }

  lemma {:induction false} PartialBySpans(a: seq<Row>, b: seq<Row>, first: real, last: real)
    requires Map(a, SpanOf()) == Map(b, SpanOf())
    ensures Map(Filter(a, Partial(first, last)), SpanOf()) == Map(Filter(b, Partial(first, last)), SpanOf())
  {
    assert |a| == |Map(a, SpanOf())| == |Map(b, SpanOf())| == |b|;
    if a != [] {
      LastSpan(a, b);
      PartialBySpans(a[..|a| - 1], b[..|b| - 1], first, last);
      var x, y := Filter(a[..|a| - 1], Partial(first, last)), Filter(b[..|b| - 1], Partial(first, last));
      assert Map(x + [a[|a| - 1]], SpanOf()) == Map(x, SpanOf()) + [SpanOf()(a[|a| - 1])];
      assert Map(y + [b[|b| - 1]], SpanOf()) == Map(y, SpanOf()) + [SpanOf()(b[|b| - 1])];
      assert x + [] == x && y + [] == y;
    }
  }

  lemma PeriodicBySpans(a: seq<Row>, b: seq<Row>)
    requires Map(a, SpanOf()) == Map(b, SpanOf()) && multiset(a) == multiset(b)
    ensures Map(Periodic(a), SpanOf()) == Map(Periodic(b), SpanOf())
    ensures multiset(Periodic(a)) == multiset(Periodic(b))
  {
    assert |a| == |Map(a, SpanOf())| == |Map(b, SpanOf())| == |b|;
    if a != [] {
      LastEndBySpans(a, b);
      assert Map(a, SpanOf())[0] == SpanOf()(a[0]) && Map(b, SpanOf())[0] == SpanOf()(b[0]);
      var partial := Partial(a[0].start, LastEnd(a));
      PartialBySpans(a, b, a[0].start, LastEnd(a));
      FilterPermutes(a, b, partial);
      assert |Map(Filter(a, partial), SpanOf())| == |Filter(a, partial)|;
      assert |Map(Filter(b, partial), SpanOf())| == |Filter(b, partial)|;
    }
  }

  // The record does not depend on the order of the rows, sizes of equal spans included.
  lemma RecordIgnoresOrder(rows: seq<Row>, other: seq<Row>, tolerance: real)
    requires multiset(rows) == multiset(other)
    ensures RecordOf(rows, tolerance) == RecordOf(other, tolerance)
  {
    var a, b := StableSort(rows, RowLeq), StableSort(other, RowLeq);
    SortFacts(rows);
    SortFacts(other);
    SpansOfSorted(rows, other);
    PeriodicBySpans(a, b);
    GapsBySpans(Periodic(a), Periodic(b), tolerance);
    SumPermutes(Periodic(a), Periodic(b), Size());
    assert |Map(Periodic(a), SpanOf())| == |Map(Periodic(b), SpanOf())|;
  }

  // ---------------------------------------------------------------- interval reports and summary rows

  // The rows lie between first and last, and reach both.
  ghost predicate Bounds(rows: seq<Row>, first: real, last: real) {
    && (forall r :: r in rows ==> first <= r.start && r.end <= last)
    && (exists r :: r in rows && r.start == first)
    && (exists r :: r in rows && r.end == last)
  }

  lemma SortedBounds(rows: seq<Row>, first: real, last: real)
    requires Bounds(rows, first, last)
    ensures var sorted := StableSort(rows, RowLeq);
      sorted != [] && sorted[0].start == first && LastEnd(sorted) == last
  {
    SortFacts(rows);
    var sorted := StableSort(rows, RowLeq);
    var a :| a in rows && a.start == first;
    var b :| b in rows && b.end == last;
    SameMembers(sorted, rows, a);
    SameMembers(sorted, rows, b);
    SameMembers(sorted, rows, sorted[0]);
    var i :| 0 <= i < |sorted| && sorted[i] == a;
    assert i == 0 || RowLeq(sorted[0], sorted[i]);
    LastEndIsLatest(sorted);
    var j :| 0 <= j < |sorted| && sorted[j].end == LastEnd(sorted);
    SameMembers(sorted, rows, sorted[j]);
  }

  // Sorting in a row that is then dropped leaves what would have been there without it.
  lemma {:induction false} FilterInsertDropped(s: seq<Row>, x: Row, keep: Row -> bool)
    requires !keep(x)
    ensures Filter(Insert(s, x, RowLeq), keep) == Filter(s, keep)
  {
    if s == [] || RowLeq(s[|s| - 1], x) {
      FilterSnoc(s, x, keep);
    } else {
      FilterInsertDropped(s[..|s| - 1], x, keep);
      FilterSnoc(Insert(s[..|s| - 1], x, RowLeq), s[|s| - 1], keep);
    }
  }

  lemma {:induction false} FilterSortDropped(reports: seq<Row>, dropped: seq<Row>, keep: Row -> bool)
    requires forall x :: x in dropped ==> !keep(x)
    ensures Filter(StableSort(reports + dropped, RowLeq), keep) == Filter(StableSort(reports, RowLeq), keep)
  {
    if dropped == [] {
      assert reports + dropped == reports;
    } else {
      var front, last := dropped[..|dropped| - 1], dropped[|dropped| - 1];
      assert last in dropped && dropped == front + [last];
      FilterSortDropped(reports, front, keep);
      assert reports + dropped == reports + front + [last];
      StableSortSnoc(reports + front, last, RowLeq);
      FilterInsertDropped(StableSort(reports + front, RowLeq), last, keep);
    }
  }

  // Summaries span the run of the reports, from first to last.
  ghost predicate Summaries(summaries: seq<Row>, first: real, last: real) {
    summaries != [] && forall s :: s in summaries ==> s.start == first && s.end == last
  }

  lemma PeriodicWithSummaries(reports: seq<Row>, summaries: seq<Row>, first: real, last: real)
    requires Bounds(reports, first, last) && Summaries(summaries, first, last)
    ensures var kept := Filter(StableSort(reports, RowLeq), Partial(first, last));
      Periodic(StableSort(reports + summaries, RowLeq))
      == if kept != [] then kept else StableSort(reports + summaries, RowLeq)
  {
    SortedBounds(reports + summaries, first, last);
    FilterSortDropped(reports, summaries, Partial(first, last));
  }

  lemma {:induction false} FilterShorter<T>(s: seq<T>, keep: T -> bool)
    ensures |Filter(s, keep)| <= |s|
    ensures (exists x :: x in s && !keep(x)) ==> |Filter(s, keep)| < |s|
  {
    if s != [] {
      FilterShorter(s[..|s| - 1], keep);
      assert s == s[..|s| - 1] + [s[|s| - 1]];
    }
  }

  // Interval reports and summaries of their span, in any order: the record is that of the
  // reports alone exactly when no report spans the whole run itself.
  lemma SummaryExcludedIff(rows: seq<Row>, reports: seq<Row>, summaries: seq<Row>,
                           first: real, last: real, tolerance: real)
    requires Bounds(reports, first, last) && Summaries(summaries, first, last)
    requires multiset(rows) == multiset(reports + summaries)
    ensures RecordOf(rows, tolerance)
            == Record(|reports|, Gaps(StableSort(reports, RowLeq), tolerance), Sum(reports, Size()))
            <==> forall r :: r in reports ==> Partial(first, last)(r)
  {
    var partial, sorted := Partial(first, last), StableSort(reports, RowLeq);
    RecordIgnoresOrder(rows, reports + summaries, tolerance);
    PeriodicWithSummaries(reports, summaries, first, last);
    SortFacts(reports);
    SortFacts(reports + summaries);
    forall r ensures r in sorted <==> r in reports {
      SameMembers(sorted, reports, r);
    }
    if forall r :: r in reports ==> partial(r) {
      FilterAll(sorted, partial);
      SumPermutes(sorted, reports, Size());
    } else {
      FilterShorter(sorted, partial);
    }
  }

  // A run of one interval report: the report spans the run, so report and summary both count.
  lemma OneReportCountsTwice()
    ensures RecordOf([Row(0.0, 1.0, 100), Row(0.0, 1.0, 100)], 0.5) == Record(2, [], 200)
  {
    var report := Row(0.0, 1.0, 100);
    var rows, one := [report, report], [report];
    assert rows[..1] == one && one[..0] == [] && one + [report] == rows;
    assert StableSort(one, RowLeq) == one;
    assert StableSort(rows, RowLeq) == rows;
    assert LastEnd(one) == 1.0;
    assert LastEnd(rows) == 1.0;
    FilterNone(rows, Partial(0.0, 1.0));
    assert Periodic(rows) == rows;
    assert Gaps(one, 0.5) == [];
    assert Gaps(rows, 0.5) == [];
    assert Sum(one, Size()) == 100;
    assert Sum(rows, Size()) == 200;
  }

  // A summary with a later end than every other row is the only row left out: what else the
  // rows hold, an earlier summary among them, is counted like a report.
  lemma LaterSummaryHidesEarlier(rows: seq<Row>, later: Row, first: real, last: real, tolerance: real)
    requires Bounds(rows, first, last) && later.start == first && later.end > last
    ensures RecordOf(rows + [later], tolerance)
            == Record(|rows|, Gaps(StableSort(rows, RowLeq), tolerance), Sum(rows, Size()))
  {
    var partial, sorted := Partial(first, later.end), StableSort(rows, RowLeq);
    SortFacts(rows);
    SortedBounds(rows + [later], first, later.end);
    FilterSortDropped(rows, [later], partial);
    forall r | r in sorted ensures partial(r) {
      SameMembers(sorted, rows, r);
    }
    FilterAll(sorted, partial);
    SumPermutes(sorted, rows, Size());
  }

  // Two reports, a summary of theirs and one that ends later: the first summary is counted.
  lemma TwoSummariesCountOne()
    ensures var rows := [Row(0.0, 1.0, 100), Row(1.0, 2.0, 100), Row(0.0, 2.0, 200), Row(0.0, 2.5, 200)];
      RecordOf(rows, 0.5).intervals == 3 && RecordOf(rows, 0.5).totalBytes == 400
  {
    var a, b, summary, later := Row(0.0, 1.0, 100), Row(1.0, 2.0, 100), Row(0.0, 2.0, 200), Row(0.0, 2.5, 200);
    var rows := [a, b, summary];
    assert a in rows && b in rows;
    assert Bounds(rows, 0.0, 2.0);
    LaterSummaryHidesEarlier(rows, later, 0.0, 2.0, 0.5);
    assert rows + [later] == [a, b, summary, later];
    SumOfThree(a, b, summary);
  }

  lemma SumOfThree(a: Row, b: Row, c: Row)
    ensures Sum([a, b, c], Size()) == a.size + b.size + c.size
  {
    assert [a, b, c][..2] == [a, b] && [a, b][..1] == [a] && [a][..0] == [];
    assert Sum([a], Size()) == a.size;
    assert Sum([a, b], Size()) == a.size + b.size;
  }
}
