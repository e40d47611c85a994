// The [Unreleased] entries against the deprecation register, and against the main branch.
module Register {
  import opened Changelog
  import opened Common
  import opened Matching

  // What the regular expressions read from a text: an entry's kind, the code spans of its
  // subject and their first, the pull requests it cites and what its format lacks; and the code
  // spans of a register item.
  datatype Reading = Reading(
    kind: string -> Option<string>,
    subject: string -> seq<string>,
    symbol: string -> string,
    cited: string -> set<int>,
    lacks: string -> seq<string>,
    item: string -> seq<string>)

  datatype Row = Row(line: nat, package: string, item: string, kind: string, deprecatedIn: string)

  // What a row and an entry must have in common.
  datatype Key = Key(package: string, kind: Option<string>, spans: seq<string>)

  // What makes an edited entry the same entry.
  datatype Identity = Identity(package: string, subsection: string, kind: Option<string>, symbol: string)

  datatype Mismatch = RowAlone(row: Row) | EntryAlone(entry: Entry)

  datatype Problem = NoHeading | Format(line: nat, lack: string) | WrongNumber(line: nat)

  const NEXT_RELEASE := "next release"

  predicate IsPlaceholder(text: string) {
    text == "- no entries yet" || text == "- no API change (version bump only)"
  }

  predicate IsDue(row: Row) {
    row.deprecatedIn == NEXT_RELEASE
  }

  predicate IsDeprecation(e: Entry) {
    e.subsection == "Deprecated" && !IsPlaceholder(e.text)
  }

  predicate IsReal(e: Entry) {
    !IsPlaceholder(e.text)
  }

  function RowKey(reading: Reading): Row -> Key {
    (row: Row) => Key(row.package, Some(row.kind), reading.item(row.item))
  }

  function EntryKey(reading: Reading): Entry -> Key {
    (e: Entry) => Key(e.package, reading.kind(e.text), reading.subject(e.text))
  }

  function IdentityOf(reading: Reading): Entry -> Identity {
    (e: Entry) => Identity(e.package, e.subsection, reading.kind(e.text), reading.symbol(e.text))
  }

  // ---------------------------------------------------------------- register parity

  // The rows with no entry left for them, then the entries with no row left for them.
  function Parity(rows: seq<Row>, entries: seq<Entry>, reading: Reading): seq<Mismatch> {
    Map(LeftOver(rows, RowKey(reading), entries, EntryKey(reading)), (r: Row) => RowAlone(r))
    + Map(LeftOver(entries, EntryKey(reading), rows, RowKey(reading)), (e: Entry) => EntryAlone(e))
  }

  // One row: the first unmatched entry of its key is taken, or the row is alone.
  method MatchRow(row: Row, unmatched: seq<Entry>, reading: Reading,
                  ghost rows: seq<Row>, ghost entries: seq<Entry>)
    returns (alone: bool, rest: seq<Entry>)
    requires unmatched == LeftOver(entries, EntryKey(reading), rows, RowKey(reading))
    ensures rest == LeftOver(entries, EntryKey(reading), rows + [row], RowKey(reading))
    ensures LeftOver(rows + [row], RowKey(reading), entries, EntryKey(reading))
            == LeftOver(rows, RowKey(reading), entries, EntryKey(reading)) + if alone then [row] else []
  {
    RowStep(rows, row, entries, reading, unmatched);
    EntryStep(rows, row, entries, reading, unmatched);
    var j := FirstOf(unmatched, EntryKey(reading), RowKey(reading)(row));
    alone := j == |unmatched|;
    rest := if alone then unmatched else unmatched[..j] + unmatched[j + 1..];
  }

  method MatchRows(rows: seq<Row>, entries: seq<Entry>, reading: Reading) returns (problems: seq<Mismatch>)
    ensures problems == Parity(rows, entries, reading)
  {
    var unmatched := entries;
    var alone: seq<Row> := [];
    NothingToMatch(entries, EntryKey(reading), RowKey(reading));
    for i := 0 to |rows|
      invariant unmatched == LeftOver(entries, EntryKey(reading), rows[..i], RowKey(reading))
      invariant alone == LeftOver(rows[..i], RowKey(reading), entries, EntryKey(reading))
    {
      TakeOneMore(rows, i);
      var isAlone, rest := MatchRow(rows[i], unmatched, reading, rows[..i], entries);
      if isAlone {
        alone := alone + [rows[i]];
      }
      unmatched := rest;
    }
    assert rows[..|rows|] == rows;
    problems := Map(alone, (r: Row) => RowAlone(r)) + Map(unmatched, (e: Entry) => EntryAlone(e));
  }

  // One row more stays alone when no unmatched entry has its key ...
  lemma RowStep(rows: seq<Row>, row: Row, entries: seq<Entry>, reading: Reading, unmatched: seq<Entry>)
    requires unmatched == LeftOver(entries, EntryKey(reading), rows, RowKey(reading))
    ensures LeftOver(rows + [row], RowKey(reading), entries, EntryKey(reading))
            == LeftOver(rows, RowKey(reading), entries, EntryKey(reading))
               + if FirstOf(unmatched, EntryKey(reading), RowKey(reading)(row)) == |unmatched| then [row] else []
  {
    var k := RowKey(reading)(row);
    var j := FirstOf(unmatched, EntryKey(reading), k);
    LeftOverCount(entries, EntryKey(reading), rows, RowKey(reading), k);
    assert (rows + [row])[..|rows|] == rows;
    if j == |unmatched| {
      OccursNone(unmatched, EntryKey(reading), k);
    } else {
      OccursSome(unmatched, EntryKey(reading), j);
    }
  }

  // ... and otherwise takes the first that has.
  lemma EntryStep(rows: seq<Row>, row: Row, entries: seq<Entry>, reading: Reading, unmatched: seq<Entry>)
    requires unmatched == LeftOver(entries, EntryKey(reading), rows, RowKey(reading))
    ensures var j := FirstOf(unmatched, EntryKey(reading), RowKey(reading)(row));
      LeftOver(entries, EntryKey(reading), rows + [row], RowKey(reading))
      == if j == |unmatched| then unmatched else unmatched[..j] + unmatched[j + 1..]
  {
    var k := RowKey(reading)(row);
    var j := FirstOf(unmatched, EntryKey(reading), k);
    OneMoreOther(entries, EntryKey(reading), rows, RowKey(reading), row);
    if j == |unmatched| {
      OccursNone(unmatched, EntryKey(reading), k);
      WithoutFirstAbsent(unmatched, EntryKey(reading), k);
    } else {
      WithoutFirstAt(unmatched, EntryKey(reading), k, j);
    }
  }

  method RegisterProblems(changelog: seq<string>, register: seq<Row>, reading: Reading)
    returns (problems: seq<Mismatch>)
    ensures problems == Parity(Filter(register, IsDue), Filter(Unreleased(changelog).0, IsDeprecation), reading)
  {
    var entries, _ := ReadUnreleased(changelog);
    problems := MatchRows(Filter(register, IsDue), Filter(entries, IsDeprecation), reading);
  }

  // The rows and the entries that must match one another, of one key.
  function DueOf(reading: Reading, k: Key): Row -> bool {
    (row: Row) => row.deprecatedIn == "next release"
                  && k == Key(row.package, Some(row.kind), reading.item(row.item))
  }

  function AnnouncedOf(reading: Reading, k: Key): Entry -> bool {
    (e: Entry) => e.subsection == "Deprecated"
                  && e.text != "- no entries yet" && e.text != "- no API change (version bump only)"
                  && k == Key(e.package, reading.kind(e.text), reading.subject(e.text))
  }

  // For every key, the report of a changelog and a register holds the excess of rows due for the
  // next release over announced deprecations, and of announced deprecations over such rows.
  lemma RegisterPerKey(changelog: seq<string>, register: seq<Row>, reading: Reading, k: Key)
    ensures var entries := Unreleased(changelog).0;
      var report := Parity(Filter(register, IsDue), Filter(entries, IsDeprecation), reading);
      var due, announced := |Filter(register, DueOf(reading, k))|, |Filter(entries, AnnouncedOf(reading, k))|;
      && Occurs(report, SideAndKey(reading), (true, k)) == Excess(due, announced)
      && Occurs(report, SideAndKey(reading), (false, k)) == Excess(announced, due)
  {
    var entries := Unreleased(changelog).0;
    ParityPerKey(Filter(register, IsDue), Filter(entries, IsDeprecation), reading, k);
    OccursFiltered(register, IsDue, RowKey(reading), k, DueOf(reading, k));
    OccursFiltered(entries, IsDeprecation, EntryKey(reading), k, AnnouncedOf(reading, k));
  }

  // A mismatch's side and key.
  function SideAndKey(reading: Reading): Mismatch -> (bool, Key) {
    (m: Mismatch) =>
      match m
      case RowAlone(row) => (true, RowKey(reading)(row))
      case EntryAlone(entry) => (false, EntryKey(reading)(entry))
  }

  function Excess(a: nat, b: nat): nat {
    if a > b then a - b else 0
  }

  // For every key, each side reports exactly its excess over the other.
  lemma ParityPerKey(rows: seq<Row>, entries: seq<Entry>, reading: Reading, k: Key)
    ensures var report, sided := Parity(rows, entries, reading), SideAndKey(reading);
      var inRows, inEntries := Occurs(rows, RowKey(reading), k), Occurs(entries, EntryKey(reading), k);
      && Occurs(report, sided, (true, k)) == Excess(inRows, inEntries)
      && Occurs(report, sided, (false, k)) == Excess(inEntries, inRows)
  {
    var rowKey, entryKey, sided := RowKey(reading), EntryKey(reading), SideAndKey(reading);
    var rowsLeft, entriesLeft := LeftOver(rows, rowKey, entries, entryKey), LeftOver(entries, entryKey, rows, rowKey);
    var fromRows, fromEntries := Map(rowsLeft, (r: Row) => RowAlone(r)), Map(entriesLeft, (e: Entry) => EntryAlone(e));
    LeftOverCount(rows, rowKey, entries, entryKey, k);
    LeftOverCount(entries, entryKey, rows, rowKey, k);
    OccursConcat(fromRows, fromEntries, sided, (true, k));
    OccursConcat(fromRows, fromEntries, sided, (false, k));
    OccursMap(rowsLeft, rowKey, k, (r: Row) => RowAlone(r), sided, (true, k));
    OccursMap(entriesLeft, entryKey, k, (e: Entry) => EntryAlone(e), sided, (false, k));
    OccursNone(fromEntries, sided, (true, k));
    OccursNone(fromRows, sided, (false, k));
  }

  // The register and the changelog agree exactly when their keys agree as multisets.
  lemma ParityCleanIff(rows: seq<Row>, entries: seq<Entry>, reading: Reading)
    ensures Parity(rows, entries, reading) == []
            <==> multiset(Map(rows, RowKey(reading))) == multiset(Map(entries, EntryKey(reading)))
  {
    NothingLeftIff(rows, RowKey(reading), entries, EntryKey(reading));
  }

  // An entry whose text has no kind can match no row.
  lemma KindlessNeverMatches(rows: seq<Row>, entries: seq<Entry>, reading: Reading, e: Entry)
    requires e in entries && reading.kind(e.text) == None
    ensures EntryAlone(e) in Parity(rows, entries, reading)
  {
    KindlessLeft(rows, entries, reading, e);
    var left := LeftOver(entries, EntryKey(reading), rows, RowKey(reading));
    var i :| 0 <= i < |left| && left[i] == e;
    assert Map(left, (e: Entry) => EntryAlone(e))[i] == EntryAlone(e);
  }

  lemma {:induction false} KindlessLeft(rows: seq<Row>, entries: seq<Entry>, reading: Reading, e: Entry)
    requires e in entries && reading.kind(e.text) == None
    ensures e in LeftOver(entries, EntryKey(reading), rows, RowKey(reading))
  {
    var front, last := entries[..|entries| - 1], entries[|entries| - 1];
    assert entries == front + [last];
    if e == last {
      OccursNone(rows, RowKey(reading), EntryKey(reading)(e));
    } else {
      KindlessLeft(rows, front, reading, e);
    }
  }

  // ---------------------------------------------------------------- entries this change adds

  function FormatOf(reading: Reading): Entry -> seq<Problem> {
    (e: Entry) => if IsPlaceholder(e.text) then [] else Map(reading.lacks(e.text), (l: string) => Format(e.line, l))
  }

  function IsIdentified(reading: Reading): Entry -> bool {
    (e: Entry) => !IsPlaceholder(e.text) && reading.kind(e.text) != None
  }

  // The head's entries beyond those main has of the same identity.
  function Added(head: seq<Entry>, main: seq<Entry>, reading: Reading): seq<Entry> {
    LeftOver(Filter(head, IsIdentified(reading)), IdentityOf(reading), Filter(main, IsReal), IdentityOf(reading))
  }

  function Miscited(reading: Reading, number: int): Entry -> bool {
    (e: Entry) => number !in reading.cited(e.text)
  }

  function Warning(): Entry -> Problem {
    (e: Entry) => WrongNumber(e.line)
  }

  function NumberReport(head: seq<Entry>, main: seq<Entry>, number: int, reading: Reading): seq<Problem> {
    if number <= 0 then []
    else Map(Filter(Added(head, main, reading), Miscited(reading, number)), Warning())
  }

  function EntryReport(head: seq<string>, main: seq<string>, number: int, reading: Reading): seq<Problem> {
    var (entries, heading) := Unreleased(head);
    if heading == None then [NoHeading]
    else Collect(entries, FormatOf(reading)) + NumberReport(entries, Unreleased(main).0, number, reading)
  }

  function CountOf(counter: map<Identity, nat>, k: Identity): nat {
    if k in counter then counter[k] else 0
  }

  // The counter holds the number of entries of each identity.
  ghost predicate Counts(counter: map<Identity, nat>, entries: seq<Entry>, reading: Reading) {
    forall k :: CountOf(counter, k) == Occurs(entries, IdentityOf(reading), k)
  }

  lemma CountsOneMore(counter: map<Identity, nat>, entries: seq<Entry>, reading: Reading, e: Entry)
    requires Counts(counter, entries, reading)
    ensures var k := IdentityOf(reading)(e);
      Counts(counter[k := CountOf(counter, k) + 1], entries + [e], reading)
  {
    forall k {
      OccursSnoc(entries, e, IdentityOf(reading), k);
    }
  }

  method CountOne(counter: map<Identity, nat>, ghost before: seq<Entry>, e: Entry, reading: Reading)
    returns (next: map<Identity, nat>, count: nat)
    requires Counts(counter, before, reading)
    ensures Counts(next, before + [e], reading)
    ensures count == Occurs(before, IdentityOf(reading), IdentityOf(reading)(e)) + 1
  {
    var k := IdentityOf(reading)(e);
    CountsOneMore(counter, before, reading, e);
    count := CountOf(counter, k) + 1;
    next := counter[k := count];
  }

  method CountIdentities(entries: seq<Entry>, reading: Reading) returns (counter: map<Identity, nat>)
    ensures Counts(counter, entries, reading)
  {
    counter := map[];
    for i := 0 to |entries|
      invariant Counts(counter, entries[..i], reading)
    {
      TakeOneMore(entries, i);
      var next, _ := CountOne(counter, entries[..i], entries[i], reading);
      counter := next;
    }
    assert entries[..|entries|] == entries;
  }

  method NumberProblems(head: seq<Entry>, main: seq<Entry>, number: int, reading: Reading)
    returns (problems: seq<Problem>)
    ensures problems == NumberReport(head, main, number, reading)
    ensures NumbersChecked(problems, head, main, number, reading)
  {
    NumbersAreChecked(head, main, number, reading);
    var onMain := CountIdentities(Filter(main, IsReal), reading);
    var seen: map<Identity, nat> := map[];
    problems := [];
    for i := 0 to |head|
      invariant Counts(seen, Filter(head[..i], IsIdentified(reading)), reading)
      invariant problems == NumberReport(head[..i], main, number, reading)
    {
      NumberRound(head, i, main, number, reading);
      if IsIdentified(reading)(head[i]) {
        var count;
        seen, count := CountOne(seen, Filter(head[..i], IsIdentified(reading)), head[i], reading);
        var known := CountOf(onMain, IdentityOf(reading)(head[i]));
        if count > known && number > 0 && Miscited(reading, number)(head[i]) {
          problems := problems + [WrongNumber(head[i].line)];
        }
      }
    }
    assert head[..|head|] == head;
  }

  // e, after head, is one entry more than main has of its identity.
  predicate IsExcess(head: seq<Entry>, e: Entry, main: seq<Entry>, reading: Reading) {
    && IsIdentified(reading)(e)
    && Occurs(Filter(head, IsIdentified(reading)), IdentityOf(reading), IdentityOf(reading)(e))
       >= Occurs(Filter(main, IsReal), IdentityOf(reading), IdentityOf(reading)(e))
  }

  lemma AddedStep(head: seq<Entry>, e: Entry, main: seq<Entry>, reading: Reading)
    ensures Added(head + [e], main, reading)
            == Added(head, main, reading) + if IsExcess(head, e, main, reading) then [e] else []
  {
    var identified := Filter(head, IsIdentified(reading));
    FilterSnoc(head, e, IsIdentified(reading));
    if IsIdentified(reading)(e) {
      LeftOverSnoc(identified, e, IdentityOf(reading), Filter(main, IsReal), IdentityOf(reading));
    } else {
      AppendNothing(identified);
      AppendNothing(Added(head, main, reading));
    }
  }

  lemma MiscitedStep(added: seq<Entry>, e: Entry, number: int, reading: Reading)
    ensures Map(Filter(added + [e], Miscited(reading, number)), Warning())
         == Map(Filter(added, Miscited(reading, number)), Warning())
            + if Miscited(reading, number)(e) then [WrongNumber(e.line)] else []
  {
    MapFilterSnoc(added, e, Miscited(reading, number), Warning());
  }

  lemma NumberStep(head: seq<Entry>, e: Entry, main: seq<Entry>, number: int, reading: Reading)
    ensures NumberReport(head + [e], main, number, reading)
            == NumberReport(head, main, number, reading)
               + if number > 0 && IsExcess(head, e, main, reading) && Miscited(reading, number)(e)
                 then [WrongNumber(e.line)] else []
  {
    AddedStep(head, e, main, reading);
    if IsExcess(head, e, main, reading) {
      MiscitedStep(Added(head, main, reading), e, number, reading);
    } else {
      AppendNothing(Added(head, main, reading));
    }
    AppendNothing(NumberReport(head, main, number, reading));
  }

  // What reading entry i of head adds to the count and to the report.
  lemma NumberRound(head: seq<Entry>, i: nat, main: seq<Entry>, number: int, reading: Reading)
    requires i < |head|
    ensures Filter(head[..i + 1], IsIdentified(reading))
            == if IsIdentified(reading)(head[i]) then Filter(head[..i], IsIdentified(reading)) + [head[i]]
               else Filter(head[..i], IsIdentified(reading))
    ensures NumberReport(head[..i + 1], main, number, reading)
            == if number > 0 && IsExcess(head[..i], head[i], main, reading) && Miscited(reading, number)(head[i])
               then NumberReport(head[..i], main, number, reading) + [WrongNumber(head[i].line)]
               else NumberReport(head[..i], main, number, reading)
  {
    TakeOneMore(head, i);
    FilterSnoc(head[..i], head[i], IsIdentified(reading));
    NumberStep(head[..i], head[i], main, number, reading);
  }

  // Entries that an edit does not tell apart, placeholders aside.
  function SameEntry(reading: Reading, e: Entry): Entry -> bool {
    (x: Entry) =>
      && x.text != "- no entries yet" && x.text != "- no API change (version bump only)"
      && x.package == e.package && x.subsection == e.subsection
      && reading.kind(x.text) == reading.kind(e.text) && reading.symbol(x.text) == reading.symbol(e.text)
  }

  // Entry i of the head is no placeholder, has a kind, and main has no entry left for it: as
  // many like it come before as main has.
  ghost predicate AddsEntry(head: seq<Entry>, i: nat, main: seq<Entry>, reading: Reading)
    requires i < |head|
  {
    && SameEntry(reading, head[i])(head[i]) && reading.kind(head[i].text) != None
    && |Filter(head[..i], SameEntry(reading, head[i]))| >= |Filter(main, SameEntry(reading, head[i]))|
  }

  ghost predicate WrongAt(head: seq<Entry>, i: nat, main: seq<Entry>, number: int, reading: Reading, line: nat)
    requires i < |head|
  {
    AddsEntry(head, i, main, reading) && head[i].line == line && number !in reading.cited(head[i].text)
  }

  // A wrong number is reported at a line exactly when an added entry stands there without it.
  ghost predicate NumbersChecked(problems: seq<Problem>, head: seq<Entry>, main: seq<Entry>, number: int,
                                 reading: Reading)
  {
    forall line :: WrongNumber(line) in problems <==>
      number > 0 && exists i: nat :: i < |head| && WrongAt(head, i, main, number, reading, line)
  }

  // A lack is reported at a line exactly when an entry stands there that lacks it.
  ghost predicate FormatsChecked(problems: seq<Problem>, head: seq<Entry>, reading: Reading) {
    forall line, lack :: Format(line, lack) in problems <==>
      exists e :: e in head && LacksAt(e, reading, line, lack)
  }

  ghost predicate LacksAt(e: Entry, reading: Reading, line: nat, lack: string) {
    && e.text != "- no entries yet" && e.text != "- no API change (version bump only)"
    && e.line == line && lack in reading.lacks(e.text)
  }

  lemma {:induction false} OccursFiltered<T, K>(s: seq<T>, keep: T -> bool, key: T -> K, k: K, both: T -> bool)
    requires forall x :: x in s ==> both(x) == (keep(x) && key(x) == k)
    ensures Occurs(Filter(s, keep), key, k) == |Filter(s, both)|
  {
    if s != [] {
      var front, last := s[..|s| - 1], s[|s| - 1];
      assert last in s;
      OccursFiltered(front, keep, key, k, both);
      if keep(last) {
        OccursSnoc(Filter(front, keep), last, key, k);
      } else {
        AppendNothing(Filter(front, keep));
      }
    }
  }

  lemma SameIdentity(reading: Reading, x: Entry, e: Entry)
    ensures IdentityOf(reading)(x) == IdentityOf(reading)(e) <==>
              && x.package == e.package && x.subsection == e.subsection
              && reading.kind(x.text) == reading.kind(e.text) && reading.symbol(x.text) == reading.symbol(e.text)
  {
  }

  lemma ExcessIsAdded(head: seq<Entry>, i: nat, main: seq<Entry>, reading: Reading)
    requires i < |head|
    ensures IsExcess(head[..i], head[i], main, reading) <==> AddsEntry(head, i, main, reading)
  {
    var e := head[i];
    if IsIdentified(reading)(e) {
      forall x: Entry
        ensures SameEntry(reading, e)(x)
             == (IsIdentified(reading)(x) && IdentityOf(reading)(x) == IdentityOf(reading)(e))
        ensures SameEntry(reading, e)(x) == (IsReal(x) && IdentityOf(reading)(x) == IdentityOf(reading)(e))
      {
        SameIdentity(reading, x, e);
      }
      OccursFiltered(head[..i], IsIdentified(reading), IdentityOf(reading), IdentityOf(reading)(e),
                     SameEntry(reading, e));
      OccursFiltered(main, IsReal, IdentityOf(reading), IdentityOf(reading)(e), SameEntry(reading, e));
    }
  }

  lemma AddsEntryKept(head: seq<Entry>, more: seq<Entry>, i: nat, main: seq<Entry>, reading: Reading)
    requires i < |head|
    ensures AddsEntry(head + more, i, main, reading) == AddsEntry(head, i, main, reading)
  {
    assert (head + more)[..i] == head[..i];
  }

  // The added entries, by their place in the head.
  lemma {:induction false} AddedHas(head: seq<Entry>, main: seq<Entry>, reading: Reading, x: Entry)
    ensures x in Added(head, main, reading) <==>
              exists i: nat :: i < |head| && AddsEntry(head, i, main, reading) && head[i] == x
  {
    if head != [] {
      var front, last := head[..|head| - 1], head[|head| - 1];
      assert head == front + [last] && head[..|head| - 1] == front;
      AddedHas(front, main, reading, x);
      AddedStep(front, last, main, reading);
      ExcessIsAdded(head, |head| - 1, main, reading);
      forall i: nat | i < |front| ensures AddsEntry(head, i, main, reading) == AddsEntry(front, i, main, reading) {
        AddsEntryKept(front, [last], i, main, reading);
      }
    }
  }

  lemma NumberReported(head: seq<Entry>, main: seq<Entry>, number: int, reading: Reading, line: nat)
    ensures WrongNumber(line) in NumberReport(head, main, number, reading) <==>
              number > 0 && exists e :: e in Added(head, main, reading) && e.line == line
                                        && number !in reading.cited(e.text)
  {
    if number > 0 {
      var wrong := Filter(Added(head, main, reading), Miscited(reading, number));
      forall e: Entry ensures e in wrong <==> e in Added(head, main, reading) && number !in reading.cited(e.text) {
        FilterMember(Added(head, main, reading), Miscited(reading, number), e);
      }
      assert |Map(wrong, Warning())| == |wrong|;
      forall e | e in wrong && e.line == line ensures WrongNumber(line) in Map(wrong, Warning()) {
        var i :| 0 <= i < |wrong| && wrong[i] == e;
        assert Map(wrong, Warning())[i] == WrongNumber(line);
      }
      if WrongNumber(line) in Map(wrong, Warning()) {
        var i :| 0 <= i < |wrong| && Map(wrong, Warning())[i] == WrongNumber(line);
        assert wrong[i] in wrong && wrong[i].line == line;
      }
    }
  }

  lemma NumbersAreChecked(head: seq<Entry>, main: seq<Entry>, number: int, reading: Reading)
    ensures NumbersChecked(NumberReport(head, main, number, reading), head, main, number, reading)
  {
    forall line ensures WrongNumber(line) in NumberReport(head, main, number, reading) <==>
                        number > 0 && exists i: nat :: i < |head| && WrongAt(head, i, main, number, reading, line)
    {
      NumberReported(head, main, number, reading, line);
      AddedWrong(head, main, number, reading, line);
    }
  }

  // An added entry at a line without the number, by element and by place.
  lemma AddedWrong(head: seq<Entry>, main: seq<Entry>, number: int, reading: Reading, line: nat)
    ensures (exists e :: e in Added(head, main, reading) && e.line == line && number !in reading.cited(e.text))
            <==> exists i: nat :: i < |head| && WrongAt(head, i, main, number, reading, line)
  {
    forall e: Entry ensures e in Added(head, main, reading) <==>
                            exists i: nat :: i < |head| && AddsEntry(head, i, main, reading) && head[i] == e
    {
      AddedHas(head, main, reading, e);
    }
    forall i: nat | i < |head| && WrongAt(head, i, main, number, reading, line)
      ensures head[i] in Added(head, main, reading) && head[i].line == line && number !in reading.cited(head[i].text)
    {
      assert AddsEntry(head, i, main, reading) && head[i] == head[i];
    }
    forall e | e in Added(head, main, reading) && e.line == line && number !in reading.cited(e.text)
      ensures exists i: nat :: i < |head| && WrongAt(head, i, main, number, reading, line)
    {
      var i: nat :| i < |head| && AddsEntry(head, i, main, reading) && head[i] == e;
      assert WrongAt(head, i, main, number, reading, line);
    }
  }

  lemma FormatsAreChecked(head: seq<Entry>, reading: Reading)
    ensures FormatsChecked(Collect(head, FormatOf(reading)), head, reading)
    ensures forall p :: p in Collect(head, FormatOf(reading)) ==> p.Format?
  {
    forall p: Problem
      ensures p in Collect(head, FormatOf(reading)) <==> exists e :: e in head && p in FormatOf(reading)(e)
    {
      CollectMember(head, FormatOf(reading), p);
    }
    forall e, line, lack ensures Format(line, lack) in FormatOf(reading)(e) <==> LacksAt(e, reading, line, lack) {
      FormatHolds(e, reading, line, lack);
    }
    forall p | p in Collect(head, FormatOf(reading)) ensures p.Format? {
      var e :| e in head && p in FormatOf(reading)(e);
      OnlyFormats(e, reading, p);
    }
  }

  lemma OnlyFormats(e: Entry, reading: Reading, p: Problem)
    requires p in FormatOf(reading)(e)
    ensures p.Format?
  {
    var lacks := reading.lacks(e.text);
    assert |Map(lacks, (l: string) => Format(e.line, l))| == |lacks|;
  }

  lemma FormatHolds(e: Entry, reading: Reading, line: nat, lack: string)
    ensures Format(line, lack) in FormatOf(reading)(e) <==> LacksAt(e, reading, line, lack)
  {
    var lacks := reading.lacks(e.text);
    if LacksAt(e, reading, line, lack) {
      var i :| 0 <= i < |lacks| && lacks[i] == lack;
      assert FormatOf(reading)(e)[i] == Format(line, lack);
    }
  }

  // Formats and numbers are told apart in the whole report.
  lemma ReportIsChecked(head: seq<Entry>, main: seq<Entry>, number: int, reading: Reading)
    ensures var report := Collect(head, FormatOf(reading)) + NumberReport(head, main, number, reading);
      && NumbersChecked(report, head, main, number, reading) && FormatsChecked(report, head, reading)
      && NoHeading !in report
  {
    FormatsAreChecked(head, reading);
    NumbersAreChecked(head, main, number, reading);
    assert forall p :: p in NumberReport(head, main, number, reading) ==> p.WrongNumber?;
  }

  // No number is reported wrong exactly when there is none to check or every added entry has it.
  lemma NumbersCleanIff(head: seq<string>, main: seq<string>, number: int, reading: Reading)
    ensures (forall line :: WrongNumber(line) !in EntryReport(head, main, number, reading))
            <==> || Unreleased(head).1 == None || number <= 0
                 || forall e :: e in Added(Unreleased(head).0, Unreleased(main).0, reading) ==>
                      number in reading.cited(e.text)
  {
    if Unreleased(head).1 != None {
      var entries, base := Unreleased(head).0, Unreleased(main).0;
      FormatsAreChecked(entries, reading);
      forall line ensures WrongNumber(line) in EntryReport(head, main, number, reading) <==>
                          number > 0 && exists e :: e in Added(entries, base, reading) && e.line == line
                                                    && number !in reading.cited(e.text)
      {
        NumberReported(entries, base, number, reading, line);
      }
      if exists e :: e in Added(entries, base, reading) && number !in reading.cited(e.text) {
        var e :| e in Added(entries, base, reading) && number !in reading.cited(e.text);
        assert number > 0 ==> WrongNumber(e.line) in EntryReport(head, main, number, reading);
      }
    }
  }

  method EntryProblems(head: seq<string>, main: seq<string>, number: int, reading: Reading)
    returns (problems: seq<Problem>)
    ensures problems == EntryReport(head, main, number, reading)
    ensures Unreleased(head).1 == None ==> problems == [NoHeading]
    ensures Unreleased(head).1 != None ==>
              && NoHeading !in problems && FormatsChecked(problems, Unreleased(head).0, reading)
              && NumbersChecked(problems, Unreleased(head).0, Unreleased(main).0, number, reading)
  {
    var entries, heading := ReadUnreleased(head);
    if heading == None {
      return [NoHeading];
    }
    problems := [];
    for i := 0 to |entries|
      invariant problems == Collect(entries[..i], FormatOf(reading))
    {
      TakeOneMore(entries, i);
      problems := problems + FormatOf(reading)(entries[i]);
    }
    assert entries[..|entries|] == entries;
    var mainEntries, _ := ReadUnreleased(main);
    var numbered := NumberProblems(entries, mainEntries, number, reading);
    ReportIsChecked(entries, mainEntries, number, reading);
    problems := problems + numbered;
  }

  // For every identity, the entries held to this change's number are exactly the excess of head
  // over main, and they are entries of head with a kind.
  lemma AddedPerIdentity(head: seq<Entry>, main: seq<Entry>, reading: Reading, k: Identity)
    ensures Occurs(Added(head, main, reading), IdentityOf(reading), k)
            == Excess(Occurs(Filter(head, IsIdentified(reading)), IdentityOf(reading), k),
                      Occurs(Filter(main, IsReal), IdentityOf(reading), k))
  {
    LeftOverCount(Filter(head, IsIdentified(reading)), IdentityOf(reading),
                  Filter(main, IsReal), IdentityOf(reading), k);
  }

  // Rewording the entries main has, in any order, is held to no number.
  lemma EditsKeepTheirNumbers(head: seq<Entry>, main: seq<Entry>, number: int, reading: Reading)
    requires multiset(Map(Filter(head, IsIdentified(reading)), IdentityOf(reading)))
             <= multiset(Map(Filter(main, IsReal), IdentityOf(reading)))
    ensures NumberReport(head, main, number, reading) == []
  {
    var mine, theirs := Filter(head, IsIdentified(reading)), Filter(main, IsReal);
    forall k ensures Occurs(mine, IdentityOf(reading), k) <= Occurs(theirs, IdentityOf(reading), k) {
      OccursInMultiset(mine, IdentityOf(reading), k);
      OccursInMultiset(theirs, IdentityOf(reading), k);
    }
    LeftOverEmpty(mine, IdentityOf(reading), theirs, IdentityOf(reading));
    assert NoMore(mine, IdentityOf(reading), theirs, IdentityOf(reading));
  }
}
