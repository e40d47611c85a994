// Reading the entries of a changelog's [Unreleased] section.
module Changelog {
  import opened Common
  import opened TextOps

  datatype Entry = Entry(line: nat, package: string, subsection: string, text: string)

  // " ".join(text.split()): the words of a text, one blank between.
  function Words(text: string): seq<string> {
    if text == "" then []
    else
      var front, c := Words(text[..|text| - 1]), text[|text| - 1];
      if IsSpace(c) then front
      else if front != [] && |text| > 1 && !IsSpace(text[|text| - 2])
      then front[..|front| - 1] + [front[|front| - 1] + [c]]
      else front + [[c]]
  }

  function Collapse(text: string): string {
    Join(Words(text), " ")
  }

  const UNRELEASED := "## [Unreleased]"

  predicate IsBullet(line: string) {
    StartsWith(line, "- ")
  }

  // A continuation of the bullet above, when there is one.
  predicate IsIndented(line: string) {
    StartsWith(line, "  ") && Strip(line) != ""
  }

  predicate IsPackage(line: string) {
    StartsWith(line, "### ")
  }

  predicate IsSubsection(line: string) {
    StartsWith(line, "#### ")
  }

  predicate IsRelease(line: string) {
    StartsWith(line, "## ")
  }

  // What follows the marks of a heading, before it is stripped.
  function PackageOf(line: string): string
    requires IsPackage(line)
  {
    line[4..]
  }

  function SubsectionOf(line: string): string
    requires IsSubsection(line)
  {
    line[5..]
  }

  // The first index from i on whose line satisfies p, or the number of lines.
  function FirstFrom(lines: seq<string>, i: nat, p: string -> bool): (j: nat)
    requires i <= |lines|
    ensures i <= j <= |lines|
    ensures forall k :: i <= k < j ==> !p(lines[k])
    ensures j < |lines| ==> p(lines[j])
    decreases |lines| - i
  {
    if i == |lines| || p(lines[i]) then i else FirstFrom(lines, i + 1, p)
  }

  // ---------------------------------------------------------------- the reader's state

  // A bullet's lines under its headings, as they stand in the file.
  datatype Block = Block(line: nat, package: string, subsection: string, lines: seq<string>)

  // The entry a block becomes: headings stripped, lines joined and collapsed.
  function Finish(b: Block): Entry {
    Entry(b.line, Strip(b.package), Strip(b.subsection), Collapse(Join(b.lines, " ")))
  }

  datatype Section = Section(
    package: string, subsection: string, current: seq<string>, first: nat, blocks: seq<Block>)

  const BEGIN := Section("", "", [], 0, [])

  function Flush(s: Section): Section {
    if s.current == [] then s
    else s.(blocks := s.blocks + [Block(s.first + 1, s.package, s.subsection, s.current)], current := [])
  }

  // One line of the section, at index i of the file.
  function Step(s: Section, line: string, i: nat): Section {
    if IsBullet(line) then Flush(s).(current := [line], first := i)
    else if s.current != [] && IsIndented(line) then s.(current := s.current + [line])
    else
      var f := Flush(s);
      if IsPackage(line) then f.(package := PackageOf(line), subsection := "")
      else if IsSubsection(line) then f.(subsection := SubsectionOf(line))
      else f
  }

  // The lines from index a up to b.
  function ReadRange(lines: seq<string>, a: nat, b: nat): Section
    requires a <= b <= |lines|
    decreases b - a
  {
    if a == b then BEGIN else Step(ReadRange(lines, a, b - 1), lines[b - 1], b - 1)
  }

  // Where the section's heading is and where its lines end.
  function Heading(lines: seq<string>): nat {
    FirstFrom(lines, 0, (l: string) => StartsWith(l, UNRELEASED))
  }

  function SectionEnd(lines: seq<string>): nat
    requires Heading(lines) < |lines|
  {
    FirstFrom(lines, Heading(lines) + 1, IsRelease)
  }

  // The entries, and the heading's line when there is one.
  function Unreleased(lines: seq<string>): (seq<Entry>, Option<nat>) {
    var start := Heading(lines);
    if start == |lines| then ([], None)
    else (Map(Flush(ReadRange(lines, start + 1, SectionEnd(lines))).blocks, Finish), Some(start + 1))
  }

  // The reader's variables and the inner flush that shares them.
  class Reader {
    var package: string
    var subsection: string
    var current: seq<string>
    var first: nat
    var entries: seq<Entry>
    // The same with nothing stripped or collapsed yet.
    ghost var state: Section

    ghost predicate Valid()
      reads this
    {
      && package == Strip(state.package) && subsection == Strip(state.subsection)
      && current == state.current && first == state.first
      && entries == Map(state.blocks, Finish)
    }

    constructor ()
      ensures Valid() && state == BEGIN
    {
      package, subsection, current, first, entries := "", "", [], 0, [];
      state := BEGIN;
    }

    method FlushCurrent()
      requires Valid()
      modifies this
      ensures Valid() && state == Flush(old(state)) && current == []
    {
      if current != [] {
        entries := entries + [Entry(first + 1, package, subsection, Collapse(Join(current, " ")))];
        current := [];
      }
      state := Flush(state);
    }

    // The entries, the last open one included.
    // Every line up to the next release heading.
    method ReadLines(lines: seq<string>, a: nat)
      requires a <= |lines| && Valid() && state == BEGIN
      modifies this
      ensures Valid() && state == ReadRange(lines, a, FirstFrom(lines, a, IsRelease))
    {
      ghost var end := FirstFrom(lines, a, IsRelease);
      var i := a;
      while i < |lines| && !IsRelease(lines[i])
        invariant a <= i <= end
        invariant Valid() && state == ReadRange(lines, a, i)
      {
        ReadLine(lines[i], i);
        RangeNext(lines, a, i);
        i := i + 1;
      }
      assert i == end;
    }

    method Finished() returns (all: seq<Entry>)
      requires Valid()
      modifies this
      ensures all == Map(Flush(old(state)).blocks, Finish)
    {
      FlushCurrent();
      all := entries;
    }

    // A heading sets the labels; any other line ends the entry above it.
    method ReadLabel(line: string, i: nat)
      requires Valid() && !IsBullet(line) && !(current != [] && IsIndented(line))
      modifies this
      ensures Valid() && state == Step(old(state), line, i)
    {
      ghost var before := state;
      FlushCurrent();
      if IsPackage(line) {
        package, subsection := Strip(PackageOf(line)), "";
      } else if IsSubsection(line) {
        subsection := Strip(SubsectionOf(line));
      }
      state := Step(before, line, i);
    }

    method ReadLine(line: string, i: nat)
      requires Valid()
      modifies this
      ensures Valid() && state == Step(old(state), line, i)
    {
      if IsBullet(line) {
        FlushCurrent();
        current := current + [line];
        first := i;
        state := state.(current := [line], first := i);
      } else if current != [] && IsIndented(line) {
        current := current + [line];
        state := state.(current := state.current + [line]);
      } else {
        ReadLabel(line, i);
      }
    }
  }

  // The section's lines, from index a up to the next release heading.
  method ReadSection(lines: seq<string>, a: nat) returns (entries: seq<Entry>)
    requires a <= |lines|
    ensures entries == Map(Flush(ReadRange(lines, a, FirstFrom(lines, a, IsRelease))).blocks, Finish)
  {
    var reader := new Reader();
    reader.ReadLines(lines, a);
    entries := reader.Finished();
  }

  lemma RangeNext(lines: seq<string>, a: nat, i: nat)
    requires a <= i < |lines|
    ensures ReadRange(lines, a, i + 1) == Step(ReadRange(lines, a, i), lines[i], i)
  {
  }

  method ReadUnreleased(lines: seq<string>) returns (entries: seq<Entry>, heading: Option<nat>)
    ensures (entries, heading) == Unreleased(lines)
  {
    var start := Heading(lines);
    if start == |lines| {
      return [], None;
    }
    entries := ReadSection(lines, start + 1);
    heading := Some(start + 1);
  }

  // ---------------------------------------------------------------- what an entry is

  // The end of the bullet block that begins at i: the first line after it that does not
  // continue it.
  function BlockEnd(lines: seq<string>, i: nat, end: nat): (j: nat)
    requires i < end <= |lines|
    ensures i < j <= end
    ensures forall k :: i < k < j ==> IsIndented(lines[k])
    ensures j < end ==> !IsIndented(lines[j])
    decreases end - i
  {
    if i + 1 == end || !IsIndented(lines[i + 1]) then i + 1 else BlockEnd(lines, i + 1, end)
  }

  // The nearest package heading above line i of the section that starts at a.
  function NearestPackage(lines: seq<string>, a: nat, i: nat): string
    requires a <= i <= |lines|
    decreases i - a
  {
    if a == i then ""
    else if IsPackage(lines[i - 1]) then PackageOf(lines[i - 1])
    else NearestPackage(lines, a, i - 1)
  }

  // The nearest subsection heading above line i, unless a package heading is nearer.
  function NearestSubsection(lines: seq<string>, a: nat, i: nat): string
    requires a <= i <= |lines|
    decreases i - a
  {
    if a == i || IsPackage(lines[i - 1]) then ""
    else if IsSubsection(lines[i - 1]) then SubsectionOf(lines[i - 1])
    else NearestSubsection(lines, a, i - 1)
  }

  // The block of the bullet at line i of the section a..end.
  function BlockAt(lines: seq<string>, a: nat, i: nat, end: nat): Block
    requires a <= i < end <= |lines|
  {
    Block(i + 1, NearestPackage(lines, a, i), NearestSubsection(lines, a, i), lines[i..BlockEnd(lines, i, end)])
  }

  // ---------------------------------------------------------------- what the reader recovers

  // A heading or a bullet continues nothing.
  lemma LineKinds(line: string)
    ensures IsIndented(line) ==> !IsBullet(line) && !IsPackage(line) && !IsSubsection(line)
    ensures IsBullet(line) ==> !IsPackage(line) && !IsSubsection(line)
    ensures IsPackage(line) ==> !IsSubsection(line)
  {
    if IsIndented(line) { assert line[0] == line[..2][0] == ' '; }
    if IsBullet(line) { assert line[0] == line[..2][0] == '-'; }
    if IsPackage(line) { assert line[0] == line[..4][0] == '#' && line[3] == line[..4][3] == ' '; }
    if IsSubsection(line) { assert line[0] == line[..5][0] == '#' && line[3] == line[..5][3] == '#'; }
  }

  // A block that ends before the end of the range ends there in any longer range.
  lemma {:induction false} BlockSettled(lines: seq<string>, i: nat, end: nat)
    requires i < end < |lines|
    ensures BlockEnd(lines, i, end) < end ==> BlockEnd(lines, i, end + 1) == BlockEnd(lines, i, end)
    ensures BlockEnd(lines, i, end) == end ==>
              BlockEnd(lines, i, end + 1) == if IsIndented(lines[end]) then end + 1 else end
    decreases end - i
  {
    if i + 1 < end && IsIndented(lines[i + 1]) {
      BlockSettled(lines, i + 1, end);
    }
  }

  // The state after reading a..b, said without its history.
  ghost predicate Reads(lines: seq<string>, a: nat, b: nat, s: Section)
    requires a <= b <= |lines|
  {
    && s.package == NearestPackage(lines, a, b) && s.subsection == NearestSubsection(lines, a, b)
    && (if s.current == [] then
          && (forall i :: a <= i < b && IsBullet(lines[i]) ==> BlockEnd(lines, i, b) < b)
          && s.blocks == BlocksOf(lines, a, b, b)
        else
          && a <= s.first < b && IsBullet(lines[s.first])
          && s.current == lines[s.first..b] && BlockEnd(lines, s.first, b) == b
          && s.blocks == BlocksOf(lines, a, s.first, b))
  }

  // The blocks of the bullets in a..upto, each ending within end.
  function BlocksOf(lines: seq<string>, a: nat, upto: nat, end: nat): seq<Block>
    requires a <= upto <= end <= |lines|
    decreases upto
  {
    if a == upto then []
    else
      BlocksOf(lines, a, upto - 1, end)
      + if IsBullet(lines[upto - 1]) then [BlockAt(lines, a, upto - 1, end)] else []
  }

  // Blocks that have ended do not change as the range grows.
  lemma {:induction false} BlocksSettled(lines: seq<string>, a: nat, upto: nat, end: nat)
    requires a <= upto <= end < |lines|
    requires forall i :: a <= i < upto && IsBullet(lines[i]) ==>
               BlockEnd(lines, i, end) < end || !IsIndented(lines[end])
    ensures BlocksOf(lines, a, upto, end + 1) == BlocksOf(lines, a, upto, end)
    decreases upto
  {
    if a < upto {
      var i := upto - 1;
      BlocksSettled(lines, a, i, end);
      if IsBullet(lines[i]) {
        BlockSettled(lines, i, end);
        assert BlockAt(lines, a, i, end + 1) == BlockAt(lines, a, i, end);
      }
    }
  }

  // Indented lines bring neither headings nor bullets.
  lemma {:induction false} HeadingsUnderIndented(lines: seq<string>, a: nat, i: nat, b: nat)
    requires a <= i < b <= |lines| && IsBullet(lines[i])
    requires forall k :: i < k < b ==> IsIndented(lines[k])
    ensures NearestPackage(lines, a, b) == NearestPackage(lines, a, i)
    ensures NearestSubsection(lines, a, b) == NearestSubsection(lines, a, i)
    decreases b
  {
    LineKinds(lines[b - 1]);
    if i + 1 < b {
      HeadingsUnderIndented(lines, a, i, b - 1);
    }
  }

  lemma {:induction false} BlocksUnderIndented(lines: seq<string>, a: nat, i: nat, b: nat, end: nat)
    requires a <= i < b <= end <= |lines| && IsBullet(lines[i])
    requires forall k :: i < k < b ==> IsIndented(lines[k])
    ensures BlocksOf(lines, a, b, end) == BlocksOf(lines, a, i, end) + [BlockAt(lines, a, i, end)]
    decreases b
  {
    LineKinds(lines[b - 1]);
    if i + 1 < b {
      BlocksUnderIndented(lines, a, i, b - 1, end);
      assert !IsBullet(lines[b - 1]);
    }
  }

  // The open bullet's block, as flush writes it.
  lemma OpenBlock(lines: seq<string>, a: nat, b: nat, s: Section)
    requires a <= b <= |lines| && Reads(lines, a, b, s) && s.current != []
    ensures Block(s.first + 1, s.package, s.subsection, s.current) == BlockAt(lines, a, s.first, b)
  {
    HeadingsUnderIndented(lines, a, s.first, b);
  }

  // Flushing gives the block of every bullet read.
  lemma FlushedBlocks(lines: seq<string>, a: nat, b: nat, s: Section)
    requires a <= b <= |lines| && Reads(lines, a, b, s)
    ensures Flush(s).blocks == BlocksOf(lines, a, b, b)
  {
    if s.current != [] {
      OpenBlock(lines, a, b, s);
      BlocksUnderIndented(lines, a, s.first, b, b);
    }
  }

  // A block that is over: no bullet before the open one reaches the end.
  lemma {:induction false} EarlierBlocksEnded(lines: seq<string>, i: nat, first: nat, b: nat)
    requires i < first < b <= |lines| && IsBullet(lines[first])
    ensures BlockEnd(lines, i, b) <= first
    decreases first - i
  {
    LineKinds(lines[first]);
    if i + 1 < first && IsIndented(lines[i + 1]) {
      EarlierBlocksEnded(lines, i + 1, first, b);
    }
  }

  lemma StepContinues(lines: seq<string>, a: nat, b: nat, s: Section)
    requires a <= b < |lines| && Reads(lines, a, b, s)
    requires s.current != [] && IsIndented(lines[b])
    ensures Reads(lines, a, b + 1, Step(s, lines[b], b))
  {
    LineKinds(lines[b]);
    EarlierBlocksStay(lines, a, s.first, b);
    BlockSettled(lines, s.first, b);
    SliceSnoc(lines, s.first, b);
  }

  lemma SliceSnoc<T>(s: seq<T>, i: nat, j: nat)
    requires i <= j < |s|
    ensures s[i..j + 1] == s[i..j] + [s[j]]
  {
  }

  // Blocks before a bullet have ended at it.
  lemma EarlierBlocksStay(lines: seq<string>, a: nat, first: nat, b: nat)
    requires a <= first < b < |lines| && IsBullet(lines[first])
    ensures BlocksOf(lines, a, first, b + 1) == BlocksOf(lines, a, first, b)
  {
    forall i | a <= i < first && IsBullet(lines[i]) ensures BlockEnd(lines, i, b) < b {
      EarlierBlocksEnded(lines, i, first, b);
    }
    BlocksSettled(lines, a, first, b);
  }

  lemma StepBullet(lines: seq<string>, a: nat, b: nat, s: Section)
    requires a <= b < |lines| && Reads(lines, a, b, s) && IsBullet(lines[b])
    ensures Reads(lines, a, b + 1, Step(s, lines[b], b))
  {
    LineKinds(lines[b]);
    FlushedBlocks(lines, a, b, s);
    BlocksSettled(lines, a, b, b);
    assert lines[b..b + 1] == [lines[b]];
  }

  lemma StepOther(lines: seq<string>, a: nat, b: nat, s: Section)
    requires a <= b < |lines| && Reads(lines, a, b, s)
    requires !IsBullet(lines[b]) && !(s.current != [] && IsIndented(lines[b]))
    ensures Reads(lines, a, b + 1, Step(s, lines[b], b))
  {
    LineKinds(lines[b]);
    FlushedBlocks(lines, a, b, s);
    BlocksSettled(lines, a, b, b);
    forall i | a <= i < b + 1 && IsBullet(lines[i]) ensures BlockEnd(lines, i, b + 1) < b + 1 {
      BlockSettled(lines, i, b);
    }
  }

  lemma StepReads(lines: seq<string>, a: nat, b: nat, s: Section)
    requires a <= b < |lines| && Reads(lines, a, b, s)
    ensures Reads(lines, a, b + 1, Step(s, lines[b], b))
  {
    if IsBullet(lines[b]) {
      StepBullet(lines, a, b, s);
    } else if s.current != [] && IsIndented(lines[b]) {
      StepContinues(lines, a, b, s);
    } else {
      StepOther(lines, a, b, s);
    }
  }

  lemma {:induction false} RangeReads(lines: seq<string>, a: nat, b: nat)
    requires a <= b <= |lines|
    ensures Reads(lines, a, b, ReadRange(lines, a, b))
    decreases b - a
  {
    if a < b {
      RangeReads(lines, a, b - 1);
      StepReads(lines, a, b - 1, ReadRange(lines, a, b - 1));
    }
  }

  // For every text: the reader returns one entry for each bullet of the section, in order, with
  // its line, the nearest package and subsection headings above it (a package heading resets
  // the subsection), and its own lines up to the first that does not continue it.
  lemma UnreleasedRecovers(lines: seq<string>)
    ensures var (entries, heading) := Unreleased(lines);
      if Heading(lines) == |lines| then entries == [] && heading == None
      else
        && heading == Some(Heading(lines) + 1)
        && entries == Map(BlocksOf(lines, Heading(lines) + 1, SectionEnd(lines), SectionEnd(lines)), Finish)
  {
    if Heading(lines) < |lines| {
      var a, end := Heading(lines) + 1, SectionEnd(lines);
      RangeReads(lines, a, end);
      FlushedBlocks(lines, a, end, ReadRange(lines, a, end));
    }
  }

  // Where the blocks come from: one per bullet line, and nothing else.
  ghost predicate IsBlockOf(lines: seq<string>, a: nat, upto: nat, end: nat, i: nat, block: Block)
    requires a <= upto <= end <= |lines|
  {
    a <= i < upto && IsBullet(lines[i]) && block == BlockAt(lines, a, i, end)
  }

  lemma LastBullet(lines: seq<string>, a: nat, last: nat, end: nat, block: Block)
    requires a <= last < end <= |lines|
    ensures block in BlocksOf(lines, a, last + 1, end) <==>
              block in BlocksOf(lines, a, last, end) || IsBlockOf(lines, a, last + 1, end, last, block)
  {
  }

  lemma {:induction false} BlockForEachBullet(lines: seq<string>, a: nat, upto: nat, end: nat, block: Block)
    requires a <= upto <= end <= |lines|
    ensures block in BlocksOf(lines, a, upto, end) <==> exists i :: IsBlockOf(lines, a, upto, end, i, block)
    decreases upto
  {
    if a < upto {
      var last := upto - 1;
      BlockForEachBullet(lines, a, last, end, block);
      LastBullet(lines, a, last, end, block);
      BlockOneMore(lines, a, last, upto, end, block);
    }
  }

  lemma BlockOneMore(lines: seq<string>, a: nat, last: nat, upto: nat, end: nat, block: Block)
    requires a <= last < end <= |lines| && upto == last + 1
    ensures (exists i :: IsBlockOf(lines, a, upto, end, i, block))
       <==> (exists i :: IsBlockOf(lines, a, last, end, i, block)) || IsBlockOf(lines, a, upto, end, last, block)
  {
    if i :| IsBlockOf(lines, a, last, end, i, block) {
      assert IsBlockOf(lines, a, upto, end, i, block);
    }
    if i :| IsBlockOf(lines, a, upto, end, i, block) {
      assert i == last || IsBlockOf(lines, a, last, end, i, block);
    }
  }

  // ---------------------------------------------------------------- locality

  lemma {:induction false} FirstFromPrefix(a: seq<string>, b: seq<string>, i: nat, p: string -> bool)
    requires i <= |a| <= |b| && b[..|a|] == a
    ensures FirstFrom(a, i, p) < |a| ==> FirstFrom(b, i, p) == FirstFrom(a, i, p)
    decreases |a| - i
  {
    if i < |a| {
      assert a[i] == b[i];
      FirstFromPrefix(a, b, i + 1, p);
    }
  }

  lemma {:induction false} ReadRangePrefix(a: seq<string>, b: seq<string>, lo: nat, hi: nat)
    requires lo <= hi <= |a| <= |b| && b[..|a|] == a
    ensures ReadRange(a, lo, hi) == ReadRange(b, lo, hi)
    decreases hi - lo
  {
    if lo < hi {
      assert a[hi - 1] == b[hi - 1];
      ReadRangePrefix(a, b, lo, hi - 1);
    }
  }

  // Lines from the next release heading on never affect the result.
  lemma UnreleasedIsLocal(lines: seq<string>, more: seq<string>)
    requires Heading(lines) < |lines| && SectionEnd(lines) < |lines|
    ensures Unreleased(lines[..SectionEnd(lines) + 1] + more) == Unreleased(lines)
  {
    var upto := SectionEnd(lines) + 1;
    HeadingIsLocal(lines, more, upto);
    FirstIsLocal(lines, more, Heading(lines) + 1, upto, IsRelease);
    RangeIsLocal(lines, more, Heading(lines) + 1, upto - 1, upto);
  }

  lemma HeadingIsLocal(lines: seq<string>, more: seq<string>, upto: nat)
    requires Heading(lines) < upto <= |lines|
    ensures Heading(lines[..upto] + more) == Heading(lines)
  {
    FirstIsLocal(lines, more, 0, upto, (l: string) => StartsWith(l, UNRELEASED));
  }

  lemma FirstIsLocal(lines: seq<string>, more: seq<string>, i: nat, upto: nat, p: string -> bool)
    requires i <= upto <= |lines| && FirstFrom(lines, i, p) < upto
    ensures FirstFrom(lines[..upto] + more, i, p) == FirstFrom(lines, i, p)
  {
    FirstSame(lines, lines[..upto], i, p);
    FirstFromPrefix(lines[..upto], lines[..upto] + more, i, p);
  }

  lemma RangeIsLocal(lines: seq<string>, more: seq<string>, lo: nat, hi: nat, upto: nat)
    requires lo <= hi <= upto <= |lines|
    ensures ReadRange(lines[..upto] + more, lo, hi) == ReadRange(lines, lo, hi)
  {
    ReadRangePrefix(lines[..upto], lines[..upto] + more, lo, hi);
    ReadRangePrefix(lines[..upto], lines, lo, hi);
  }

  // Cutting lines after a match does not change where the first match is.
  lemma {:induction false} FirstSame(lines: seq<string>, kept: seq<string>, i: nat, p: string -> bool)
    requires i <= |kept| <= |lines| && lines[..|kept|] == kept
    requires FirstFrom(lines, i, p) < |kept|
    ensures FirstFrom(kept, i, p) == FirstFrom(lines, i, p)
    decreases |kept| - i
  {
    if i < |kept| {
      assert lines[i] == kept[i];
      if !p(lines[i]) {
        FirstSame(lines, kept, i + 1, p);
      }
    }
  }
}
