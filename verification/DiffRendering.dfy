// Unified diffs as they are rendered from a pre-image and a post-image, and what the reader
// recovers from them.
module DiffRendering {
  import opened Common
  import opened TextOps
  import opened DiffReader
  import opened LineText

  // A line of a hunk: context, a line only before, a line only after, or the marker that the
  // line above has no newline.
  datatype Edit = Kept(text: string) | Removed(text: string) | Added(text: string) | NoNewline

  // Unchanged lines the diff does not show, then the lines it does. Tools leave out a count of
  // one; `counts` is set when this hunk's header spells it nevertheless.
  datatype Hunk = Hunk(gap: seq<string>, body: seq<Edit>, section: string, counts: bool)

  // One file: None is a deleted file's post-image path; `prefixed` when names carry a/ and b/.
  datatype FileDiff = FileDiff(preamble: seq<string>, oldName: string, path: Option<string>, prefixed: bool,
                               hunks: seq<Hunk>, rest: seq<string>)

  // ---------------------------------------------------------------- the images

  function PreLines(body: seq<Edit>): seq<string> {
    if body == [] then []
    else
      PreLines(body[..|body| - 1])
      + match body[|body| - 1] case Kept(t) => [t] case Removed(t) => [t] case _ => []
  }

  function PostLines(body: seq<Edit>): seq<string> {
    if body == [] then []
    else
      PostLines(body[..|body| - 1])
      + match body[|body| - 1] case Kept(t) => [t] case Added(t) => [t] case _ => []
  }

  function PostOf(hunks: seq<Hunk>): seq<string> {
    if hunks == [] then []
    else PostOf(hunks[..|hunks| - 1]) + hunks[|hunks| - 1].gap + PostLines(hunks[|hunks| - 1].body)
  }

  function PreOf(hunks: seq<Hunk>): seq<string> {
    if hunks == [] then []
    else PreOf(hunks[..|hunks| - 1]) + hunks[|hunks| - 1].gap + PreLines(hunks[|hunks| - 1].body)
  }

  function PostImage(f: FileDiff): seq<string> {
    PostOf(f.hunks) + f.rest
  }

  // ---------------------------------------------------------------- rendering

  function RenderEdit(e: Edit): string {
    match e
    case Kept(t) => " " + t
    case Removed(t) => "-" + t
    case Added(t) => "+" + t
    case NoNewline => "\\ No newline at end of file"
  }

  function RenderBody(body: seq<Edit>): seq<string> {
    Map(body, RenderEdit)
  }

  // The line a range starts at; a range that shows no line names the line before it.
  function RangeStart(before: nat, count: nat): nat {
    if count == 0 then before else before + 1
  }

  function RenderRange(before: nat, count: nat, counts: bool): string {
    ToDecimal(RangeStart(before, count)) + if count == 1 && !counts then "" else "," + ToDecimal(count)
  }

  function HeaderText(pre: string, post: string, section: string): string {
    "@@ -" + (pre + (" +" + (post + (" @@" + section))))
  }

  function RenderRanges(a: nat, m: nat, b: nat, n: nat, counts: bool, section: string): string {
    HeaderText(RenderRange(a, m, counts), RenderRange(b, n, counts), section)
  }

  function RenderHeader(h: Hunk, preBefore: nat, postBefore: nat): string {
    RenderRanges(preBefore + |h.gap|, |PreLines(h.body)|, postBefore + |h.gap|, |PostLines(h.body)|,
                 h.counts, h.section)
  }

  function RenderHunk(h: Hunk, preBefore: nat, postBefore: nat): seq<string> {
    [RenderHeader(h, preBefore, postBefore)] + RenderBody(h.body)
  }

  function RenderHunks(hunks: seq<Hunk>): seq<string> {
    if hunks == [] then []
    else
      var front := hunks[..|hunks| - 1];
      RenderHunks(front) + RenderHunk(hunks[|hunks| - 1], |PreOf(front)|, |PostOf(front)|)
  }

  function NewName(f: FileDiff): string {
    match f.path
    case Some(p) => if f.prefixed then "b/" + p else p
    case None => "/dev/null"
  }

  function RenderNames(f: FileDiff): seq<string> {
    ["--- " + f.oldName, "+++ " + NewName(f)]
  }

  // A file whose content does not change has no hunks and names no images.
  function RenderFile(f: FileDiff): seq<string> {
    f.preamble + if f.hunks == [] then [] else RenderNames(f) + RenderHunks(f.hunks)
  }

  function Render(files: seq<FileDiff>): seq<string> {
    if files == [] then [] else Render(files[..|files| - 1]) + RenderFile(files[|files| - 1])
  }

  // ---------------------------------------------------------------- what should be read

  function QuotesIn(body: seq<Edit>): nat {
    if body == [] then 0
    else
      QuotesIn(body[..|body| - 1])
      + match body[|body| - 1] case Kept(t) => Quotes(t) case Added(t) => Quotes(t) case _ => 0
  }

  // The added lines of a hunk whose first post line is number `first`: inside a string when
  // the hunk's lines above hold an odd number of triple quotes, or the line itself does.
  function BodyAdded(path: string, first: int, body: seq<Edit>): seq<AddedLine> {
    if body == [] then []
    else
      var front := body[..|body| - 1];
      BodyAdded(path, first, front)
      + match body[|body| - 1]
        case Added(t) =>
          [AddedLine(path, first + |PostLines(front)|, t, QuotesIn(front) % 2 == 1 || QuotesFlip(t))]
        case _ => []
  }

  // The number of a hunk's first post-image line.
  function FirstOf(h: Hunk, postBefore: nat): nat {
    postBefore + |h.gap| + 1
  }

  function HunksAdded(path: string, hunks: seq<Hunk>): seq<AddedLine> {
    if hunks == [] then []
    else
      var front, h := hunks[..|hunks| - 1], hunks[|hunks| - 1];
      HunksAdded(path, front) + BodyAdded(path, FirstOf(h, |PostOf(front)|), h.body)
  }

  // Every added line of a file, in order, at its place in the post-image.
  function FileAdded(f: FileDiff): seq<AddedLine> {
    match f.path case Some(p) => HunksAdded(p, f.hunks) case None => []
  }

  function AllAdded(files: seq<FileDiff>): seq<AddedLine> {
    if files == [] then [] else AllAdded(files[..|files| - 1]) + FileAdded(files[|files| - 1])
  }

  // ---------------------------------------------------------------- legal diffs

  // What the tool prints above a file's names: never a diff line or a header.
  predicate PreambleLine(l: string) {
    l != "" && l[0] !in "+- @"
  }

  // A deleted file has no post-image line; a kept one has a real path, and without a prefix one
  // that does not look prefixed.
  ghost predicate LegalFile(f: FileDiff) {
    && (forall l :: l in f.preamble ==> PreambleLine(l))
    && match f.path
       case Some(p) => p != "" && p != "/dev/null" && (f.prefixed || !StartsWith(p, "b/"))
       case None => forall h :: h in f.hunks ==> PostLines(h.body) == []
  }

  ghost predicate LegalDiff(files: seq<FileDiff>) {
    forall f :: f in files ==> LegalFile(f)
  }

  // A removed line and the added line under it that together read as the names of a file.
  predicate Clashes(removed: Edit, added: Edit) {
    && removed.Removed? && StartsWith(removed.text, "-- ")
    && added.Added? && StartsWith(added.text, "++ ") && |added.text| > 3
  }

  ghost predicate ClashFree(body: seq<Edit>) {
    forall i :: 0 <= i < |body| - 1 ==> !Clashes(body[i], body[i + 1])
  }

  ghost predicate HunksClashFree(hunks: seq<Hunk>) {
    forall h :: h in hunks ==> ClashFree(h.body)
  }

  ghost predicate NoClash(files: seq<FileDiff>) {
    forall f :: f in files ==> HunksClashFree(f.hunks)
  }

  // ---------------------------------------------------------------- headers

  lemma {:induction false} DigitsTaken(digits: string, rest: string)
    requires (forall c :: c in digits ==> IsDigit(c)) && (rest == "" || !IsDigit(rest[0]))
    ensures TakeDigits(digits + rest) == (digits, rest)
  {
    if digits == "" {
      assert digits + rest == rest;
    } else {
      assert digits[0] in digits;
      DigitsTaken(digits[1..], rest);
      assert (digits + rest)[1..] == digits[1..] + rest;
      assert digits == [digits[0]] + digits[1..];
    }
  }

  lemma CountTaken(first: string, count: string, rest: string)
    requires IsDigits(first) && IsDigits(count)
    requires rest != "" && !IsDigit(rest[0])
    ensures TakeRange(first + "," + count + rest) == Some((first, rest))
  {
    assert first + "," + count + rest == first + ("," + count + rest);
    DigitsTaken(first, "," + count + rest);
    assert ("," + count + rest)[1..] == count + rest;
    DigitsTaken(count, rest);
  }

  // Where a header's range ends.
  predicate Closes(rest: string) {
    rest != "" && !IsDigit(rest[0]) && rest[0] != ','
  }

  // Up to its end the range is read, and its start is these digits.
  ghost predicate ReadsAs(range: string, digits: string) {
    forall rest :: Closes(rest) ==> TakeRange(range + rest) == Some((digits, rest))
  }

  lemma RangeReads(before: nat, count: nat, counts: bool)
    ensures ReadsAs(RenderRange(before, count, counts), ToDecimal(RangeStart(before, count)))
  {
    forall rest | Closes(rest)
      ensures TakeRange(RenderRange(before, count, counts) + rest) == Some((ToDecimal(RangeStart(before, count)), rest))
    {
      RangeTaken(before, count, counts, rest);
    }
  }

  lemma RangeTaken(before: nat, count: nat, counts: bool, rest: string)
    requires Closes(rest)
    ensures TakeRange(RenderRange(before, count, counts) + rest) == Some((ToDecimal(RangeStart(before, count)), rest))
  {
    var first := ToDecimal(RangeStart(before, count));
    DecimalRoundTrip(RangeStart(before, count));
    if count == 1 && !counts {
      assert first + "" == first;
      DigitsTaken(first, rest);
    } else {
      DecimalRoundTrip(count);
      CountTaken(first, ToDecimal(count), rest);
      assert first + ("," + ToDecimal(count)) + rest == first + "," + ToDecimal(count) + rest;
    }
  }

  lemma Dropped(a: string, b: string)
    ensures StartsWith(a + b, a) && (a + b)[|a|..] == b
  {
  }

  // A header made of two ranges gives the start of the second.
  lemma HeaderParts(pre: string, a: string, post: string, b: string, section: string)
    requires ReadsAs(pre, a) && ReadsAs(post, b)
    ensures HeadsHunk(HeaderText(pre, post, section), b)
  {
    assert Closes(" +" + (post + (" @@" + section))) && Closes(" @@" + section);
    Dropped("@@ -", pre + (" +" + (post + (" @@" + section))));
    Dropped(" +", post + (" @@" + section));
    Dropped(" @@", section);
    NoHeader(HeaderText(pre, post, section));
  }

  // The line is a hunk header whose second range starts with these digits, and nothing else.
  ghost predicate HeadsHunk(raw: string, digits: string) {
    HunkHeader(raw) == Some(digits) && FileHeader(raw).None? && !StartsWith(raw, "--- ")
  }

  lemma RangesRead(a: nat, m: nat, b: nat, n: nat, counts: bool, section: string)
    ensures HeadsHunk(RenderRanges(a, m, b, n, counts, section), ToDecimal(RangeStart(b, n)))
  {
    RangeReads(a, m, counts);
    RangeReads(b, n, counts);
    HeaderParts(RenderRange(a, m, counts), ToDecimal(RangeStart(a, m)),
                RenderRange(b, n, counts), ToDecimal(RangeStart(b, n)), section);
  }

  // The hunk header gives the number of the hunk's first post-image line, when it has one.
  lemma HeaderRead(h: Hunk, preBefore: nat, postBefore: nat)
    ensures HeadsHunk(RenderHeader(h, preBefore, postBefore),
                      ToDecimal(RangeStart(postBefore + |h.gap|, |PostLines(h.body)|)))
  {
    var at, before, pre, post := preBefore + |h.gap|, postBefore + |h.gap|, |PreLines(h.body)|, |PostLines(h.body)|;
    var raw := RenderRanges(at, pre, before, post, h.counts, h.section);
    assert RenderHeader(h, preBefore, postBefore) == raw;
    RangesRead(at, pre, before, post, h.counts, h.section);
    assert HeadsHunk(raw, ToDecimal(RangeStart(before, post)));
  }

  lemma SamePrefix(c: char, text: string, prefix: string)
    ensures StartsWith([c] + text, [c] + prefix) <==> StartsWith(text, prefix)
  {
    if |text| >= |prefix| {
      assert ([c] + text)[..1 + |prefix|] == [c] + text[..|prefix|];
      assert ([c] + text[..|prefix|])[1..] == text[..|prefix|] && ([c] + prefix)[1..] == prefix;
    }
  }

  lemma EditMarker(e: Edit)
    ensures RenderEdit(e) != ""
    ensures match e
            case Kept(t) => RenderEdit(e)[0] == ' ' && RenderEdit(e)[1..] == t
            case Removed(t) => RenderEdit(e)[0] == '-'
            case Added(t) => RenderEdit(e)[0] == '+' && RenderEdit(e)[1..] == t
            case NoNewline => RenderEdit(e)[0] == '\\'
  {
  }

  lemma EditIsNoHeader(e: Edit)
    ensures FileHeader(RenderEdit(e)).Some? <==> e.Added? && StartsWith(e.text, "++ ") && |e.text| > 3
    ensures StartsWith(RenderEdit(e), "--- ") <==> e.Removed? && StartsWith(e.text, "-- ")
  {
    EditMarker(e);
    NoHeader(RenderEdit(e));
    if e.Removed? {
      SamePrefix('-', e.text, "-- ");
      assert ['-'] + "-- " == "--- ";
    }
    if e.Added? {
      SamePrefix('+', e.text, "++ ");
      assert ['+'] + "++ " == "+++ ";
    }
  }

  // ---------------------------------------------------------------- reading a hunk

  // The reader inside a hunk whose header gave number `start`, after some of its lines.
  ghost predicate InHunk(s: Reader, path: string, start: int, out: seq<AddedLine>, body: seq<Edit>) {
    && s.path == Some(path)
    && s.lineNo == start + |PostLines(body)|
    && s.inString == (QuotesIn(body) % 2 == 1)
    && s.out == out + BodyAdded(path, start, body)
  }

  // The line a body ends on, or any text that names no file.
  ghost predicate Ends(previous: string, body: seq<Edit>) {
    if body == [] then !StartsWith(previous, "--- ") else previous == RenderEdit(body[|body| - 1])
  }

  lemma EditNotMisread(s: Reader, body: seq<Edit>, e: Edit)
    requires Ends(s.previous, body) && (body != [] ==> !Clashes(body[|body| - 1], e))
    ensures !IsHeader(s, RenderEdit(e))
  {
    EditIsNoHeader(e);
    if body != [] {
      EditIsNoHeader(body[|body| - 1]);
    }
  }

  lemma BodySnoc(path: string, start: int, body: seq<Edit>, e: Edit)
    ensures PostLines(body + [e])
         == PostLines(body) + match e case Kept(t) => [t] case Added(t) => [t] case _ => []
    ensures QuotesIn(body + [e])
         == QuotesIn(body) + match e case Kept(t) => Quotes(t) case Added(t) => Quotes(t) case _ => 0
    ensures BodyAdded(path, start, body + [e])
         == BodyAdded(path, start, body)
            + match e
              case Added(t) =>
                [AddedLine(path, start + |PostLines(body)|, t, QuotesIn(body) % 2 == 1 || QuotesFlip(t))]
              case _ => []
  {
    assert (body + [e])[..|body|] == body;
  }

  // What reading an edit that is no header makes of the reader.
  ghost predicate Follows(s: Reader, t: Reader, path: string, e: Edit) {
    && t.path == Some(path) && t.previous == RenderEdit(e)
    && match e
       case Kept(text) =>
         t.lineNo == s.lineNo + 1 && t.inString == (s.inString != QuotesFlip(text)) && t.out == s.out
       case Added(text) =>
         && t.lineNo == s.lineNo + 1 && t.inString == (s.inString != QuotesFlip(text))
         && t.out == s.out + [AddedLine(path, s.lineNo, text, s.inString || QuotesFlip(text))]
       case _ => t.lineNo == s.lineNo && t.inString == s.inString && t.out == s.out
  }

  lemma EditStep(s: Reader, path: string, e: Edit)
    requires s.path == Some(path) && !IsHeader(s, RenderEdit(e))
    ensures Follows(s, Step(s, RenderEdit(e)), path, e)
  {
    EditMarker(e);
    StepLine(s, RenderEdit(e));
  }

  lemma FollowsInHunk(s: Reader, t: Reader, path: string, start: int, out: seq<AddedLine>, body: seq<Edit>, e: Edit)
    requires InHunk(s, path, start, out, body) && Follows(s, t, path, e)
    ensures InHunk(t, path, start, out, body + [e]) && Ends(t.previous, body + [e])
  {
    BodySnoc(path, start, body, e);
    assert (body + [e])[|body|] == e;
  }

  lemma EditRead(s: Reader, path: string, start: int, out: seq<AddedLine>, body: seq<Edit>, e: Edit)
    requires InHunk(s, path, start, out, body) && !IsHeader(s, RenderEdit(e))
    ensures InHunk(Step(s, RenderEdit(e)), path, start, out, body + [e])
    ensures Ends(Step(s, RenderEdit(e)).previous, body + [e])
  {
    EditStep(s, path, e);
    FollowsInHunk(s, Step(s, RenderEdit(e)), path, start, out, body, e);
  }

  lemma BodyLast(body: seq<Edit>)
    requires body != [] && ClashFree(body)
    ensures var front, e := body[..|body| - 1], body[|body| - 1];
      && body == front + [e] && ClashFree(front) && (front != [] ==> !Clashes(front[|front| - 1], e))
      && |RenderBody(body)| == |body|
      && RenderBody(body)[..|body| - 1] == RenderBody(front) && RenderBody(body)[|body| - 1] == RenderEdit(e)
  {
    var front := body[..|body| - 1];
    assert forall i :: 0 <= i < |front| ==> front[i] == body[i];
  }

  lemma {:induction false} BodyRead(s: Reader, path: string, body: seq<Edit>)
    requires s.path == Some(path) && !s.inString && !StartsWith(s.previous, "--- ") && ClashFree(body)
    ensures var after := ReadFrom(s, RenderBody(body));
      InHunk(after, path, s.lineNo, s.out, body) && Ends(after.previous, body)
  {
    if body != [] {
      var front, e := body[..|body| - 1], body[|body| - 1];
      BodyLast(body);
      BodyRead(s, path, front);
      var mid := ReadFrom(s, RenderBody(front));
      EditNotMisread(mid, front, e);
      EditRead(mid, path, s.lineNo, s.out, front, e);
    } else {
      assert s.out + [] == s.out;
    }
  }

  lemma {:induction false} NoPostNoAdded(path: string, a: int, b: int, body: seq<Edit>)
    requires PostLines(body) == []
    ensures BodyAdded(path, a, body) == [] == BodyAdded(path, b, body)
  {
    if body != [] {
      NoPostNoAdded(path, a, b, body[..|body| - 1]);
    }
  }

  // A hunk whose header has been read: its first post-image line comes next, if it has one.
  ghost predicate Begun(s: Reader, path: Option<string>, out: seq<AddedLine>, first: nat, body: seq<Edit>) {
    && s.path == path && s.out == out && !s.inString && !StartsWith(s.previous, "--- ")
    && (PostLines(body) != [] ==> s.lineNo == first)
  }

  lemma HeaderStep(s: Reader, h: Hunk, preBefore: nat, postBefore: nat)
    ensures Begun(ReadFrom(s, [RenderHeader(h, preBefore, postBefore)]), s.path, s.out,
                  FirstOf(h, postBefore), h.body)
  {
    HeaderRead(h, preBefore, postBefore);
    DecimalRoundTrip(RangeStart(postBefore + |h.gap|, |PostLines(h.body)|));
    ReadOne(s, RenderHeader(h, preBefore, postBefore));
    HeadedStep(s, RenderHeader(h, preBefore, postBefore),
               ToDecimal(RangeStart(postBefore + |h.gap|, |PostLines(h.body)|)));
  }

  // A hunk header sets the line number and ends any string.
  lemma HeadedStep(s: Reader, raw: string, digits: string)
    requires HeadsHunk(raw, digits) && IsDigits(digits)
    ensures var t := Step(s, raw);
      t.path == s.path && t.out == s.out && !t.inString && t.previous == raw && t.lineNo == FromDecimal(digits)
  {
  }

  lemma BegunRead(begun: Reader, path: string, out: seq<AddedLine>, first: nat, body: seq<Edit>)
    requires Begun(begun, Some(path), out, first, body) && ClashFree(body)
    ensures var after := ReadFrom(begun, RenderBody(body));
      after.path == Some(path) && after.out == out + BodyAdded(path, first, body)
  {
    BodyRead(begun, path, body);
    if PostLines(body) == [] {
      NoPostNoAdded(path, begun.lineNo, first, body);
    }
  }

  // The reader is on the given path and has yielded these lines.
  ghost predicate Has(s: Reader, path: Option<string>, out: seq<AddedLine>) {
    s.path == path && s.out == out
  }

  // Reading a hunk: its header from s, then its body.
  lemma HunkSplit(s: Reader, h: Hunk, preBefore: nat, postBefore: nat) returns (begun: Reader)
    ensures Begun(begun, s.path, s.out, FirstOf(h, postBefore), h.body)
    ensures ReadFrom(s, RenderHunk(h, preBefore, postBefore)) == ReadFrom(begun, RenderBody(h.body))
  {
    begun := ReadFrom(s, [RenderHeader(h, preBefore, postBefore)]);
    HeaderStep(s, h, preBefore, postBefore);
    ReadConcat(s, [RenderHeader(h, preBefore, postBefore)], RenderBody(h.body));
  }

  lemma HunkRead(s: Reader, path: string, h: Hunk, preBefore: nat, postBefore: nat)
    requires s.path == Some(path) && ClashFree(h.body)
    ensures Has(ReadFrom(s, RenderHunk(h, preBefore, postBefore)), s.path,
                s.out + BodyAdded(path, FirstOf(h, postBefore), h.body))
  {
    var begun := HunkSplit(s, h, preBefore, postBefore);
    BegunRead(begun, path, s.out, FirstOf(h, postBefore), h.body);
  }

  lemma HunksAddedSplit(path: string, hunks: seq<Hunk>, before: seq<AddedLine>)
    requires hunks != []
    ensures var front, h := hunks[..|hunks| - 1], hunks[|hunks| - 1];
      before + HunksAdded(path, hunks)
      == before + HunksAdded(path, front) + BodyAdded(path, FirstOf(h, |PostOf(front)|), h.body)
  {
    var front, h := hunks[..|hunks| - 1], hunks[|hunks| - 1];
    ConcatAssociates(before, HunksAdded(path, front), BodyAdded(path, FirstOf(h, |PostOf(front)|), h.body));
  }

  lemma {:induction false} HunksRead(s: Reader, path: string, hunks: seq<Hunk>)
    requires s.path == Some(path) && HunksClashFree(hunks)
    ensures Has(ReadFrom(s, RenderHunks(hunks)), Some(path), s.out + HunksAdded(path, hunks))
  {
    if hunks != [] {
      assert hunks[|hunks| - 1] in hunks;
      var front, h := hunks[..|hunks| - 1], hunks[|hunks| - 1];
      HunksRead(s, path, front);
      ReadConcat(s, RenderHunks(front), RenderHunk(h, |PreOf(front)|, |PostOf(front)|));
      HunkRead(ReadFrom(s, RenderHunks(front)), path, h, |PreOf(front)|, |PostOf(front)|);
      HunksAddedSplit(path, hunks, s.out);
    } else {
      assert s.out + [] == s.out;
    }
  }

  // A deleted file's hunks only remove, and nothing of them is read.
  lemma {:induction false} GoneBodyRead(s: Reader, body: seq<Edit>)
    requires s.path == None && PostLines(body) == []
    ensures ReadFrom(s, RenderBody(body)).path == None && ReadFrom(s, RenderBody(body)).out == s.out
  {
    if body != [] {
      var front, e := body[..|body| - 1], body[|body| - 1];
      GoneBodyRead(s, front);
      assert RenderBody(body)[..|body| - 1] == RenderBody(front);
      EditMarker(e);
      NoHeader(RenderEdit(e));
      StepNoPath(ReadFrom(s, RenderBody(front)), RenderEdit(e));
    }
  }

  lemma {:induction false} GoneHunksRead(s: Reader, hunks: seq<Hunk>)
    requires s.path == None && forall h :: h in hunks ==> PostLines(h.body) == []
    ensures ReadFrom(s, RenderHunks(hunks)).path == None && ReadFrom(s, RenderHunks(hunks)).out == s.out
  {
    if hunks != [] {
      var front, h := hunks[..|hunks| - 1], hunks[|hunks| - 1];
      assert h in hunks;
      GoneHunksRead(s, front);
      ReadConcat(s, RenderHunks(front), RenderHunk(h, |PreOf(front)|, |PostOf(front)|));
      var begun := HunkSplit(ReadFrom(s, RenderHunks(front)), h, |PreOf(front)|, |PostOf(front)|);
      GoneBodyRead(begun, h.body);
    }
  }

  // ---------------------------------------------------------------- reading a file

  lemma {:induction false} PreambleRead(s: Reader, preamble: seq<string>)
    requires forall l :: l in preamble ==> PreambleLine(l)
    ensures ReadFrom(s, preamble).path == s.path && ReadFrom(s, preamble).out == s.out
  {
    if preamble != [] {
      var front, l := preamble[..|preamble| - 1], preamble[|preamble| - 1];
      assert l in preamble;
      PreambleRead(s, front);
      var mid := ReadFrom(s, front);
      NoHeader(l);
      if mid.path.Some? {
        StepLine(mid, l);
      } else {
        StepNoPath(mid, l);
      }
    }
  }

  lemma NewNameRead(f: FileDiff)
    requires LegalFile(f)
    ensures FileHeader(RenderNames(f)[1])
         == Some(match f.path case Some(p) => p case None => "/dev/null")
  {
    match f.path
    case Some(p) =>
      Dropped("+++ ", NewName(f));
      Dropped("b/", p);
    case None =>
      Dropped("+++ ", "/dev/null");
      assert "/dev/null"[..2][0] == '/' && "b/"[0] == 'b';
  }

  lemma NamesRead(s: Reader, f: FileDiff)
    requires LegalFile(f)
    ensures var after := ReadFrom(s, RenderNames(f)); after.path == f.path && after.out == s.out
  {
    var oldName, newName := RenderNames(f)[0], RenderNames(f)[1];
    assert RenderNames(f) == [oldName] + [newName];
    ReadConcat(s, [oldName], [newName]);
    ReadOne(s, oldName);
    Dropped("--- ", f.oldName);
    assert oldName[0] == '-';
    NoHeader(oldName);
    if s.path.Some? {
      StepLine(s, oldName);
    } else {
      StepNoPath(s, oldName);
    }
    ReadOne(Step(s, oldName), newName);
    NewNameRead(f);
  }

  // Whatever came before, a file adds exactly its own added lines.
  lemma FileRead(s: Reader, f: FileDiff)
    requires LegalFile(f) && HunksClashFree(f.hunks)
    ensures ReadFrom(s, RenderFile(f)).out == s.out + FileAdded(f)
  {
    PreambleRead(s, f.preamble);
    var s1 := ReadFrom(s, f.preamble);
    if f.hunks == [] {
      assert f.preamble + [] == f.preamble;
      assert FileAdded(f) == [];
    } else {
      NamesRead(s1, f);
      var s2 := ReadFrom(s1, RenderNames(f));
      ReadConcat(s, f.preamble, RenderNames(f) + RenderHunks(f.hunks));
      ReadConcat(s1, RenderNames(f), RenderHunks(f.hunks));
      match f.path
      case Some(p) => HunksRead(s2, p, f.hunks);
      case None => GoneHunksRead(s2, f.hunks);
    }
  }

  lemma NextFileRead(s: Reader, files: seq<FileDiff>, before: seq<AddedLine>)
    requires files != [] && LegalFile(files[|files| - 1]) && HunksClashFree(files[|files| - 1].hunks)
    requires ReadFrom(s, Render(files[..|files| - 1])).out == before + AllAdded(files[..|files| - 1])
    ensures ReadFrom(s, Render(files)).out == before + AllAdded(files)
  {
    var front, f := files[..|files| - 1], files[|files| - 1];
    ReadConcat(s, Render(front), RenderFile(f));
    FileRead(ReadFrom(s, Render(front)), f);
    ConcatAssociates(before, AllAdded(front), FileAdded(f));
  }

  lemma {:induction false} DiffRead(s: Reader, files: seq<FileDiff>)
    requires LegalDiff(files) && NoClash(files)
    ensures ReadFrom(s, Render(files)).out == s.out + AllAdded(files)
  {
    if files != [] {
      assert files[|files| - 1] in files;
      DiffRead(s, files[..|files| - 1]);
      NextFileRead(s, files, s.out);
    } else {
      assert s.out + [] == s.out;
    }
  }

  // ---------------------------------------------------------------- what a clash costs

  function AddedIn(body: seq<Edit>): nat {
    if body == [] then 0 else AddedIn(body[..|body| - 1]) + if body[|body| - 1].Added? then 1 else 0
  }

  lemma {:induction false} AddedCount(path: string, first: int, body: seq<Edit>)
    ensures |BodyAdded(path, first, body)| == AddedIn(body)
  {
    if body != [] {
      AddedCount(path, first, body[..|body| - 1]);
    }
  }

  lemma EditBound(s: Reader, e: Edit)
    ensures |Step(s, RenderEdit(e)).out| <= |s.out| + if e.Added? then 1 else 0
    ensures IsHeader(s, RenderEdit(e)) ==> |Step(s, RenderEdit(e)).out| == |s.out|
    ensures Step(s, RenderEdit(e)).previous == RenderEdit(e)
  {
    EditMarker(e);
    NoHeader(RenderEdit(e));
    if !IsHeader(s, RenderEdit(e)) {
      if s.path.Some? {
        StepLine(s, RenderEdit(e));
      } else {
        StepNoPath(s, RenderEdit(e));
      }
    }
  }

  lemma LastClash(body: seq<Edit>)
    requires body != [] && !ClashFree(body) && ClashFree(body[..|body| - 1])
    ensures |body| >= 2 && Clashes(body[|body| - 2], body[|body| - 1])
  {
    var front := body[..|body| - 1];
    forall i | 0 <= i < |body| - 2 ensures !Clashes(body[i], body[i + 1]) {
      assert front[i] == body[i] && front[i + 1] == body[i + 1];
    }
  }

  // From any state, a body yields at most its added lines, and a clash costs one of them.
  lemma {:induction false} BodyBound(s: Reader, body: seq<Edit>)
    ensures |ReadFrom(s, RenderBody(body)).out| <= |s.out| + AddedIn(body)
    ensures !ClashFree(body) ==> |ReadFrom(s, RenderBody(body)).out| < |s.out| + AddedIn(body)
    ensures body != [] ==> ReadFrom(s, RenderBody(body)).previous == RenderEdit(body[|body| - 1])
  {
    if body != [] {
      var front, e := body[..|body| - 1], body[|body| - 1];
      BodyBound(s, front);
      assert RenderBody(body)[..|body| - 1] == RenderBody(front);
      EditBound(ReadFrom(s, RenderBody(front)), e);
      if !ClashFree(body) && ClashFree(front) {
        LastClash(body);
        EditIsNoHeader(front[|front| - 1]);
        EditIsNoHeader(e);
      }
    }
  }

  function AddedInHunks(hunks: seq<Hunk>): nat {
    if hunks == [] then 0 else AddedInHunks(hunks[..|hunks| - 1]) + AddedIn(hunks[|hunks| - 1].body)
  }

  lemma {:induction false} HunksBound(s: Reader, hunks: seq<Hunk>)
    ensures var got := |ReadFrom(s, RenderHunks(hunks)).out|;
      && got <= |s.out| + AddedInHunks(hunks)
      && (!HunksClashFree(hunks) ==> got < |s.out| + AddedInHunks(hunks))
  {
    if hunks != [] {
      var front, h := hunks[..|hunks| - 1], hunks[|hunks| - 1];
      assert hunks == front + [h];
      HunksBound(s, front);
      ReadConcat(s, RenderHunks(front), RenderHunk(h, |PreOf(front)|, |PostOf(front)|));
      var begun := HunkSplit(ReadFrom(s, RenderHunks(front)), h, |PreOf(front)|, |PostOf(front)|);
      BodyBound(begun, h.body);
    }
  }

  lemma {:induction false} HunksCount(path: string, hunks: seq<Hunk>)
    ensures |HunksAdded(path, hunks)| == AddedInHunks(hunks)
  {
    if hunks != [] {
      var front, h := hunks[..|hunks| - 1], hunks[|hunks| - 1];
      HunksCount(path, front);
      AddedCount(path, FirstOf(h, |PostOf(front)|), h.body);
    }
  }

  lemma {:induction false} GoneCount(hunks: seq<Hunk>)
    requires forall h :: h in hunks ==> PostLines(h.body) == []
    ensures AddedInHunks(hunks) == 0
  {
    if hunks != [] {
      var h := hunks[|hunks| - 1];
      assert h in hunks;
      GoneCount(hunks[..|hunks| - 1]);
      NoPostNoAdded("", 0, 0, h.body);
      AddedCount("", 0, h.body);
    }
  }

  lemma FileBound(s: Reader, f: FileDiff)
    requires LegalFile(f)
    ensures var got := |ReadFrom(s, RenderFile(f)).out|;
      && got <= |s.out| + |FileAdded(f)|
      && (!HunksClashFree(f.hunks) ==> got < |s.out| + |FileAdded(f)|)
  {
    PreambleRead(s, f.preamble);
    var s1 := ReadFrom(s, f.preamble);
    if f.hunks == [] {
      assert f.preamble + [] == f.preamble;
    } else {
      NamesRead(s1, f);
      ReadConcat(s, f.preamble, RenderNames(f) + RenderHunks(f.hunks));
      ReadConcat(s1, RenderNames(f), RenderHunks(f.hunks));
      HunksBound(ReadFrom(s1, RenderNames(f)), f.hunks);
      match f.path
      case Some(p) => HunksCount(p, f.hunks);
      case None => GoneCount(f.hunks);
    }
  }

  lemma {:induction false} DiffBound(s: Reader, files: seq<FileDiff>)
    requires LegalDiff(files)
    ensures var got := |ReadFrom(s, Render(files)).out|;
      && got <= |s.out| + |AllAdded(files)|
      && (!NoClash(files) ==> got < |s.out| + |AllAdded(files)|)
  {
    if files != [] {
      var front, f := files[..|files| - 1], files[|files| - 1];
      assert files == front + [f];
      DiffBound(s, front);
      ReadConcat(s, Render(front), RenderFile(f));
      FileBound(ReadFrom(s, Render(front)), f);
      if !NoClash(files) && NoClash(front) {
        var g :| g in files && !HunksClashFree(g.hunks);
        assert g == f;
      }
    }
  }

  // Reading a rendered diff gives exactly its added lines, in order, each with its own file's
  // path, post-image number and string flag, if and only if nowhere in it does a removed line
  // and the added line under it read as the names of a file.
  lemma ReaderAgrees(files: seq<FileDiff>)
    requires LegalDiff(files)
    ensures ReadLines(Render(files)) == AllAdded(files) <==> NoClash(files)
  {
    if NoClash(files) {
      DiffRead(BEGIN, files);
    } else {
      DiffBound(BEGIN, files);
    }
  }

  const CLASH := [Removed("-- x"), Added("++ y")]
  const CLASH_HUNK := Hunk([], CLASH, "", false)
  const CLASH_FILE := FileDiff([], "a/f", Some("f"), true, [CLASH_HUNK], [])

  // The shortest diff that is misread: its one added line becomes the name of a file.
  lemma ClashIsMisread()
    ensures LegalDiff([CLASH_FILE]) && AllAdded([CLASH_FILE]) == [AddedLine("f", 1, "++ y", false)]
    ensures ReadLines(Render([CLASH_FILE])) == []
  {
    assert Clashes(CLASH[0], CLASH[1]);
    assert CLASH_HUNK in CLASH_FILE.hunks && CLASH_FILE in [CLASH_FILE];
    assert !ClashFree(CLASH) && !HunksClashFree(CLASH_FILE.hunks) && !NoClash([CLASH_FILE]);
    ClashAdded();
    DiffBound(BEGIN, [CLASH_FILE]);
  }

  lemma ClashBody()
    ensures BodyAdded("f", 1, CLASH) == [AddedLine("f", 1, "++ y", false)]
  {
    var front := [Removed("-- x")];
    assert CLASH[..1] == front && front[..0] == [];
    assert PostLines(front) == [] && QuotesIn(front) == 0 && BodyAdded("f", 1, front) == [];
    assert "++ y"[1..] == "+ y" && "+ y"[1..] == " y";
    assert Quotes("++ y") == 0;
  }

  lemma ClashAdded()
    ensures AllAdded([CLASH_FILE]) == [AddedLine("f", 1, "++ y", false)]
  {
    ClashBody();
    assert [CLASH_FILE][..0] == [] && [CLASH_HUNK][..0] == [];
    assert HunksAdded("f", []) == [] && |PostOf([])| == 0;
    assert HunksAdded("f", [CLASH_HUNK]) == BodyAdded("f", 1, CLASH);
    assert FileAdded(CLASH_FILE) == BodyAdded("f", 1, CLASH);
    assert AllAdded([]) == [];
  }

  // The same for the diff as one text, when no line of it holds a line break of its own.
  lemma TextReaderAgrees(files: seq<FileDiff>)
    requires LegalDiff(files) && AllUnbroken(Render(files))
    ensures ReadLines(SplitLines(Unlines(Render(files)))) == AllAdded(files) <==> NoClash(files)
  {
    SplitUnlinesIff(Render(files));
    ReaderAgrees(files);
  }

  // ---------------------------------------------------------------- the post-image

  lemma {:induction false} BodyPlaced(path: string, first: int, body: seq<Edit>, k: nat)
    requires k < |BodyAdded(path, first, body)|
    ensures var a := BodyAdded(path, first, body)[k];
      && a.path == path && 0 <= a.lineNo - first < |PostLines(body)|
      && PostLines(body)[a.lineNo - first] == a.text
  {
    var front := body[..|body| - 1];
    if k < |BodyAdded(path, first, front)| {
      BodyPlaced(path, first, front, k);
    }
  }

  // The line stands among these at its number.
  ghost predicate Placed(a: AddedLine, path: string, lines: seq<string>) {
    a.path == path && 1 <= a.lineNo <= |lines| && lines[a.lineNo - 1] == a.text
  }

  lemma PlacedBefore(a: AddedLine, path: string, lines: seq<string>, gap: seq<string>, more: seq<string>)
    requires Placed(a, path, lines)
    ensures Placed(a, path, lines + gap + more)
  {
    assert (lines + gap + more)[a.lineNo - 1] == lines[a.lineNo - 1];
  }

  lemma PlacedAfter(a: AddedLine, path: string, lines: seq<string>, gap: seq<string>, more: seq<string>)
    requires a.path == path && 0 <= a.lineNo - (|lines| + |gap| + 1) < |more|
    requires more[a.lineNo - (|lines| + |gap| + 1)] == a.text
    ensures Placed(a, path, lines + gap + more)
  {
    assert (lines + gap + more)[a.lineNo - 1] == more[a.lineNo - (|lines| + |gap| + 1)];
  }

  lemma {:induction false} HunksPlaced(path: string, hunks: seq<Hunk>, k: nat)
    requires k < |HunksAdded(path, hunks)|
    ensures Placed(HunksAdded(path, hunks)[k], path, PostOf(hunks))
  {
    var front, h := hunks[..|hunks| - 1], hunks[|hunks| - 1];
    var a := HunksAdded(path, hunks)[k];
    if k < |HunksAdded(path, front)| {
      HunksPlaced(path, front, k);
      PlacedBefore(a, path, PostOf(front), h.gap, PostLines(h.body));
    } else {
      BodyPlaced(path, FirstOf(h, |PostOf(front)|), h.body, k - |HunksAdded(path, front)|);
      PlacedAfter(a, path, PostOf(front), h.gap, PostLines(h.body));
    }
  }

  // Each added line stands in its file's post-image at its number.
  lemma AddedLinesPlaced(f: FileDiff, k: nat)
    requires k < |FileAdded(f)|
    ensures var a := FileAdded(f)[k];
      Some(a.path) == f.path && 1 <= a.lineNo <= |PostImage(f)| && PostImage(f)[a.lineNo - 1] == a.text
  {
    HunksPlaced(f.path.value, f.hunks, k);
  }
}
