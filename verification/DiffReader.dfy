// Reading the added lines of a unified diff, with their post-image path and line number.
module DiffReader {
  import opened Common
  import opened TextOps

  datatype AddedLine = AddedLine(path: string, lineNo: int, text: string, inString: bool)

  // ^\+\+\+ (?:b/)?(.+)$
  function FileHeader(raw: string): Option<string> {
    if !StartsWith(raw, "+++ ") || |raw| == 4 then None
    else
      var target := raw[4..];
      Some(if StartsWith(target, "b/") && |target| > 2 then target[2..] else target)
  }

  // The leading digits of a text, and the rest.
  function TakeDigits(text: string): (string, string) {
    if text == "" || !IsDigit(text[0]) then ("", text)
    else
      var (digits, rest) := TakeDigits(text[1..]);
      ([text[0]] + digits, rest)
  }

  // \d+(?:,\d+)?, giving the first number's digits and the rest
  function TakeRange(text: string): Option<(string, string)> {
    var (digits, rest) := TakeDigits(text);
    if digits == "" then None
    else if StartsWith(rest, ",") && TakeDigits(rest[1..]).0 != "" then Some((digits, TakeDigits(rest[1..]).1))
    else Some((digits, rest))
  }

  // ^@@ -\d+(?:,\d+)? \+(\d+)(?:,\d+)? @@
  function HunkHeader(raw: string): Option<string> {
    if !StartsWith(raw, "@@ -") then None
    else
      match TakeRange(raw[4..])
      case None => None
      case Some((_, rest)) =>
        if !StartsWith(rest, " +") then None
        else
          match TakeRange(rest[2..])
          case None => None
          case Some((digits, tail)) => if StartsWith(tail, " @@") then Some(digits) else None
  }

  lemma {:induction false} TakenDigits(text: string)
    ensures forall c :: c in TakeDigits(text).0 ==> IsDigit(c)
  {
    if text != "" && IsDigit(text[0]) {
      TakenDigits(text[1..]);
    }
  }

  lemma HeaderDigits(raw: string)
    ensures HunkHeader(raw).Some? ==> forall c :: c in HunkHeader(raw).value ==> IsDigit(c)
  {
    if HunkHeader(raw).Some? {
      TakenDigits(TakeRange(raw[4..]).value.1[2..]);
    }
  }

  // text.count(ccc)
  function CountTriples(text: string, c: char): nat {
    if |text| < 3 then 0
    else if text[0] == text[1] == text[2] == c then 1 + CountTriples(text[3..], c)
    else CountTriples(text[1..], c)
  }

  function Quotes(text: string): nat {
    CountTriples(text, '"') + CountTriples(text, '\'')
  }

  predicate QuotesFlip(text: string) {
    Quotes(text) % 2 == 1
  }

  datatype Reader = Reader(path: Option<string>, lineNo: int, inString: bool, previous: string, out: seq<AddedLine>)

  const BEGIN := Reader(None, 0, false, "", [])

  // Two name lines make a header, and the reader decides at the second.
  predicate IsHeader(s: Reader, raw: string) {
    FileHeader(raw).Some? && StartsWith(s.previous, "--- ")
  }

  function Step(s: Reader, raw: string): Reader {
    if IsHeader(s, raw) then
      var target := FileHeader(raw).value;
      s.(path := if target == "/dev/null" then None else Some(target), previous := raw)
    else if HunkHeader(raw).Some? then
      HeaderDigits(raw);
      s.(lineNo := FromDecimal(HunkHeader(raw).value), inString := false, previous := raw)
    else if s.path.None? || raw == "" then s.(previous := raw)
    else if raw[0] != '+' && raw[0] != ' ' then s.(previous := raw)
    else
      var text := raw[1..];
      Reader(s.path, s.lineNo + 1, s.inString != QuotesFlip(text), raw,
             if raw[0] == '+'
             then s.out + [AddedLine(s.path.value, s.lineNo, text, s.inString || QuotesFlip(text))]
             else s.out)
  }

  function ReadFrom(s: Reader, lines: seq<string>): Reader {
    if lines == [] then s else Step(ReadFrom(s, lines[..|lines| - 1]), lines[|lines| - 1])
  }

  // What added_lines yields for the lines of a diff.
  function ReadLines(lines: seq<string>): seq<AddedLine> {
    ReadFrom(BEGIN, lines).out
  }

  method AddedLines(lines: seq<string>) returns (out: seq<AddedLine>)
    ensures out == ReadLines(lines)
  {
    out := [];
    var path: Option<string>, lineNo, inString, previous := None, 0, false, "";
    for i := 0 to |lines|
      invariant ReadFrom(BEGIN, lines[..i]) == Reader(path, lineNo, inString, previous, out)
    {
      TakeOneMore(lines, i);
      var raw := lines[i];
      var header := FileHeader(raw);
      if header.Some? && StartsWith(previous, "--- ") {
        path := if header.value == "/dev/null" then None else header;
        previous := raw;
        continue;
      }
      previous := raw;
      var hunk := HunkHeader(raw);
      if hunk.Some? {
        HeaderDigits(raw);
        lineNo := FromDecimal(hunk.value);
        inString := false;
        continue;
      }
      if path.None? || raw == "" {
        continue;
      }
      var marker, text := raw[0], raw[1..];
      if marker != '+' && marker != ' ' {
        continue;
      }
      var flip := QuotesFlip(text);
      if marker == '+' {
        out := out + [AddedLine(path.value, lineNo, text, inString || flip)];
      }
      lineNo := lineNo + 1;
      if flip {
        inString := !inString;
      }
    }
    assert lines[..|lines|] == lines;
  }

  lemma {:induction false} ReadConcat(s: Reader, a: seq<string>, b: seq<string>)
    ensures ReadFrom(s, a + b) == ReadFrom(ReadFrom(s, a), b)
  {
    if b == [] {
      assert a + b == a;
    } else {
      ReadConcat(s, a, b[..|b| - 1]);
      assert (a + b)[..|a + b| - 1] == a + b[..|b| - 1];
    }
  }

  lemma ReadOne(s: Reader, raw: string)
    ensures ReadFrom(s, [raw]) == Step(s, raw)
  {
    assert [raw][..0] == [];
  }

  // A line starting with anything but @ is no hunk header, with anything but + no file header.
  lemma NoHeader(raw: string)
    requires raw != ""
    ensures raw[0] != '@' ==> HunkHeader(raw).None?
    ensures raw[0] != '+' ==> FileHeader(raw).None?
    ensures raw[0] != '-' ==> !StartsWith(raw, "--- ")
  {
    if StartsWith(raw, "@@ -") {
      assert raw[0] == raw[..4][0];
    }
    if StartsWith(raw, "+++ ") {
      assert raw[0] == raw[..4][0];
    }
    if StartsWith(raw, "--- ") {
      assert raw[0] == raw[..4][0];
    }
  }

  // A line inside a hunk of a file that has a path.
  lemma StepLine(s: Reader, raw: string)
    requires raw != "" && raw[0] != '@' && s.path.Some? && !IsHeader(s, raw)
    ensures var text, flip := raw[1..], QuotesFlip(raw[1..]);
      Step(s, raw) ==
      if raw[0] == '+' then
        Reader(s.path, s.lineNo + 1, s.inString != flip, raw,
               s.out + [AddedLine(s.path.value, s.lineNo, text, s.inString || flip)])
      else if raw[0] == ' ' then Reader(s.path, s.lineNo + 1, s.inString != flip, raw, s.out)
      else s.(previous := raw)
  {
    NoHeader(raw);
  }

  // Nothing is read where there is no path.
  lemma StepNoPath(s: Reader, raw: string)
    requires raw != "" && raw[0] != '@' && s.path.None? && !IsHeader(s, raw)
    ensures Step(s, raw) == s.(previous := raw)
  {
    NoHeader(raw);
  }
}
