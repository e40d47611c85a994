// Texts and their lines: str.splitlines().
module LineText {

  // The characters splitlines ends a line at; a carriage return takes a newline with it.
  predicate IsBreak(c: char) {
    || '\n' <= c <= '\r' || '\U{1c}' <= c <= '\U{1e}' || c == '\U{85}' || c == '\U{2028}' || c == '\U{2029}'
  }

  // The first line of a text and what follows its end.
  function FirstLine(text: string): (r: (string, string))
    ensures |r.0| + |r.1| <= |text|
    ensures text != "" ==> |r.1| < |text|
    ensures forall c :: c in r.0 ==> !IsBreak(c)
  {
    if text == "" then ("", "")
    else if |text| > 1 && text[0] == '\r' && text[1] == '\n' then ("", text[2..])
    else if IsBreak(text[0]) then ("", text[1..])
    else
      var (line, rest) := FirstLine(text[1..]);
      ([text[0]] + line, rest)
  }

  function SplitLines(text: string): seq<string>
    decreases |text|
  {
    if text == "" then [] else [FirstLine(text).0] + SplitLines(FirstLine(text).1)
  }

  // Lines written one after another, a newline after each.
  function Unlines(lines: seq<string>): string {
    if lines == [] then "" else lines[0] + "\n" + Unlines(lines[1..])
  }

  predicate Unbroken(line: string) {
    forall c :: c in line ==> !IsBreak(c)
  }

  ghost predicate AllUnbroken(lines: seq<string>) {
    forall l :: l in lines ==> Unbroken(l)
  }

  lemma {:induction false} FirstLineIs(line: string, rest: string)
    requires Unbroken(line)
    ensures FirstLine(line + "\n" + rest) == (line, rest)
  {
    var text := line + "\n" + rest;
    if line == "" {
      assert text[0] == '\n' && text[1..] == rest;
    } else {
      assert line[0] in line && line == [line[0]] + line[1..];
      assert text[0] == line[0] && text[1..] == line[1..] + "\n" + rest;
      FirstLineIs(line[1..], rest);
    }
  }

  lemma {:induction false} SplitUnbroken(text: string)
    ensures AllUnbroken(SplitLines(text))
    decreases |text|
  {
    if text != "" {
      SplitUnbroken(FirstLine(text).1);
    }
  }

  lemma {:induction false} SplitUnlines(lines: seq<string>)
    requires AllUnbroken(lines)
    ensures SplitLines(Unlines(lines)) == lines
  {
    if lines != [] {
      assert lines[0] in lines && lines == [lines[0]] + lines[1..];
      FirstLineIs(lines[0], Unlines(lines[1..]));
      SplitUnlines(lines[1..]);
    }
  }

  // Lines read back as they were written exactly when none holds a break of its own.
  lemma SplitUnlinesIff(lines: seq<string>)
    ensures SplitLines(Unlines(lines)) == lines <==> AllUnbroken(lines)
  {
    SplitUnbroken(Unlines(lines));
    if AllUnbroken(lines) {
      SplitUnlines(lines);
    }
  }
}
