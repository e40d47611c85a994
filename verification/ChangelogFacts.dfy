// What the marks of a changelog's lines and the labels of its entries are, character by character.
module ChangelogFacts {
  import opened Common
  import opened TextOps
  import opened Changelog

  // No blank at either end.
  predicate Trimmed(text: string) {
    text == "" || (!IsSpace(text[0]) && !IsSpace(text[|text| - 1]))
  }

  ghost predicate AllBlank(text: string) {
    forall c :: c in text ==> IsSpace(c)
  }

  lemma {:induction false} LeftStripHolds(text: string) returns (a: string)
    ensures text == a + LeftStrip(text) && AllBlank(a)
    ensures LeftStrip(text) == "" || !IsSpace(LeftStrip(text)[0])
  {
    if text != "" && IsSpace(text[0]) {
      var rest := LeftStripHolds(text[1..]);
      a := [text[0]] + rest;
      assert text == [text[0]] + text[1..];
    } else {
      a := "";
    }
  }

  lemma {:induction false} RightStripHolds(text: string) returns (b: string)
    ensures text == RightStrip(text) + b && AllBlank(b)
    ensures RightStrip(text) == "" || !IsSpace(RightStrip(text)[|RightStrip(text)| - 1])
  {
    if text != "" && IsSpace(text[|text| - 1]) {
      var front := text[..|text| - 1];
      var rest := RightStripHolds(front);
      b := rest + [text[|text| - 1]];
      assert text == front + [text[|text| - 1]];
    } else {
      b := "";
    }
  }

  // Stripping takes the blanks at both ends and nothing else.
  lemma StripHolds(text: string) returns (a: string, b: string)
    ensures text == a + Strip(text) + b && AllBlank(a) && AllBlank(b) && Trimmed(Strip(text))
  {
    a := LeftStripHolds(text);
    b := RightStripHolds(LeftStrip(text));
    var kept := Strip(text);
    assert LeftStrip(text) == kept + b;
    if kept != "" {
      assert kept[0] == LeftStrip(text)[0];
    }
  }

  // A line continues the bullet above it exactly when it begins with two blanks and is not all blank.
  lemma ContinuationIff(line: string)
    ensures IsIndented(line) <==> |line| >= 2 && line[0] == ' ' && line[1] == ' ' && !AllBlank(line)
  {
    var a, b := StripHolds(line);
    if Strip(line) != "" {
      assert Strip(line)[0] in line;
    } else {
      assert AllBlank(a + "" + b);
    }
    assert StartsWith(line, "  ") <==> |line| >= 2 && line[0] == ' ' && line[1] == ' ';
  }

  // The section begins at the first line that starts with its heading, whatever follows on it.
  lemma HeadingIff(lines: seq<string>, n: nat)
    ensures Unreleased(lines).1 == Some(n) <==>
              && 1 <= n <= |lines| && StartsWith(lines[n - 1], "## [Unreleased]")
              && forall k :: 0 <= k < n - 1 ==> !StartsWith(lines[k], "## [Unreleased]")
  {
  }

  // The labels of every entry have no blanks at their ends.
  lemma LabelsTrimmed(lines: seq<string>, e: Entry)
    requires e in Unreleased(lines).0
    ensures Trimmed(e.package) && Trimmed(e.subsection)
  {
    FinishedTrimmed(Flush(ReadRange(lines, Heading(lines) + 1, SectionEnd(lines))).blocks, e);
  }

  lemma FinishedTrimmed(blocks: seq<Block>, e: Entry)
    requires e in Map(blocks, Finish)
    ensures Trimmed(e.package) && Trimmed(e.subsection)
  {
    var i :| 0 <= i < |blocks| && Map(blocks, Finish)[i] == e;
    assert e.package == Strip(blocks[i].package) && e.subsection == Strip(blocks[i].subsection);
    var a, b := StripHolds(blocks[i].package);
    a, b := StripHolds(blocks[i].subsection);
  }
}
