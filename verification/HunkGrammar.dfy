// Exactly which lines of a diff are hunk headers.
module HunkGrammar {
  import opened Common
  import opened TextOps
  import opened DiffReader
  import opened DiffRendering

  // One number, or a number, a comma and a count.
  ghost predicate IsRange(range: string, first: string) {
    && IsDigits(first)
    && (range == first || (StartsWith(range, first + ",") && IsDigits(range[|first| + 1..])))
  }

  lemma RangeTakenWhole(range: string, first: string)
    requires IsRange(range, first)
    ensures ReadsAs(range, first)
  {
    forall rest | Closes(rest) ensures TakeRange(range + rest) == Some((first, rest)) {
      if range == first {
        DigitsTaken(first, rest);
      } else {
        var count := range[|first| + 1..];
        CountTaken(first, count, rest);
        assert range == first + "," + count;
      }
    }
  }

  lemma {:induction false} TakeDigitsForm(text: string)
    ensures var (digits, rest) := TakeDigits(text); text == digits + rest
  {
    if text != "" && IsDigit(text[0]) {
      var (digits, rest) := TakeDigits(text[1..]);
      TakeDigitsForm(text[1..]);
      assert text == [text[0]] + text[1..];
      ConcatAssociates([text[0]], digits, rest);
    }
  }

  // What a range is read from.
  lemma TakeRangeForm(text: string) returns (range: string)
    requires TakeRange(text).Some?
    ensures IsRange(range, TakeRange(text).value.0) && text == range + TakeRange(text).value.1
  {
    var (digits, rest) := TakeDigits(text);
    TakeDigitsForm(text);
    TakenDigits(text);
    if StartsWith(rest, ",") && TakeDigits(rest[1..]).0 != "" {
      var (count, tail) := TakeDigits(rest[1..]);
      TakeDigitsForm(rest[1..]);
      TakenDigits(rest[1..]);
      range := digits + "," + count;
      assert rest == "," + rest[1..];
      assert text == range + tail;
      assert range[..|digits| + 1] == digits + "," && range[|digits| + 1..] == count;
    } else {
      range := digits;
    }
  }

  ghost predicate Spells(raw: string, pre: string, a: string, post: string, digits: string, section: string) {
    IsRange(pre, a) && IsRange(post, digits) && raw == "@@ -" + (pre + (" +" + (post + (" @@" + section))))
  }

  lemma Taken(text: string, prefix: string)
    requires StartsWith(text, prefix)
    ensures text == prefix + text[|prefix|..]
  {
  }

  lemma HeaderForm(raw: string) returns (pre: string, a: string, post: string, section: string)
    requires HunkHeader(raw).Some?
    ensures Spells(raw, pre, a, post, HunkHeader(raw).value, section)
  {
    Taken(raw, "@@ -");
    pre := TakeRangeForm(raw[4..]);
    var rest := TakeRange(raw[4..]).value.1;
    a := TakeRange(raw[4..]).value.0;
    Taken(rest, " +");
    post := TakeRangeForm(rest[2..]);
    var tail := TakeRange(rest[2..]).value.1;
    Taken(tail, " @@");
    section := tail[3..];
  }

  // A line is a hunk header with these digits exactly when it spells two ranges between the
  // marks, the second beginning with them, whatever follows.
  lemma HunkHeaderIff(raw: string, digits: string)
    ensures HunkHeader(raw) == Some(digits) <==>
              exists pre, a, post, section :: Spells(raw, pre, a, post, digits, section)
  {
    if HunkHeader(raw) == Some(digits) {
      var pre, a, post, section := HeaderForm(raw);
      assert Spells(raw, pre, a, post, digits, section);
    }
    forall pre, a, post, section | Spells(raw, pre, a, post, digits, section) ensures HunkHeader(raw) == Some(digits) {
      RangeTakenWhole(pre, a);
      RangeTakenWhole(post, digits);
      HeaderParts(pre, a, post, digits, section);
    }
  }
}
