// The text operations of the source: strip, split, partition, join, and decimal numbers.
module TextOps {

  // The characters str.strip() removes.
  predicate IsSpace(c: char) {
    || '\t' <= c <= '\r' || '\U{1c}' <= c <= ' ' || c == '\U{85}' || c == '\U{a0}' || c == '\U{1680}'
    || '\U{2000}' <= c <= '\U{200a}' || c == '\U{2028}' || c == '\U{2029}' || c == '\U{202f}'
    || c == '\U{205f}' || c == '\U{3000}'
  }

  function LeftStrip(text: string): string {
    if text != "" && IsSpace(text[0]) then LeftStrip(text[1..]) else text
  }

  function RightStrip(text: string): string {
    if text != "" && IsSpace(text[|text| - 1]) then RightStrip(text[..|text| - 1]) else text
  }

  function Strip(text: string): string {
    RightStrip(LeftStrip(text))
  }

  // text.split(c)
  function Split(text: string, c: char): (parts: seq<string>)
    ensures parts != []
  {
    if text == "" then [""]
    else
      var front := Split(text[..|text| - 1], c);
      if text[|text| - 1] == c then front + [""]
      else front[..|front| - 1] + [front[|front| - 1] + [text[|text| - 1]]]
  }

  // sep.join(parts)
  function Join(parts: seq<string>, sep: string): string {
    if parts == [] then ""
    else if |parts| == 1 then parts[0]
    else Join(parts[..|parts| - 1], sep) + sep + parts[|parts| - 1]
  }

  // text.partition(c): before the first c, whether there is one, after it.
  function Partition(text: string, c: char): (string, bool, string) {
    if text == "" then ("", false, "")
    else if text[0] == c then ("", true, text[1..])
    else
      var (head, found, tail) := Partition(text[1..], c);
      ([text[0]] + head, found, tail)
  }

  predicate StartsWith(text: string, prefix: string) {
    |text| >= |prefix| && text[..|prefix|] == prefix
  }

  predicate IsDigit(c: char) {
    '0' <= c <= '9'
  }

  // text.isascii() and text.isdigit()
  predicate IsDigits(text: string) {
    text != "" && forall c :: c in text ==> IsDigit(c)
  }

  function DigitValue(c: char): nat
    requires IsDigit(c)
  {
    (c - '0') as nat
  }

  // int(text) of ASCII digits.
  function FromDecimal(text: string): nat
    requires forall c :: c in text ==> IsDigit(c)
  {
    if text == "" then 0
    else
      assert text[|text| - 1] in text;
      10 * FromDecimal(text[..|text| - 1]) + DigitValue(text[|text| - 1])
  }

  function Digit(n: nat): (c: char)
    requires n < 10
    ensures IsDigit(c) && DigitValue(c) == n
  {
    '0' + n as char
  }

  // str(n)
  function ToDecimal(n: nat): string {
    if n < 10 then [Digit(n)] else ToDecimal(n / 10) + [Digit(n % 10)]
  }

  // ---------------------------------------------------------------- splitting

  lemma LastOfConcat(a: string, b: string)
    requires b != ""
    ensures (a + b)[..|a + b| - 1] == a + b[..|b| - 1] && (a + b)[|a + b| - 1] == b[|b| - 1]
    ensures a + b[..|b| - 1] + [b[|b| - 1]] == a + b
  {
  }

  lemma {:induction false} SplitPlain(a: string, b: string, c: char)
    requires c !in b
    ensures var front := Split(a, c);
      Split(a + b, c) == front[..|front| - 1] + [front[|front| - 1] + b]
  {
    if b == "" {
      assert a + b == a;
      var front := Split(a, c);
      assert front[|front| - 1] + "" == front[|front| - 1];
    } else {
      SplitPlain(a, b[..|b| - 1], c);
      LastOfConcat(a, b);
      var front := Split(a, c);
      LastOfConcat(front[|front| - 1], b);
    }
  }

  lemma SplitSeparator(a: string, c: char)
    ensures Split(a + [c], c) == Split(a, c) + [""]
  {
    assert (a + [c])[..|a|] == a;
  }

  lemma SplitOneMore(text: string, last: string, c: char)
    requires c !in last
    ensures Split(text + [c] + last, c) == Split(text, c) + [last]
  {
    SplitSeparator(text, c);
    SplitPlain(text + [c], last, c);
    assert "" + last == last;
  }

  // Splitting a joined list at its separator gives the list back.
  lemma {:induction false} SplitJoin(parts: seq<string>, c: char)
    requires parts != [] && forall p :: p in parts ==> c !in p
    ensures Split(Join(parts, [c]), c) == parts
  {
    var last := parts[|parts| - 1];
    assert last in parts;
    if |parts| == 1 {
      SplitPlain("", last, c);
      assert "" + last == last;
    } else {
      var front := parts[..|parts| - 1];
      assert parts == front + [last];
      SplitJoin(front, c);
      SplitOneMore(Join(front, [c]), last, c);
    }
  }

  // No part holds the separator.
  lemma {:induction false} SplitParts(text: string, c: char)
    ensures forall p :: p in Split(text, c) ==> c !in p
  {
    if text != "" {
      var front := Split(text[..|text| - 1], c);
      SplitParts(text[..|text| - 1], c);
      assert front[|front| - 1] in front;
      forall p | p in front[..|front| - 1] ensures p in front {
      }
    }
  }

  // A first character that is no separator joins the first part.
  lemma {:induction false} SplitHead(s: char, text: string, c: char)
    requires s != c
    ensures Split([s] + text, c) == HeadJoined(s, Split(text, c))
  {
    var whole := [s] + text;
    if text == "" {
      assert whole == [s] && whole[..0] == "";
      assert [s] + "" == [s] && "" + [s] == [s];
    } else {
      var front, last := text[..|text| - 1], text[|text| - 1];
      SplitHead(s, front, c);
      assert whole[..|whole| - 1] == [s] + front && whole[|whole| - 1] == last;
      HeadJoinedSnoc(s, Split(front, c), last, c);
    }
  }

  function HeadJoined(s: char, parts: seq<string>): seq<string>
    requires parts != []
  {
    [[s] + parts[0]] + parts[1..]
  }

  // Both ways of extending the parts by one more character.
  lemma HeadJoinedSnoc(s: char, parts: seq<string>, last: char, c: char)
    requires parts != []
    ensures HeadJoined(s, parts + [""]) == HeadJoined(s, parts) + [""]
    ensures var k := |parts| - 1; var joined := HeadJoined(s, parts);
      HeadJoined(s, parts[..k] + [parts[k] + [last]]) == joined[..k] + [joined[k] + [last]]
  {
    var k := |parts| - 1;
    if k == 0 {
      assert [s] + (parts[0] + [last]) == [s] + parts[0] + [last];
    }
  }

  // ---------------------------------------------------------------- partition

  lemma {:induction false} PartitionForm(text: string, c: char)
    ensures var (head, found, tail) := Partition(text, c);
      && c !in head
      && (found <==> c in text)
      && text == (if found then head + [c] + tail else head)
  {
    if text != "" && text[0] != c {
      PartitionForm(text[1..], c);
      assert text == [text[0]] + text[1..];
    } else if text != "" {
      assert text == [c] + text[1..];
    }
  }

  lemma {:induction false} PartitionAt(head: string, tail: string, c: char)
    requires c !in head
    ensures Partition(head + [c] + tail, c) == (head, true, tail)
  {
    var text := head + [c] + tail;
    if head == "" {
      assert text[0] == c && text[1..] == tail;
    } else {
      PartitionAt(head[1..], tail, c);
      assert text[1..] == head[1..] + [c] + tail;
      assert head == [head[0]] + head[1..];
      assert head[0] in head;
    }
  }

  lemma {:induction false} PartitionNone(text: string, c: char)
    requires c !in text
    ensures Partition(text, c) == (text, false, "")
  {
    if text != "" {
      assert text[0] in text;
      PartitionNone(text[1..], c);
      assert text == [text[0]] + text[1..];
    }
  }

  // ---------------------------------------------------------------- numbers

  // A printed number is all digits and reads back.
  lemma {:induction false} DecimalRoundTrip(n: nat)
    ensures IsDigits(ToDecimal(n)) && FromDecimal(ToDecimal(n)) == n
  {
    if n >= 10 {
      DecimalRoundTrip(n / 10);
      assert ToDecimal(n)[..|ToDecimal(n)| - 1] == ToDecimal(n / 10);
    } else {
      assert [Digit(n)][..0] == "";
    }
  }

  // ---------------------------------------------------------------- stripping

  predicate Tight(text: string) {
    text == "" || (!IsSpace(text[0]) && !IsSpace(text[|text| - 1]))
  }

  lemma StripTight(text: string)
    requires Tight(text)
    ensures Strip(text) == text
  {
  }

  lemma {:induction false} RightStripKeepsHead(text: string)
    requires text != "" && !IsSpace(text[0])
    ensures RightStrip(text) != "" && RightStrip(text)[0] == text[0]
  {
    if IsSpace(text[|text| - 1]) {
      RightStripKeepsHead(text[..|text| - 1]);
    }
  }
}
