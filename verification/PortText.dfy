// The released port text and the typed port ranges it spells.
module PortText {
  import opened Common
  import opened TextOps

  const MAX_PORT := 65535

  datatype PortRange = PortRange(first: int, last: int) {
    // str(range)
    function Text(): string
      requires 0 <= first && 0 <= last
    {
      if first == last then ToDecimal(first) else ToDecimal(first) + "-" + ToDecimal(last)
    }
  }

  // A ValueError, without its wording.
  datatype Malformed = Malformed

  ghost predicate InBounds(r: PortRange) {
    1 <= r.first <= r.last <= MAX_PORT
  }

  function PortNumber(text: string): Result<int, Malformed> {
    if !IsDigits(text) then Err(Malformed)
    else
      var number := FromDecimal(text);
      if 1 <= number <= MAX_PORT then Ok(number) else Err(Malformed)
  }

  function MakeRange(first: int, last: int): Result<PortRange, Malformed> {
    if first > last then Err(Malformed) else Ok(PortRange(first, last))
  }

  // "80" or "80-90", with no blanks.
  function ParseBare(text: string): Result<PortRange, Malformed> {
    var (first, dash, last) := Partition(text, '-');
    match PortNumber(first)
    case Err(e) => Err(e)
    case Ok(low) =>
      if !dash then MakeRange(low, low)
      else
        match PortNumber(last)
        case Err(e) => Err(e)
        case Ok(high) => MakeRange(low, high)
  }

  function ParseItems(items: seq<string>): Result<seq<PortRange>, Malformed> {
    if items == [] then Ok([])
    else
      match ParseItems(items[..|items| - 1])
      case Err(e) => Err(e)
      case Ok(ranges) =>
        match ParseBare(Strip(items[|items| - 1]))
        case Err(e) => Err(e)
        case Ok(r) => Ok(ranges + [r])
  }

  function ParseRanges(text: string): Result<seq<PortRange>, Malformed> {
    if text == "any" then Ok([]) else ParseItems(Split(text, ','))
  }

  method ParsePortRanges(text: string) returns (r: Result<seq<PortRange>, Malformed>)
    ensures r == ParseRanges(text)
  {
    if text == "any" {
      return Ok([]);
    }
    var items := Split(text, ',');
    var ranges: seq<PortRange> := [];
    for i := 0 to |items|
      invariant ParseItems(items[..i]) == Ok(ranges)
    {
      var one := ParseBare(Strip(items[i]));
      NextItem(items, i, ranges, one);
      if one.Err? {
        return Err(one.error);
      }
      ranges := ranges + [one.value];
    }
    assert items[..|items|] == items;
    r := Ok(ranges);
  }

  // One item more: its range is appended, or its error is the text's.
  lemma NextItem(items: seq<string>, i: nat, ranges: seq<PortRange>, one: Result<PortRange, Malformed>)
    requires i < |items| && ParseItems(items[..i]) == Ok(ranges) && ParseBare(Strip(items[i])) == one
    ensures one.Ok? ==> ParseItems(items[..i + 1]) == Ok(ranges + [one.value])
    ensures one.Err? ==> ParseItems(items) == Err(one.error)
  {
    TakeOneMore(items, i);
    ItemsSnoc(items[..i], items[i], one);
    if one.Err? {
      ErrorStays(items, i + 1);
    }
  }

  lemma ItemsSnoc(front: seq<string>, last: string, one: Result<PortRange, Malformed>)
    requires ParseBare(Strip(last)) == one && ParseItems(front).Ok?
    ensures ParseItems(front + [last])
         == if one.Err? then Err(one.error) else Ok(ParseItems(front).value + [one.value])
  {
    assert (front + [last])[..|front|] == front;
  }

  lemma {:induction false} ErrorStays(items: seq<string>, n: nat)
    requires n <= |items| && ParseItems(items[..n]).Err?
    ensures ParseItems(items) == Err(Malformed)
  {
    if n < |items| {
      assert items[..|items| - 1][..n] == items[..n];
      ErrorStays(items[..|items| - 1], n);
    } else {
      assert items[..n] == items;
      assert ParseItems(items).error == Malformed;
    }
  }

  // ---------------------------------------------------------------- what an item may say

  // The text is the decimal spelling, leading zeros allowed, of an in-bound port.
  ghost predicate SpellsPort(text: string, n: int) {
    IsDigits(text) && FromDecimal(text) == n && 1 <= n <= MAX_PORT
  }

  ghost predicate SpellsPair(text: string, a: string, b: string, r: PortRange) {
    text == a + "-" + b && SpellsPort(a, r.first) && SpellsPort(b, r.last) && r.first <= r.last
  }

  // The text is one port, or two ports in order with a dash between.
  ghost predicate Spells(text: string, r: PortRange) {
    || (SpellsPort(text, r.first) && r.last == r.first)
    || exists a, b :: SpellsPair(text, a, b, r)
  }

  lemma DigitsHaveNoDash(text: string, c: char)
    requires IsDigits(text) && !IsDigit(c)
    ensures c !in text
  {
  }

  // The item parser accepts exactly the texts of the grammar, with the range they spell.
  lemma BareSpells(text: string, r: PortRange)
    ensures ParseBare(text) == Ok(r) <==> Spells(text, r)
  {
    var (first, dash, last) := Partition(text, '-');
    PartitionForm(text, '-');
    if ParseBare(text) == Ok(r) && dash {
      assert SpellsPair(text, first, last, r);
    }
    if SpellsPort(text, r.first) && r.last == r.first {
      DigitsHaveNoDash(text, '-');
      PartitionNone(text, '-');
    }
    if a, b :| SpellsPair(text, a, b, r) {
      DigitsHaveNoDash(a, '-');
      PartitionAt(a, b, '-');
    }
  }

  lemma SpelledInBounds(text: string, r: PortRange)
    requires Spells(text, r)
    ensures InBounds(r)
  {
  }

  ghost predicate AllSpell(items: seq<string>, ranges: seq<PortRange>) {
    |ranges| == |items| && forall i :: 0 <= i < |items| ==> Spells(Strip(items[i]), ranges[i])
  }

  lemma AllSpellSnoc(items: seq<string>, ranges: seq<PortRange>, item: string, r: PortRange)
    ensures AllSpell(items + [item], ranges + [r]) <==> AllSpell(items, ranges) && Spells(Strip(item), r)
  {
    var all, rs := items + [item], ranges + [r];
    if AllSpell(all, rs) {
      forall i | 0 <= i < |items| ensures Spells(Strip(items[i]), ranges[i]) {
        assert all[i] == items[i] && rs[i] == ranges[i];
      }
      assert all[|items|] == item && rs[|items|] == r;
    }
  }

  lemma {:induction false} ItemsSpell(items: seq<string>, ranges: seq<PortRange>)
    ensures ParseItems(items) == Ok(ranges) <==> AllSpell(items, ranges)
  {
    if items != [] {
      var front, last := items[..|items| - 1], items[|items| - 1];
      assert items == front + [last];
      if ParseItems(items) == Ok(ranges) {
        var rs, r := ParseItems(front).value, ParseBare(Strip(last)).value;
        ItemsSpell(front, rs);
        BareSpells(Strip(last), r);
        AllSpellSnoc(front, rs, last, r);
      }
      if AllSpell(items, ranges) {
        var rs, r := ranges[..|ranges| - 1], ranges[|ranges| - 1];
        assert ranges == rs + [r];
        AllSpellSnoc(front, rs, last, r);
        ItemsSpell(front, rs);
        BareSpells(Strip(last), r);
      }
    }
  }

  // The parser accepts a text exactly when it is "any", with no ranges, or each comma item
  // spells a range; the ranges are then the items', in order, and all are within bounds.
  lemma ParserAccepts(text: string, ranges: seq<PortRange>)
    ensures ParseRanges(text) == Ok(ranges) <==>
              if text == "any" then ranges == []
              else AllSpell(Split(text, ','), ranges)
    ensures ParseRanges(text) == Ok(ranges) ==> forall r :: r in ranges ==> InBounds(r)
  {
    ItemsSpell(Split(text, ','), ranges);
    if ParseRanges(text) == Ok(ranges) {
      forall r | r in ranges ensures InBounds(r) {
        var i :| 0 <= i < |ranges| && ranges[i] == r;
        SpelledInBounds(Strip(Split(text, ',')[i]), r);
      }
    }
  }

  // ---------------------------------------------------------------- printing

  ghost predicate AllInBounds(ranges: seq<PortRange>) {
    forall r :: r in ranges ==> InBounds(r)
  }

  function Texts(ranges: seq<PortRange>): seq<string>
    requires forall r :: r in ranges ==> 0 <= r.first && 0 <= r.last
  {
    seq(|ranges|, i requires 0 <= i < |ranges| => assert ranges[i] in ranges; ranges[i].Text())
  }

  // The released text of a tuple of ranges; the empty tuple is any port.
  function Render(ranges: seq<PortRange>): string
    requires forall r :: r in ranges ==> 0 <= r.first && 0 <= r.last
  {
    if ranges == [] then "any" else Join(Texts(ranges), ",")
  }

  lemma RangeText(r: PortRange)
    requires InBounds(r)
    ensures Spells(r.Text(), r) && ',' !in r.Text() && Tight(r.Text()) && r.Text() != "" && r.Text()[0] != 'a'
  {
    DecimalRoundTrip(r.first);
    DecimalRoundTrip(r.last);
    if r.first != r.last {
      assert SpellsPair(r.Text(), ToDecimal(r.first), ToDecimal(r.last), r);
      DashedText(ToDecimal(r.first), ToDecimal(r.last));
    } else {
      DigitsText(ToDecimal(r.first));
    }
  }

  lemma DigitsText(text: string)
    requires IsDigits(text)
    ensures ',' !in text && Tight(text) && text != "" && text[0] != 'a'
  {
    assert IsDigit(text[0]) && IsDigit(text[|text| - 1]);
  }

  lemma DashedText(a: string, b: string)
    requires IsDigits(a) && IsDigits(b)
    ensures var text := a + "-" + b; ',' !in text && Tight(text) && text != "" && text[0] != 'a'
  {
    var text := a + "-" + b;
    DigitsText(a);
    DigitsText(b);
    assert text[0] == a[0] && text[|text| - 1] == b[|b| - 1];
  }

  lemma {:induction false} JoinHead(parts: seq<string>, sep: string)
    requires parts != [] && parts[0] != ""
    ensures Join(parts, sep) != "" && Join(parts, sep)[0] == parts[0][0]
  {
    if |parts| > 1 {
      JoinHead(parts[..|parts| - 1], sep);
    }
  }

  // Parsing the released text of any in-bound ranges gives the ranges back.
  lemma PortRoundTrip(ranges: seq<PortRange>)
    requires AllInBounds(ranges)
    ensures ParseRanges(Render(ranges)) == Ok(ranges)
  {
    if ranges != [] {
      var texts := Texts(ranges);
      forall i | 0 <= i < |ranges|
        ensures Spells(Strip(texts[i]), ranges[i]) && ',' !in texts[i]
      {
        assert ranges[i] in ranges;
        RangeText(ranges[i]);
        StripTight(texts[i]);
      }
      SplitJoin(texts, ',');
      assert ranges[0] in ranges;
      RangeText(ranges[0]);
      JoinHead(texts, ",");
      ParserAccepts(Render(ranges), ranges);
    }
  }

  // Any accepted text can be replaced by the released text of what it parses to.
  lemma RenderNormalises(text: string)
    requires ParseRanges(text).Ok?
    ensures AllInBounds(ParseRanges(text).value)
    ensures ParseRanges(Render(ParseRanges(text).value)) == ParseRanges(text)
  {
    ParserAccepts(text, ParseRanges(text).value);
    PortRoundTrip(ParseRanges(text).value);
  }

  // ---------------------------------------------------------------- either form of a record

  function ParseNatRanges(text: string): Result<seq<PortRange>, Malformed> {
    if text == "" then Ok([]) else ParseRanges(text)
  }

  // Three places to read ranges from, in order of precedence; Err when all are empty.
  function PortsOf(typed: Option<seq<PortRange>>, text: Option<string>, unset: Option<string>,
                   parse: string -> Result<seq<PortRange>, Malformed>): Result<seq<PortRange>, Malformed>
  {
    match typed
    case Some(ranges) => Ok(ranges)
    case None =>
      match text
      case Some(t) => parse(t)
      case None => match unset case Some(u) => parse(u) case None => Err(Malformed)
  }

  // A record reads the same whichever form the driver filled.
  lemma EitherFormReadsSame(ranges: seq<PortRange>, other: Option<string>, unset: Option<string>)
    requires AllInBounds(ranges)
    ensures PortsOf(Some(ranges), other, unset, ParseRanges) == PortsOf(None, Some(Render(ranges)), unset, ParseRanges)
    ensures PortsOf(Some(ranges), other, unset, ParseNatRanges)
         == PortsOf(None, Some(Render(ranges)), unset, ParseNatRanges)
  {
    PortRoundTrip(ranges);
    if ranges != [] {
      assert ranges[0] in ranges;
      RangeText(ranges[0]);
      JoinHead(Texts(ranges), ",");
    }
  }
}
